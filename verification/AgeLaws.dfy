/** Idle ages against real time: what clock-step compensation guarantees, when it fails, and
    how far apart two decisions about one package must be. */
module AgeLaws {
  import opened Prelude
  import opened Engine
  import opened ScanLaws
  import opened StepShape

  function Age(anchor: nat, now: nat): nat { if now > anchor then now - anchor else 0 }

  // Time that really passed between two samples, read off the samples alone: none across a
  // backward step, none across the correction of a boot clock that stood before September 2020.
  function QuietGap(prev: u64, now: u64): nat {
    if now < prev || 0 < prev < 1_600_000_000_000 <= now then 0 else now - prev
  }

  // --- one clock sample ------------------------------------------------------------------------

  // The jump survives the signed 64-bit cast going forward, or going backward.
  predicate ForwardFits(prev: u64, now: u64) {
    0 < prev < 1_600_000_000_000 <= now ==> now - prev < 0x8000_0000_0000_0000
  }

  predicate BackwardFits(prev: u64, now: u64) { prev - now <= 0x8000_0000_0000_0000 }

  // Compensation on an anchor not in the future: quiet time is added, a forward step out of
  // the boot clock changes nothing, a backward step can only cap the age at the new reading.
  lemma AgeAfterSample(prev: u64, now: u64, anchor: nat)
    requires anchor <= prev && ForwardFits(prev, now) && BackwardFits(prev, now)
    ensures var shifted := Shift(anchor, ClockJump(prev, now));
      && shifted <= now
      && Age(shifted, now) == if now < prev then Min(Age(anchor, prev), now)
                              else Age(anchor, prev) + QuietGap(prev, now)
  {
  }

  lemma AgeNeverOvercounts(prev: u64, now: u64, anchor: nat)
    requires ForwardFits(prev, now)
    ensures Age(Shift(anchor, ClockJump(prev, now)), now) <= Age(anchor, prev) + QuietGap(prev, now)
  {
  }

  // Exactly the samples after which no stored age has gained more than the quiet time.
  lemma NoOvercountIff(prev: u64, now: u64)
    ensures (forall anchor: nat | anchor <= prev ::
               Age(Shift(anchor, ClockJump(prev, now)), now) <= Age(anchor, prev) + QuietGap(prev, now))
            <==> ForwardFits(prev, now)
  {
    if ForwardFits(prev, now) {
      forall anchor: nat | anchor <= prev
        ensures Age(Shift(anchor, ClockJump(prev, now)), now) <= Age(anchor, prev) + QuietGap(prev, now)
      {
        AgeNeverOvercounts(prev, now, anchor);
      }
    } else {
      var anchor: nat := prev;
      assert Age(Shift(anchor, ClockJump(prev, now)), now) == now;
    }
  }

  // Exactly the samples after which no stored anchor lies in the future.
  lemma NoFutureAnchorIff(prev: u64, now: u64)
    ensures (forall anchor: nat | anchor <= prev :: Shift(anchor, ClockJump(prev, now)) <= now)
            <==> BackwardFits(prev, now)
  {
    if BackwardFits(prev, now) {
    } else {
      var anchor: nat := prev;
      assert Shift(anchor, ClockJump(prev, now)) > now;
    }
  }

  // A boot clock followed by one line stamped beyond 2^63 ms: the cast turns the forward
  // jump negative and five seconds of idling become 2^63 ms.
  lemma WrappedStepAges()
    ensures var prev: u64 := 15_000; var now: u64 := 0x8000_0000_0000_0000 + 20_000; var anchor := 10_000;
      && !ForwardFits(prev, now)
      && Age(anchor, prev) == 5_000 && QuietGap(prev, now) == 0
      && Age(Shift(anchor, ClockJump(prev, now)), now) == now
  {
  }

  // --- every anchor the daemon keeps ---------------------------------------------------------------

  ghost predicate OptionBehind(t: Option<nat>, now: nat) { t.Some? ==> t.value <= now }

  ghost predicate AnchorsBehind(s: State) {
    && (forall k | k in s.alive :: s.alive[k] <= s.last)
    && (forall k | k in s.deaths :: s.deaths[k] <= s.last)
    && OptionBehind(s.timers.screenOnStart, s.last) && OptionBehind(s.timers.screenOffStart, s.last)
    && OptionBehind(s.timers.gameStart, s.last) && s.timers.sessionStart <= s.last
  }

  lemma AdvanceKeepsAnchorsBehind(s: State, now: u64)
    requires AnchorsBehind(s) && BackwardFits(s.last, now)
    ensures AnchorsBehind(Advance(s, now))
  {
    NoFutureAnchorIff(s.last, now);
  }

  // Only the clock of the current event is ever written into an activity anchor.
  ghost predicate OnlyNow(before: map<Pkg, nat>, after: map<Pkg, nat>, now: nat) {
    forall k | k in after :: after[k] == now || (k in before && after[k] == before[k])
  }

  lemma PrepareStampsNow(s: State, i: Input, o: Answers)
    requires i.Line?
    ensures OnlyNow(Advance(s, i.now).alive, Prepare(s, i, o).alive, i.now)
  {
    hide Focus, Admit, OnDied, OnScreen, Pass, Advance, Promote, Trampoline, PruneDeaths, IndexStart;
    var a := Advance(s, i.now);
    match i.event
    case ResumeActivity(pkg, component) => FocusFrame(a, pkg, component, i.now);
    case ProcStart(_, _, _, _, _) => AdmitFrame(a, i.event, o.startRssKb, i.now);
    case ProcDied(pid) => DiedFrame(a, pid, i.now);
    case ScreenToggled(on) => ScreenFrame(a, on, i.now);
    case _ =>
  }

  lemma PassStampsNow(s: State, o: Answers, now: nat)
    requires Sound(o)
    ensures OnlyNow(s.alive, Pass(s, o, now).alive, now)
    ensures forall k | k in Pass(s, o, now).alive :: k in s.alive
  {
    forall k | k in Pass(s, o, now).alive
      ensures k in s.alive && (Pass(s, o, now).alive[k] == now || Pass(s, o, now).alive[k] == s.alive[k])
    {
      PassLeaves(s, o, now, k);
    }
  }

  lemma StepStampsNow(s: State, i: Input, o: Answers)
    requires i.Line? && Sound(o)
    ensures OnlyNow(Advance(s, i.now).alive, Step(s, i, o).alive, i.now)
    ensures Step(s, i, o).last == i.now
  {
    var p := Prepare(s, i, o);
    StepIs(s, i, o);
    PrepareStampsNow(s, i, o);
    PrepareKeepsClock(s, i, o);
    if Reaps(s, i) {
      PassIs(p, o, i.now);
      PassStampsNow(p, o, i.now);
    }
  }

  lemma PrepareKeepsClock(s: State, i: Input, o: Answers)
    ensures Prepare(s, i, o).last == if i.Line? then i.now else s.last
  {
    hide Focus, Admit, OnDied, OnScreen, Pass;
    if i.Line? {
      var a := Advance(s, i.now);
      match i.event
      case ResumeActivity(pkg, component) => FocusFrame(a, pkg, component, i.now);
      case ProcStart(_, _, _, _, _) => AdmitFrame(a, i.event, o.startRssKb, i.now);
      case ProcDied(pid) => DiedFrame(a, pid, i.now);
      case ScreenToggled(on) => ScreenFrame(a, on, i.now);
      case _ =>
    }
  }

  // Anchors copied, dropped or set to the current time stay behind it.
  lemma StillBehind(a: State, t: State)
    requires AnchorsBehind(a) && t.last == a.last && TimersMarked(a.timers, t.timers, a.last)
    requires OnlyNow(a.alive, t.alive, a.last) && OnlyNow(a.deaths, t.deaths, a.last)
    ensures AnchorsBehind(t)
  {
  }

  lemma PrepareKeepsAnchorsBehind(s: State, i: Input, o: Answers)
    requires AnchorsBehind(s) && i.Line? && BackwardFits(s.last, i.now)
    ensures AnchorsBehind(Prepare(s, i, o))
  {
    hide Focus, Admit, OnDied, OnScreen, Pass;
    var a, t := Advance(s, i.now), Prepare(s, i, o);
    AdvanceKeepsAnchorsBehind(s, i.now);
    PrepareStampsNow(s, i, o);
    PrepareKeepsClock(s, i, o);
    match i.event
    case ResumeActivity(pkg, component) => FocusFrame(a, pkg, component, i.now); StillBehind(a, t);
    case ProcStart(_, _, _, _, _) => AdmitFrame(a, i.event, o.startRssKb, i.now); StillBehind(a, t);
    case ProcDied(pid) => DiedFrame(a, pid, i.now); StillBehind(a, t);
    case ScreenToggled(on) => ScreenFrame(a, on, i.now); StillBehind(a, t);
    case _ =>
  }

  lemma StepKeepsAnchorsBehind(s: State, i: Input, o: Answers)
    requires Sound(o) && AnchorsBehind(s) && (i.Line? ==> BackwardFits(s.last, i.now))
    ensures AnchorsBehind(Step(s, i, o))
  {
    StepIs(s, i, o);
    if i.Line? { PrepareKeepsAnchorsBehind(s, i, o); }
    if Reaps(s, i) {
      var p := Prepare(s, i, o);
      PrepareKeepsClock(s, i, o);
      PassIs(p, o, i.now);
      PassStampsNow(p, o, i.now);
    }
  }
}
