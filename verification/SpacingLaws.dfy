/** Whole runs: idle ages measured against accumulated quiet time, and decision spacing. */
module SpacingLaws {
  import opened Prelude
  import opened Engine
  import opened ScanLaws
  import opened StepShape
  import opened AgeLaws
  import HandlerLaws

  // A run observed from outside: quiet time so far, the quiet-time reading at which each
  // anchor was last written, the anchors no backward step has capped since, and the reading
  // at each package's latest decision.
  datatype Watched = Watched(s: State, quiet: nat, stamp: map<Pkg, nat>, uncapped: set<Pkg>, decided: map<Pkg, nat>)

  function Idle(s: State, k: Pkg): nat
    requires k in s.alive
  {
    Age(s.alive[k], s.last)
  }

  // A backward step lands on a reading smaller than the package's age.
  predicate Capped(s: State, k: Pkg, now: nat) {
    k in s.alive && now < s.last && Idle(s, k) > now
  }

  ghost function DecidedPkgs(rs: seq<KillRecord>): set<Pkg> { set r | r in rs :: r.pkg }

  ghost function Watch(w: Watched, h: Happening): Watched {
    var t := Step(w.s, h.input, h.answers);
    if h.input.Reload? then w.(s := t)
    else
      var now := h.input.now;
      var q := w.quiet + QuietGap(w.s.last, now);
      var ds := DecidedPkgs(Decisions(w.s, h.input, h.answers));
      Watched(t, q,
              map k | k in t.alive :: if t.alive[k] == now || k !in w.stamp then q else w.stamp[k],
              set k | k in t.alive && (t.alive[k] == now || (k in w.uncapped && !Capped(w.s, k, now))),
              map k | k in w.decided.Keys + ds :: if k in ds then q else w.decided[k])
  }

  ghost function WatchRun(s: State, run: seq<Happening>): Watched {
    if run == [] then Watched(s, 0, map[], {}, map[])
    else Watch(WatchRun(s, run[..|run| - 1]), run[|run| - 1])
  }

  lemma {:induction false} WatchRunRuns(s: State, run: seq<Happening>)
    ensures WatchRun(s, run).s == Run(s, run)
  {
    if run != [] { WatchRunRuns(s, run[..|run| - 1]); }
  }

  // Every sample of the run survives the cast, forward respectively backward.
  ghost predicate ForwardFaithful(s: State, run: seq<Happening>) {
    run != [] ==>
      var h := run[|run| - 1];
      && ForwardFaithful(s, run[..|run| - 1])
      && (h.input.Line? ==> ForwardFits(Run(s, run[..|run| - 1]).last, h.input.now))
  }

  ghost predicate BackwardFaithful(s: State, run: seq<Happening>) {
    run != [] ==>
      var h := run[|run| - 1];
      && BackwardFaithful(s, run[..|run| - 1])
      && (h.input.Line? ==> BackwardFits(Run(s, run[..|run| - 1]).last, h.input.now))
  }

  // --- no overcounting -----------------------------------------------------------------------------

  ghost predicate NotOvercounted(w: Watched) {
    && w.stamp.Keys == w.s.alive.Keys
    && (forall k | k in w.s.alive :: w.stamp[k] <= w.quiet && Idle(w.s, k) <= w.quiet - w.stamp[k])
    && (forall k | k in w.decided :: w.decided[k] <= w.quiet)
    && (forall k | k in w.s.alive && k in w.decided :: w.decided[k] <= w.stamp[k])
  }

  lemma ReloadKeepsTables(s: State, i: Input, o: Answers)
    requires i.Reload?
    ensures var t := Step(s, i, o); t == s.(policy := t.policy, out := t.out)
  {
  }

  // A decided package is re-anchored to the current time or gone.
  lemma DecisionResets(s: State, i: Input, o: Answers, r: KillRecord)
    requires i.Line? && Sound(o) && r in Decisions(s, i, o)
    requires r.pkg in Step(s, i, o).alive
    ensures Step(s, i, o).alive[r.pkg] == i.now
  {
    var p := Prepare(s, i, o);
    StepIs(s, i, o);
    DecisionFacts(s, i, o, r);
    PassLeaves(p, o, i.now, r.pkg);
    NamesAreListed(Chosen(p, o, i.now), r.pkg);
  }

  lemma SampleAges(s: State, now: u64, k: Pkg)
    requires ForwardFits(s.last, now) && k in Advance(s, now).alive
    ensures k in s.alive && Age(Advance(s, now).alive[k], now) <= Idle(s, k) + QuietGap(s.last, now)
  {
    hide ClockJump;
    AgeNeverOvercounts(s.last, now, s.alive[k]);
  }

  lemma WatchKeepsAges(w: Watched, h: Happening)
    requires NotOvercounted(w) && Sound(h.answers)
    requires h.input.Line? ==> ForwardFits(w.s.last, h.input.now)
    ensures NotOvercounted(Watch(w, h))
  {
    hide Step, Decisions, Advance, ClockJump;
    if h.input.Reload? {
      ReloadKeepsTables(w.s, h.input, h.answers);
    } else {
      var now, v := h.input.now, Watch(w, h);
      StepStampsNow(w.s, h.input, h.answers);
      forall k | k in v.s.alive ensures v.stamp[k] <= v.quiet && Idle(v.s, k) <= v.quiet - v.stamp[k] {
        if v.s.alive[k] != now { SampleAges(w.s, now, k); }
      }
      forall k | k in v.s.alive && k in v.decided ensures v.decided[k] <= v.stamp[k] {
        AdvanceFrame(w.s, now);
        if k in DecidedPkgs(Decisions(w.s, h.input, h.answers)) {
          var r :| r in Decisions(w.s, h.input, h.answers) && r.pkg == k;
          DecisionResets(w.s, h.input, h.answers, r);
        }
      }
    }
  }

  // On every run from a state with no aged package, an idle age never exceeds the quiet time
  // since its anchor was last written.
  lemma {:induction false} AgesNeverOvercount(s: State, run: seq<Happening>)
    requires s.alive == map[] && AllSound(run) && ForwardFaithful(s, run)
    ensures NotOvercounted(WatchRun(s, run))
  {
    if run != [] {
      var n := |run| - 1;
      assert run[n] in run;
      AgesNeverOvercount(s, run[..n]);
      WatchRunRuns(s, run[..n]);
      WatchKeepsAges(WatchRun(s, run[..n]), run[n]);
    }
  }

  // --- exact ages ------------------------------------------------------------------------------------

  ghost predicate Exact(w: Watched) {
    && AnchorsBehind(w.s)
    && forall k | k in w.uncapped :: k in w.s.alive && k in w.stamp && Idle(w.s, k) == w.quiet - w.stamp[k]
  }

  lemma WatchKeepsExact(w: Watched, h: Happening)
    requires NotOvercounted(w) && Exact(w) && Sound(h.answers)
    requires h.input.Line? ==> ForwardFits(w.s.last, h.input.now) && BackwardFits(w.s.last, h.input.now)
    ensures Exact(Watch(w, h))
  {
    StepKeepsAnchorsBehind(w.s, h.input, h.answers);
    if h.input.Reload? {
      ReloadKeepsTables(w.s, h.input, h.answers);
    } else {
      var now, v := h.input.now, Watch(w, h);
      StepStampsNow(w.s, h.input, h.answers);
      forall k | k in v.uncapped ensures k in v.s.alive && Idle(v.s, k) == v.quiet - v.stamp[k] {
        if v.s.alive[k] != now { AgeAfterSample(w.s.last, now, w.s.alive[k]); }
      }
    }
  }

  // When every sample survives the cast, no anchor lies in the future and the age of every
  // package is exactly that quiet time, unless a backward step landed below the age.
  lemma {:induction false} AgesAreExact(s: State, run: seq<Happening>)
    requires s.alive == map[] && AnchorsBehind(s) && AllSound(run)
    requires ForwardFaithful(s, run) && BackwardFaithful(s, run)
    ensures Exact(WatchRun(s, run))
  {
    if run != [] {
      var n := |run| - 1;
      assert run[n] in run;
      AgesAreExact(s, run[..n]);
      AgesNeverOvercount(s, run[..n]);
      WatchRunRuns(s, run[..n]);
      WatchKeepsExact(WatchRun(s, run[..n]), run[n]);
    }
  }

  lemma OptionNeverGains(prev: u64, now: u64, t: Option<nat>)
    requires ForwardFits(prev, now) && QuietGap(prev, now) == 0
    ensures var jump := ClockJump(prev, now); var u := if jump == 0 then t else ShiftOption(t, jump);
      SecondsSince(u, now) <= SecondsSince(t, prev)
  {
    if t.Some? { AgeNeverOvercounts(prev, now, t.value); }
  }

  // A sample the classifier takes for a clock step opens no gate: it moves the package's anchor
  // and with it the screen-off and foreground anchors the thresholds are read from.
  lemma StepAloneNeverRipens(s: State, now: u64, isGame: bool, lowMem: bool, k: Pkg)
    requires ForwardFits(s.last, now) && QuietGap(s.last, now) == 0
    requires var a := Advance(s, now); PassesGates(a, GateOf(a, now, isGame, lowMem), k)
    ensures PassesGates(s, GateOf(s, s.last, isGame, lowMem), k)
  {
    hide ClockJump, LruPos, Shift;
    OptionNeverGains(s.last, now, Some(s.alive[k]));
    OptionNeverGains(s.last, now, s.timers.screenOffStart);
    OptionNeverGains(s.last, now, FgAnchor(s));
  }

  // --- decision spacing ---------------------------------------------------------------------------------

  // The idle threshold in force at a step's pass.
  ghost function ThresholdSec(s: State, i: Input, o: Answers): nat
    requires i.Line?
  {
    PassGate(Prepare(s, i, o), o, i.now).idleSec
  }

  lemma DecisionIsSpaced(w: Watched, h: Happening, r: KillRecord)
    requires NotOvercounted(w) && Sound(h.answers) && h.input.Line?
    requires ForwardFits(w.s.last, h.input.now)
    requires r in Decisions(w.s, h.input, h.answers) && r.pkg in w.decided
    ensures Watch(w, h).quiet - w.decided[r.pkg] >= 1000 * ThresholdSec(w.s, h.input, h.answers)
  {
    var now, p := h.input.now, Prepare(w.s, h.input, h.answers);
    DecisionFacts(w.s, h.input, h.answers, r);
    PrepareStampsNow(w.s, h.input, h.answers);
    if p.alive[r.pkg] != now { AgeNeverOvercounts(w.s.last, now, w.s.alive[r.pkg]); }
  }

  ghost function QuietTime(s: State, run: seq<Happening>): nat { WatchRun(s, run).quiet }

  ghost predicate DecidesOn(s: State, h: Happening, r: KillRecord) {
    h.input.Line? && r in Decisions(s, h.input, h.answers)
  }

  lemma LastOf(run: seq<Happening>, h: Happening)
    ensures run + [h] != [] && (run + [h])[..|run + [h]| - 1] == run && (run + [h])[|run + [h]| - 1] == h
  {
  }

  lemma DecisionIsNoted(w: Watched, h: Happening, r: KillRecord)
    requires DecidesOn(w.s, h, r)
    ensures var v := Watch(w, h); r.pkg in v.decided && v.decided[r.pkg] == v.quiet
  {
  }

  lemma DecisionIsKept(w: Watched, h: Happening, k: Pkg)
    requires k in w.decided && w.decided[k] <= w.quiet
    ensures var v := Watch(w, h); k in v.decided && w.decided[k] <= v.decided[k] <= v.quiet
  {
  }

  lemma WatchLast(s: State, run: seq<Happening>, h: Happening)
    ensures WatchRun(s, run + [h]) == Watch(WatchRun(s, run), h)
  {
    LastOf(run, h);
  }

  lemma {:induction false} DecisionIsRemembered(s: State, run: seq<Happening>, more: seq<Happening>, k: Pkg)
    requires var w := WatchRun(s, run); k in w.decided && w.decided[k] <= w.quiet
    ensures var w, v := WatchRun(s, run), WatchRun(s, run + more);
      k in v.decided && w.decided[k] <= v.decided[k] <= v.quiet
  {
    if more == [] {
      assert run + more == run;
    } else {
      var n := |more| - 1;
      var before := run + more[..n];
      DecisionIsRemembered(s, run, more[..n], k);
      assert run + more == before + [more[n]];
      WatchLast(s, before, more[n]);
      DecisionIsKept(WatchRun(s, before), more[n], k);
    }
  }

  // Any two decisions about one package are at least the later pass's idle threshold of
  // quiet time apart, whatever happens in between.
  lemma DecisionSpacing(s: State, pre: seq<Happening>, h1: Happening, mid: seq<Happening>, h2: Happening,
                        first: KillRecord, later: KillRecord)
    requires var upto := pre + [h1] + mid;
      && s.alive == map[] && AllSound(upto + [h2]) && ForwardFaithful(s, upto + [h2])
      && DecidesOn(Run(s, pre), h1, first) && DecidesOn(Run(s, upto), h2, later)
      && first.pkg == later.pkg
    ensures var upto := pre + [h1] + mid;
      QuietTime(s, upto + [h2]) - QuietTime(s, pre + [h1])
      >= 1000 * ThresholdSec(Run(s, upto), h2.input, h2.answers)
  {
    var upto := pre + [h1] + mid;
    LastOf(upto, h2);
    assert h2 in upto + [h2];
    AgesNeverOvercount(s, upto);
    WatchRunRuns(s, upto);
    WatchRunRuns(s, pre);
    WatchLast(s, pre, h1);
    DecisionIsNoted(WatchRun(s, pre), h1, first);
    DecisionIsRemembered(s, pre + [h1], mid, first.pkg);
    DecisionIsSpaced(WatchRun(s, upto), h2, later);
  }

  // --- departures ---------------------------------------------------------------------------------

  // This resume takes the focus from an app.
  predicate TakesFocusFrom(s: State, i: Input, k: Pkg) {
    && i.Line? && i.event.ResumeActivity? && s.fg == Some(k) && i.event.pkg != k
    && k in s.idx.pkgToUid && s.idx.pkgToUid[k] >= 10_000
  }

  // Whatever anchor the package has was written at this reading or later.
  ghost predicate FreshSince(w: Watched, k: Pkg, reading: nat) {
    reading <= w.quiet && (k in w.stamp ==> reading <= w.stamp[k])
  }

  lemma DepartureStamps(s: State, i: Input, o: Answers, k: Pkg)
    requires TakesFocusFrom(s, i, k) && Sound(o) && k in Step(s, i, o).alive
    ensures Step(s, i, o).alive[k] == i.now
  {
    hide Prepare, Pass, Advance, ChosenSet, SpentSet, PassGate;
    var p := Prepare(s, i, o);
    AdvanceFrame(s, i.now);
    HandlerLaws.ResumeTables(s, i.now, i.event.pkg, i.event.component, o);
    StepIs(s, i, o);
    PassLeaves(p, o, i.now, k);
  }

  lemma DepartureIsFresh(w: Watched, h: Happening, k: Pkg)
    requires TakesFocusFrom(w.s, h.input, k) && Sound(h.answers)
    ensures FreshSince(Watch(w, h), k, Watch(w, h).quiet)
  {
    hide Step, Decisions;
    if k in Step(w.s, h.input, h.answers).alive { DepartureStamps(w.s, h.input, h.answers, k); }
  }

  lemma FreshIsKept(w: Watched, h: Happening, k: Pkg, reading: nat)
    requires FreshSince(w, k, reading)
    ensures FreshSince(Watch(w, h), k, reading)
  {
    hide Step, Decisions;
    if h.input.Reload? { ReloadKeepsTables(w.s, h.input, h.answers); }
  }

  lemma {:induction false} FreshIsRemembered(s: State, run: seq<Happening>, more: seq<Happening>, k: Pkg, reading: nat)
    requires FreshSince(WatchRun(s, run), k, reading)
    ensures FreshSince(WatchRun(s, run + more), k, reading)
  {
    hide Watch, FreshSince;
    if more == [] {
      assert run + more == run;
    } else {
      var n := |more| - 1;
      var before := run + more[..n];
      FreshIsRemembered(s, run, more[..n], k, reading);
      assert run + more == before + [more[n]];
      WatchLast(s, before, more[n]);
      FreshIsKept(WatchRun(s, before), more[n], k, reading);
    }
  }

  lemma DecisionWaits(w: Watched, h: Happening, r: KillRecord, reading: nat)
    requires NotOvercounted(w) && FreshSince(w, r.pkg, reading) && Sound(h.answers) && h.input.Line?
    requires ForwardFits(w.s.last, h.input.now) && r in Decisions(w.s, h.input, h.answers)
    ensures Watch(w, h).quiet - reading >= 1000 * ThresholdSec(w.s, h.input, h.answers)
  {
    var now, p := h.input.now, Prepare(w.s, h.input, h.answers);
    DecisionFacts(w.s, h.input, h.answers, r);
    PrepareStampsNow(w.s, h.input, h.answers);
    if p.alive[r.pkg] != now { AgeNeverOvercounts(w.s.last, now, w.s.alive[r.pkg]); }
  }

  // An app that leaves the foreground is decided about no earlier than the idle threshold of
  // the deciding pass, in quiet time, after it left, however long it was in use before.
  lemma DepartureSpacing(s: State, pre: seq<Happening>, h1: Happening, mid: seq<Happening>, h2: Happening,
                         r: KillRecord)
    requires var upto := pre + [h1] + mid;
      && s.alive == map[] && AllSound(upto + [h2]) && ForwardFaithful(s, upto + [h2])
      && TakesFocusFrom(Run(s, pre), h1.input, r.pkg) && DecidesOn(Run(s, upto), h2, r)
    ensures var upto := pre + [h1] + mid;
      QuietTime(s, upto + [h2]) - QuietTime(s, pre + [h1])
      >= 1000 * ThresholdSec(Run(s, upto), h2.input, h2.answers)
  {
    hide Watch, TakesFocusFrom, FreshSince, NotOvercounted, Decisions, Run, ThresholdSec;
    var upto := pre + [h1] + mid;
    LastOf(upto, h2);
    assert h1 in upto + [h2] && h2 in upto + [h2];
    AgesNeverOvercount(s, upto);
    WatchRunRuns(s, upto);
    WatchRunRuns(s, pre);
    WatchLast(s, pre, h1);
    WatchLast(s, upto, h2);
    DepartureIsFresh(WatchRun(s, pre), h1, r.pkg);
    FreshIsRemembered(s, pre + [h1], mid, r.pkg, QuietTime(s, pre + [h1]));
    DecisionWaits(WatchRun(s, upto), h2, r, QuietTime(s, pre + [h1]));
  }
}
