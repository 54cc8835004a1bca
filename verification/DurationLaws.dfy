/** The durations the log records, screen sessions, game sessions, respawn gaps and summary
    intervals, against accumulated quiet time. */
module DurationLaws {
  import opened Prelude
  import opened Engine
  import opened StepShape
  import opened AgeLaws
  import opened SpacingLaws

  // --- what is timed ---------------------------------------------------------------------------

  datatype Marker = ScreenSession | GameSession | SummaryInterval | DeathOf(pkg: Pkg)

  function AnchorOf(s: State, m: Marker): Option<nat> {
    match m
    case ScreenSession => if s.screenOn then s.timers.screenOnStart else s.timers.screenOffStart
    case GameSession => s.timers.gameStart
    case SummaryInterval => Some(s.timers.sessionStart)
    case DeathOf(k) => if k in s.deaths then Some(s.deaths[k]) else None
  }

  function AgeAt(anchor: Option<nat>, now: nat): nat { Age(anchor.GetOr(now), now) }

  // One clock sample adds at most the quiet gap to the age of a marker, exactly that if the
  // clock does not step back and the marker is not in the future.
  lemma SampleAgesMarker(s: State, now: u64, m: Marker)
    requires ForwardFits(s.last, now) && AnchorOf(s, m).Some?
    ensures var v, b := AnchorOf(s, m).value, AnchorOf(Advance(s, now), m);
      && b.Some? && Age(b.value, now) <= Age(v, s.last) + QuietGap(s.last, now)
      && (v <= s.last <= now ==> b.value <= now && Age(b.value, now) == Age(v, s.last) + QuietGap(s.last, now))
  {
    var v := AnchorOf(s, m).value;
    AgeNeverOvercounts(s.last, now, v);
    if v <= s.last <= now { AgeAfterSample(s.last, now, v); }
    assert ClockJump(s.last, now) != 0 ==> AnchorOf(Advance(s, now), m) == Some(Shift(v, ClockJump(s.last, now)));
  }

  // A step clears a marker, sets it to its own time, or leaves it as the sample put it.
  lemma StepMarks(s: State, i: Input, o: Answers, m: Marker)
    requires i.Line?
    ensures var t := AnchorOf(Step(s, i, o), m);
      t == None || t == Some(i.now) || t == AnchorOf(Advance(s, i.now), m)
  {
    hide Focus, Admit, OnDied, Pass, PruneDeaths, Advance;
    var a := Advance(s, i.now);
    StepIs(s, i, o);
    if Reaps(s, i) { PassIs(Prepare(s, i, o), o, i.now); }
    match i.event
    case ResumeActivity(pkg, component) => FocusFrame(a, pkg, component, i.now);
    case ProcStart(_, _, _, _, _) => AdmitFrame(a, i.event, o.startRssKb, i.now);
    case ProcDied(pid) =>
      DiedFrame(a, pid, i.now);
      if pid in a.idx.pidToPkg { PrunedIsKept(a.deaths[a.idx.pidToPkg[pid] := i.now], i.now, m); }
    case ScreenToggled(on) =>
    case _ =>
  }

  lemma PrunedIsKept(deaths: map<Pkg, nat>, now: nat, m: Marker)
    ensures var p := PruneDeaths(deaths, now);
      m.DeathOf? && m.pkg in p ==> m.pkg in deaths && p[m.pkg] == deaths[m.pkg]
  {
  }

  // --- quiet-time readings -------------------------------------------------------------------------

  // Quiet time so far, and its reading when each marker was last set.
  datatype Gauge = Gauge(s: State, quiet: nat, setAt: Marker -> nat)

  function Read(g: Gauge, h: Happening): Gauge {
    var t := Step(g.s, h.input, h.answers);
    if h.input.Reload? then g.(s := t)
    else
      var q := g.quiet + QuietGap(g.s.last, h.input.now);
      Gauge(t, q, (m: Marker) => if AnchorOf(t, m) == Some(h.input.now) then q else g.setAt(m))
  }

  function ReadRun(s: State, run: seq<Happening>): Gauge {
    if run == [] then Gauge(s, 0, (m: Marker) => 0) else Read(ReadRun(s, run[..|run| - 1]), run[|run| - 1])
  }

  lemma {:induction false} ReadRunRuns(s: State, run: seq<Happening>)
    ensures ReadRun(s, run).s == Run(s, run)
  {
    if run != [] { ReadRunRuns(s, run[..|run| - 1]); }
  }

  // The age of a marker is at most the quiet time since it was set, or exactly that.
  ghost predicate Timed(g: Gauge, m: Marker, exact: bool) {
    var v := AnchorOf(g.s, m);
    && g.setAt(m) <= g.quiet
    && (v.Some? ==> Age(v.value, g.s.last) <= g.quiet - g.setAt(m))
    && (v.Some? && exact ==> v.value <= g.s.last && Age(v.value, g.s.last) == g.quiet - g.setAt(m))
  }

  lemma ReadKeepsTimed(g: Gauge, h: Happening, m: Marker, exact: bool)
    requires Timed(g, m, exact) && (h.input.Line? ==> ForwardFits(g.s.last, h.input.now))
    requires exact && h.input.Line? ==> g.s.last <= h.input.now
    ensures Timed(Read(g, h), m, exact)
  {
    hide Step, Advance, ClockJump;
    if h.input.Reload? {
      ReloadKeepsTables(g.s, h.input, h.answers);
    } else {
      StepMarks(g.s, h.input, h.answers, m);
      StepClock(g.s, h.input, h.answers);
      MarkerComesFromBefore(g.s, h.input.now, m);
      if AnchorOf(g.s, m).Some? { SampleAgesMarker(g.s, h.input.now, m); }
    }
  }

  lemma StepClock(s: State, i: Input, o: Answers)
    requires i.Line?
    ensures Step(s, i, o).last == i.now
  {
    hide Prepare, Pass;
    StepIs(s, i, o);
    PrepareKeepsClock(s, i, o);
    if Reaps(s, i) { PassIs(Prepare(s, i, o), o, i.now); }
  }

  lemma MarkerComesFromBefore(s: State, now: u64, m: Marker)
    ensures AnchorOf(Advance(s, now), m).Some? ==> AnchorOf(s, m).Some?
  {
  }

  ghost predicate NeverBack(s: State, run: seq<Happening>) {
    run != [] ==>
      var h := run[|run| - 1];
      && NeverBack(s, run[..|run| - 1])
      && (h.input.Line? ==> Run(s, run[..|run| - 1]).last <= h.input.now)
  }

  // Every marker was set at the clock's current reading, as at boot.
  ghost predicate JustSet(s: State) { forall m :: AnchorOf(s, m) == None || AnchorOf(s, m) == Some(s.last) }

  // A marker is set exactly while what it times goes on.
  predicate MarkersMatch(s: State) {
    && (s.timers.screenOnStart.Some? <==> s.screenOn) && (s.timers.screenOffStart.Some? <==> !s.screenOn)
    && (s.timers.gameStart.Some? <==> s.rep.isGaming)
  }

  lemma SummariseMatches(s: State, now: nat, sec: nat)
    ensures var t := Summarise(s, now, sec);
      t.screenOn == s.screenOn && t.rep.isGaming == s.rep.isGaming
      && t.timers == s.timers.(sessionStart := t.timers.sessionStart)
  {
  }

  lemma FocusMatches(a: State, pkg: Pkg, component: string, now: nat)
    requires MarkersMatch(a)
    ensures MarkersMatch(Focus(a, pkg, component, now))
  {
    hide Summarise, Depart, Promote, Trampoline, PrevDurMs;
    SummariseMatches(Depart(a, pkg, now), now, SatSub(now, a.timers.sessionStart) / 1000);
    FocusFrame(a, pkg, component, now);
    DepartMatches(a, pkg, now);
  }

  lemma DepartMatches(a: State, pkg: Pkg, now: nat)
    ensures var t := Depart(a, pkg, now); t == a.(alive := t.alive)
  {
  }

  lemma StepKeepsMarkers(s: State, i: Input, o: Answers)
    requires MarkersMatch(s)
    ensures MarkersMatch(Step(s, i, o))
  {
    hide Focus, Admit, OnDied, Pass, PruneDeaths, Summarise, Intrude, CountSpawn;
    StepIs(s, i, o);
    if Reaps(s, i) { PassIs(Prepare(s, i, o), o, i.now); }
    if i.Line? {
      var a := Advance(s, i.now);
      assert MarkersMatch(a);
      match i.event
      case ResumeActivity(pkg, component) => FocusMatches(a, pkg, component, i.now);
      case ProcStart(_, _, _, _, _) =>
        AdmitFrame(a, i.event, o.startRssKb, i.now);
        AdmitGames(a, i.event, o.startRssKb, i.now);
      case ProcDied(pid) => DiedGames(a, pid, i.now);
      case ScreenToggled(on) =>
        var sec := SecondsSince(if on then a.timers.screenOffStart else a.timers.screenOnStart, i.now);
        SummariseMatches(Emit(a, ScreenState(i.now, on, sec)), i.now, sec);
      case _ =>
    }
  }

  lemma AdmitGames(a: State, e: Event, rssKb: nat, now: nat)
    requires e.ProcStart?
    ensures Admit(a, e, rssKb, now).rep.isGaming == a.rep.isGaming
  {
    hide IndexStart;
    TakeDeathFrame(IndexStart(Intrude(CountSpawn(a, e.pkg, rssKb), e, rssKb, now), e.pid, e.pkg, e.uid), e, now);
    IndexGames(Intrude(CountSpawn(a, e.pkg, rssKb), e, rssKb, now), e.pid, e.pkg, e.uid);
  }

  lemma IndexGames(a: State, pid: Pid, pkg: Pkg, uid: nat)
    ensures IndexStart(a, pid, pkg, uid).rep == a.rep
  {
  }

  lemma DiedGames(a: State, pid: Pid, now: nat)
    ensures var t := OnDied(a, pid, now);
      t.rep.isGaming == a.rep.isGaming && t.screenOn == a.screenOn && t.timers == a.timers
  {
    hide PruneDeaths;
  }

  // So it is on every run from boot.
  lemma {:induction false} RunKeepsMarkers(s: State, run: seq<Happening>)
    requires MarkersMatch(s)
    ensures MarkersMatch(Run(s, run))
  {
    hide MarkersMatch, Step;
    if run != [] {
      var n := |run| - 1;
      RunKeepsMarkers(s, run[..n]);
      StepKeepsMarkers(Run(s, run[..n]), run[n].input, run[n].answers);
    }
  }

  // The daemon boots with every marker just set and nothing aged.
  lemma BootIsFresh(sw: Switches, config: Config, screenOn: bool, now: u64)
    ensures var s := Boot(sw, config, screenOn, now);
      JustSet(s) && AnchorsBehind(s) && MarkersMatch(s) && s.alive == map[] && s.lru == []
  {
    var s := Boot(sw, config, screenOn, now);
    forall m ensures AnchorOf(s, m) == None || AnchorOf(s, m) == Some(s.last) {}
  }

  // On every run each marker's age is at most the quiet time since it was set, and exactly
  // that as long as the clock never steps back.
  lemma {:induction false} MarkersAreTimed(s: State, run: seq<Happening>, m: Marker, exact: bool)
    requires JustSet(s) && ForwardFaithful(s, run) && (exact ==> NeverBack(s, run))
    ensures Timed(ReadRun(s, run), m, exact)
  {
    hide AnchorOf;
    if run == [] {
      assert AnchorOf(s, m) == None || AnchorOf(s, m) == Some(s.last);
    } else {
      var n := |run| - 1;
      MarkersAreTimed(s, run[..n], m, exact);
      ReadRunRuns(s, run[..n]);
      ReadKeepsTimed(ReadRun(s, run[..n]), run[n], m, exact);
    }
  }

  // --- what the records say --------------------------------------------------------------------------

  // The marker whose age a record states, in milliseconds or whole seconds.
  function MarkerOf(e: Effect, i: Input): Option<Marker> {
    match e
    case ScreenState(_, _, _) => Some(ScreenSession)
    case GameEnd(_, _, _) => Some(GameSession)
    case Respawn(_, pkg, _, _, _, _) => Some(DeathOf(pkg))
    case BgSummary(_, _, _, _, _) =>
      if i.Line? && i.event.ScreenToggled? then Some(ScreenSession) else Some(SummaryInterval)
    case _ => None
  }

  predicate States(e: Effect, ageMs: nat) {
    match e
    case ScreenState(_, _, sec) => sec == ageMs / 1000
    case GameEnd(_, sec, _) => sec == ageMs / 1000
    case Respawn(_, _, gapMs, _, _, _) => gapMs == ageMs
    case BgSummary(_, sec, _, _, _) => sec == ageMs / 1000
    case _ => true
  }

  lemma RecordStatesAge(s: State, i: Input, o: Answers, e: Effect)
    requires i.Line? && e in PrepareAdds(s, i, o) && MarkerOf(e, i).Some?
    ensures States(e, AgeAt(AnchorOf(Advance(s, i.now), MarkerOf(e, i).value), i.now))
  {
    hide Advance;
    AdvanceFrame(s, i.now);
  }

  // A duration in a record is at most the quiet time since its marker was set, and exactly
  // that, to the unit it is written in, on runs whose clock never steps back.
  lemma RecordedDurations(s: State, run: seq<Happening>, h: Happening, e: Effect)
    requires JustSet(s) && ForwardFaithful(s, run) && h.input.Line? && ForwardFits(Run(s, run).last, h.input.now)
    requires e in PrepareAdds(Run(s, run), h.input, h.answers) && MarkerOf(e, h.input).Some?
    ensures var m := MarkerOf(e, h.input).value;
      var g, quiet := ReadRun(s, run), ReadRun(s, run).quiet + QuietGap(Run(s, run).last, h.input.now);
      AnchorOf(Run(s, run), m).Some? ==>
      && (exists age: nat :: age <= quiet - g.setAt(m) && States(e, age))
      && (NeverBack(s, run) && Run(s, run).last <= h.input.now ==> States(e, quiet - g.setAt(m)))
  {
    hide PrepareAdds, Advance, ClockJump, AnchorOf, States, MarkerOf;
    var t, m := Run(s, run), MarkerOf(e, h.input).value;
    ReadRunRuns(s, run);
    MarkersAreTimed(s, run, m, false);
    RecordStatesAge(t, h.input, h.answers, e);
    if AnchorOf(t, m).Some? {
      SampleAgesMarker(t, h.input.now, m);
      assert States(e, Age(AnchorOf(Advance(t, h.input.now), m).value, h.input.now));
      if NeverBack(s, run) { MarkersAreTimed(s, run, m, true); }
    }
  }

  // A marker the step finds unset is stated as zero.
  lemma UnsetIsZero(s: State, i: Input, o: Answers, e: Effect)
    requires i.Line? && e in PrepareAdds(s, i, o) && MarkerOf(e, i).Some?
    requires AnchorOf(s, MarkerOf(e, i).value).None?
    ensures States(e, 0) && !e.Respawn?
  {
    hide PrepareAdds, Advance;
    RecordStatesAge(s, i, o, e);
    MarkerComesFromBefore(s, i.now, MarkerOf(e, i).value);
    if e.Respawn? { RespawnNeedsDeath(s, i, o, e); }
  }

  lemma RespawnNeedsDeath(s: State, i: Input, o: Answers, e: Effect)
    requires i.Line? && e in PrepareAdds(s, i, o) && e.Respawn?
    ensures e.pkg in Advance(s, i.now).deaths
  {
    hide Advance;
  }
}
