/** The report records against what happened: summaries conserve the counts, game sessions
    are well bracketed and count their own intrusions. */
module ReportLaws {
  import opened Prelude
  import opened Engine
  import opened StepShape

  // --- summaries ------------------------------------------------------------------------------

  // The three figures a summary carries.
  datatype Column = Spawns | Deaths | RssKb

  function Figure(c: Column, st: Stats): nat {
    match c
    case Spawns => st.bgSpawns
    case Deaths => st.bgDeaths
    case RssKb => st.spawnRssKb
  }

  function Counted(c: Column, e: Effect): nat {
    if e.BgSummary? then Figure(c, Stats(e.spawns, e.deaths, e.spawnRssKb)) else 0
  }

  // What all summaries of a log report together.
  function Reported(c: Column, es: seq<Effect>): nat {
    if es == [] then 0 else Reported(c, es[..|es| - 1]) + Counted(c, es[|es| - 1])
  }

  // What one input adds: a start outside the foreground package, or the death of an indexed
  // PID outside it.
  function Observed(c: Column, s: State, i: Input, o: Answers): nat {
    if i.Reload? then 0
    else match i.event
      case ProcStart(_, pkg, _, _, _) => if s.fg == Some(pkg) then 0 else Figure(c, Stats(1, 0, o.startRssKb))
      case ProcDied(pid) =>
        if pid in s.idx.pidToPkg && s.fg != Some(s.idx.pidToPkg[pid]) then Figure(c, Stats(0, 1, 0)) else 0
      case _ => 0
  }

  function ObservedIn(c: Column, s: State, run: seq<Happening>): nat {
    if run == [] then 0
    else
      var n := |run| - 1;
      ObservedIn(c, s, run[..n]) + Observed(c, Run(s, run[..n]), run[n].input, run[n].answers)
  }

  lemma {:induction false} ReportedConcat(c: Column, a: seq<Effect>, b: seq<Effect>)
    ensures Reported(c, a + b) == Reported(c, a) + Reported(c, b)
  {
    if b == [] {
      assert a + b == a;
    } else {
      var n := |b| - 1;
      ReportedConcat(c, a, b[..n]);
      assert (a + b)[..|a + b| - 1] == a + b[..n];
    }
  }

  lemma {:induction false} ReportedNone(c: Column, es: seq<Effect>)
    requires forall e | e in es :: !e.BgSummary?
    ensures Reported(c, es) == 0
  {
    if es != [] {
      ReportedNone(c, es[..|es| - 1]);
      assert es[|es| - 1] in es;
    }
  }

  // RSS is only ever pending together with a spawn.
  ghost predicate RssHasSpawn(s: State) { s.rep.stats.bgSpawns == 0 ==> s.rep.stats.spawnRssKb == 0 }

  // A flush reports the pending counts and clears them.
  lemma SummaryConserves(c: Column, s: State, now: nat, sec: nat)
    requires RssHasSpawn(s)
    ensures Reported(c, SummaryAdds(s, now, sec)) == Figure(c, s.rep.stats)
    ensures Figure(c, Summarise(s, now, sec).rep.stats) == 0
    ensures RssHasSpawn(Summarise(s, now, sec))
  {
    var es := SummaryAdds(s, now, sec);
    assert es != [] ==> es[..0] == [];
  }

  lemma FocusConserves(c: Column, a: State, pkg: Pkg, component: string, now: nat)
    requires RssHasSpawn(a)
    ensures var sec := SatSub(now, a.timers.sessionStart) / 1000;
      Reported(c, SummaryAdds(a, now, sec) + GameAdds(a, pkg, now)
                  + [FgSwitch(now, pkg, component, PrevDurMs(a, pkg, now), pkg in a.policy.games)])
      == Figure(c, a.rep.stats)
    ensures Figure(c, Focus(a, pkg, component, now).rep.stats) == 0 && RssHasSpawn(Focus(a, pkg, component, now))
  {
    var sec := SatSub(now, a.timers.sessionStart) / 1000;
    var x, y := SummaryAdds(a, now, sec), GameAdds(a, pkg, now);
    var z := [FgSwitch(now, pkg, component, PrevDurMs(a, pkg, now), pkg in a.policy.games)];
    SummaryConserves(c, a, now, sec);
    ReportedConcat(c, x, y);
    ReportedConcat(c, x + y, z);
    ReportedNone(c, y);
    ReportedNone(c, z);
    FocusStats(a, pkg, component, now, sec);
  }

  lemma FocusStats(a: State, pkg: Pkg, component: string, now: nat, sec: nat)
    requires sec == SatSub(now, a.timers.sessionStart) / 1000
    ensures Focus(a, pkg, component, now).rep.stats == Summarise(a, now, sec).rep.stats
  {
  }

  lemma AdmitConserves(c: Column, a: State, e: Event, rssKb: nat, now: nat)
    requires e.ProcStart? && RssHasSpawn(a)
    ensures Figure(c, Admit(a, e, rssKb, now).rep.stats)
            == Figure(c, a.rep.stats) + if a.fg == Some(e.pkg) then 0 else Figure(c, Stats(1, 0, rssKb))
    ensures RssHasSpawn(Admit(a, e, rssKb, now))
  {
    hide Admit;
    AdmitStats(a, e, rssKb, now);
  }

  lemma AdmitStats(a: State, e: Event, rssKb: nat, now: nat)
    requires e.ProcStart?
    ensures Admit(a, e, rssKb, now).rep.stats == CountSpawn(a, e.pkg, rssKb).rep.stats
  {
    hide CountSpawn, PidsOf, IsExcluded;
  }

  lemma PrepareConserves(c: Column, s: State, i: Input, o: Answers)
    requires RssHasSpawn(s)
    ensures Reported(c, PrepareAdds(s, i, o)) + Figure(c, Prepare(s, i, o).rep.stats)
            == Figure(c, s.rep.stats) + Observed(c, s, i, o)
    ensures RssHasSpawn(Prepare(s, i, o))
  {
    hide Focus, Admit, Advance;
    match i
    case Reload(_, _, _, _) => ReportedNone(c, PrepareAdds(s, i, o));
    case Line(now, e) =>
      var a := Advance(s, now);
      AdvanceFrame(s, now);
      match e
      case ResumeActivity(pkg, component) => FocusConserves(c, a, pkg, component, now);
      case ProcStart(_, _, _, _, _) =>
        AdmitConserves(c, a, e, o.startRssKb, now);
        ReportedNone(c, PrepareAdds(s, i, o));
      case ScreenToggled(on) =>
        if a.screenOn != on {
          var sec := SecondsSince(if on then a.timers.screenOffStart else a.timers.screenOnStart, now);
          SummaryConserves(c, a, now, sec);
          ReportedNone(c, [ScreenState(now, on, sec)]);
          ReportedConcat(c, [ScreenState(now, on, sec)], SummaryAdds(a, now, sec));
        }
      case ProcDied(pid) => DiedFrame(a, pid, now); DiedConserves(c, a, pid, now);
      case DeviceIdleLightStep =>
  }

  lemma DiedConserves(c: Column, a: State, pid: Pid, now: nat)
    requires RssHasSpawn(a)
    ensures Figure(c, OnDied(a, pid, now).rep.stats) == Figure(c, a.rep.stats) +
            if pid in a.idx.pidToPkg && a.fg != Some(a.idx.pidToPkg[pid]) then Figure(c, Stats(0, 1, 0)) else 0
    ensures RssHasSpawn(OnDied(a, pid, now))
  {
  }

  lemma StepConserves(c: Column, s: State, i: Input, o: Answers)
    requires RssHasSpawn(s)
    ensures var t := Step(s, i, o);
      && Reported(c, t.out) + Figure(c, t.rep.stats)
         == Reported(c, s.out) + Figure(c, s.rep.stats) + Observed(c, s, i, o)
      && RssHasSpawn(t)
  {
    StepAppends(s, i, o);
    ReportedConcat(c, s.out, PrepareAdds(s, i, o));
    ReportedConcat(c, s.out + PrepareAdds(s, i, o), PassAdds(s, i, o));
    PrepareConserves(c, s, i, o);
    PassReportsNothing(c, s, i, o);
    StepKeepsReports(s, i, o);
  }

  lemma PassReportsNothing(c: Column, s: State, i: Input, o: Answers)
    ensures Reported(c, PassAdds(s, i, o)) == 0
    ensures forall t :: Play(t, PassAdds(s, i, o)) == t
  {
    if Reaps(s, i) {
      var p := Prepare(s, i, o);
      PassOnlyKills(p.policy, o, Chosen(p, o, i.now), InfoOf(p, o, i.now));
    }
    ReportedNone(c, PassAdds(s, i, o));
    forall t ensures Play(t, PassAdds(s, i, o)) == t { PlayNone(t, PassAdds(s, i, o)); }
  }

  lemma StepKeepsReports(s: State, i: Input, o: Answers)
    ensures Step(s, i, o).rep == Prepare(s, i, o).rep
  {
    StepIs(s, i, o);
    if Reaps(s, i) { PassIs(Prepare(s, i, o), o, i.now); }
  }

  // The counts over all summaries plus the pending ones are exactly the background starts,
  // the deaths of indexed background PIDs and the memory of those starts.
  lemma {:induction false} ReportsConserve(c: Column, s: State, run: seq<Happening>)
    requires s.out == [] && s.rep.stats == Stats(0, 0, 0)
    ensures var t := Run(s, run);
      Reported(c, t.out) + Figure(c, t.rep.stats) == ObservedIn(c, s, run) && RssHasSpawn(t)
  {
    if run != [] {
      var n := |run| - 1;
      ReportsConserve(c, s, run[..n]);
      StepConserves(c, Run(s, run[..n]), run[n].input, run[n].answers);
    }
  }

  // --- game sessions ------------------------------------------------------------------------------

  datatype Trace = Idle | InGame(intrusions: nat) | Broken

  // A reader of the log that accepts only alternating starts and ends, intrusions inside a
  // session, and ends that state the number of intrusions since their start.
  function PlayOne(t: Trace, e: Effect): Trace {
    match e
    case GameStart(_, _) => if t.Idle? then InGame(0) else Broken
    case GameIntrusion(_, _, _, _, _, _, _, _) => if t.InGame? then InGame(t.intrusions + 1) else Broken
    case GameEnd(_, _, n) => if t.InGame? && t.intrusions == n then Idle else Broken
    case _ => t
  }

  function Play(t: Trace, es: seq<Effect>): Trace {
    if es == [] then t else PlayOne(Play(t, es[..|es| - 1]), es[|es| - 1])
  }

  lemma {:induction false} PlayConcat(t: Trace, a: seq<Effect>, b: seq<Effect>)
    ensures Play(t, a + b) == Play(Play(t, a), b)
  {
    if b == [] {
      assert a + b == a;
    } else {
      var n := |b| - 1;
      PlayConcat(t, a, b[..n]);
      assert (a + b)[..|a + b| - 1] == a + b[..n];
    }
  }

  lemma {:induction false} PlayNone(t: Trace, es: seq<Effect>)
    requires forall e | e in es :: !e.GameStart? && !e.GameIntrusion? && !e.GameEnd?
    ensures Play(t, es) == t
  {
    if es != [] {
      PlayNone(t, es[..|es| - 1]);
      assert es[|es| - 1] in es;
    }
  }

  lemma PlaySingle(t: Trace, e: Effect)
    ensures Play(t, [e]) == PlayOne(t, e)
  {
    assert [e][..0] == [];
  }

  function TraceOf(s: State): Trace { if s.rep.isGaming then InGame(s.rep.intrusions) else Idle }

  lemma GameEdgePlays(a: State, pkg: Pkg, component: string, now: nat)
    ensures Play(TraceOf(a), GameAdds(a, pkg, now)) == TraceOf(Focus(a, pkg, component, now))
  {
    var g := GameAdds(a, pkg, now);
    if g != [] { PlaySingle(TraceOf(a), g[0]); }
  }

  lemma AdmitPlays(a: State, e: Event, rssKb: nat, now: nat)
    requires e.ProcStart?
    ensures Play(TraceOf(a), IntrudeAdds(a, e, rssKb, now)) == TraceOf(Admit(a, e, rssKb, now))
  {
    var g := IntrudeAdds(a, e, rssKb, now);
    if g != [] { PlaySingle(TraceOf(a), g[0]); }
  }

  lemma PreparePlays(s: State, i: Input, o: Answers)
    ensures Play(TraceOf(s), PrepareAdds(s, i, o)) == TraceOf(Prepare(s, i, o))
  {
    hide Focus, Admit, OnScreen;
    match i
    case Reload(_, _, _, _) => PlayNone(TraceOf(s), PrepareAdds(s, i, o));
    case Line(now, e) =>
      var a := Advance(s, now);
      assert TraceOf(a) == TraceOf(s);
      match e
      case ResumeActivity(pkg, component) =>
        var x, y := SummaryAdds(a, now, SatSub(now, a.timers.sessionStart) / 1000), GameAdds(a, pkg, now);
        var z := [FgSwitch(now, pkg, component, PrevDurMs(a, pkg, now), pkg in a.policy.games)];
        PlayNone(TraceOf(a), x);
        PlayConcat(TraceOf(a), x, y);
        PlayConcat(TraceOf(a), x + y, z);
        GameEdgePlays(a, pkg, component, now);
        PlayNone(Play(TraceOf(a), x + y), z);
      case ProcStart(_, _, _, _, _) =>
        var x, y := IntrudeAdds(a, e, o.startRssKb, now), RespawnAdds(a.deaths, e, now);
        AdmitPlays(a, e, o.startRssKb, now);
        PlayConcat(TraceOf(a), x, y);
        PlayNone(Play(TraceOf(a), x), y);
      case ScreenToggled(on) =>
        ScreenKeepsGame(a, on, now);
        PlayNone(TraceOf(a), PrepareAdds(s, i, o));
      case ProcDied(pid) =>
        DiedFrame(a, pid, now);
      case DeviceIdleLightStep =>
  }

  lemma ScreenKeepsGame(a: State, on: bool, now: nat)
    ensures TraceOf(OnScreen(a, on, now)) == TraceOf(a)
  {
  }

  // On every run that starts outside a game, the reader accepts the whole log: starts and
  // ends alternate and each end counts the intrusions since its start.
  lemma {:induction false} GameSessionsBracket(s: State, run: seq<Happening>)
    requires s.out == [] && !s.rep.isGaming
    ensures Play(Idle, Run(s, run).out) == TraceOf(Run(s, run))
  {
    if run != [] {
      var n := |run| - 1;
      var t, h := Run(s, run[..n]), run[n];
      GameSessionsBracket(s, run[..n]);
      StepAppends(t, h.input, h.answers);
      PlayConcat(Idle, t.out, PrepareAdds(t, h.input, h.answers));
      PlayConcat(Idle, t.out + PrepareAdds(t, h.input, h.answers), PassAdds(t, h.input, h.answers));
      PreparePlays(t, h.input, h.answers);
      PassReportsNothing(Spawns, t, h.input, h.answers);
      StepKeepsReports(t, h.input, h.answers);
    }
  }
}
