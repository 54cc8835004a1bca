/** Observe mode predicts act mode: switches, root and logging influence how a decision is
    carried out and written down, never the tables or the decisions. */
module ObserveLaws {
  import opened Prelude
  import opened Engine
  import opened ScanLaws
  import opened StepShape

  // The same tables under other switches, another log setting and another log.
  function Recast(s: State, sw: Switches, logOn: bool, out: seq<Effect>): State {
    s.(policy := s.policy.(switches := sw, config := s.policy.config.(logEnabled := logOn)), out := out)
  }

  // The log as both modes must write it: every record, with the three fields of a decision
  // that say how it was carried out blanked, and without the attempts themselves.
  function Blank(e: Effect): seq<Effect> {
    match e
    case Killed(k) => [Killed(k.(event := SimulatedKill, spawnErrno := None, how := Ams))]
    case Signal(_) => []
    case SpawnKill(_) => []
    case LogSwitch(_) => []
    case ConfigReload(_, _, _) => []
    case _ => [e]
  }

  function Visible(es: seq<Effect>): seq<Effect> {
    if es == [] then [] else Visible(es[..|es| - 1]) + Blank(es[|es| - 1])
  }

  lemma VisibleLast(es: seq<Effect>, e: Effect)
    ensures Visible(es + [e]) == Visible(es) + Blank(e)
  {
    assert (es + [e])[..|es|] == es;
  }

  lemma {:induction false} VisibleConcat(a: seq<Effect>, b: seq<Effect>)
    ensures Visible(a + b) == Visible(a) + Visible(b)
  {
    hide Visible, Blank;
    if b == [] {
      assert a + b == a;
      NothingVisible();
    } else {
      var front, e := b[..|b| - 1], b[|b| - 1];
      VisibleConcat(a, front);
      VisibleLast(front, e);
      VisibleLast(a + front, e);
      assert front + [e] == b && a + front + [e] == a + b;
    }
  }

  lemma NothingVisible()
    ensures Visible([]) == []
  {
  }

  // Two worlds that may differ in the answers only a dispatch asks for.
  ghost predicate SameWorld(o1: Answers, o2: Answers) {
    o1 == o2.(adjAgain := o1.adjAgain, ownerUid := o1.ownerUid, signalled := o1.signalled, spawn := o1.spawn)
  }

  // --- bookkeeping does not look at the switches or the log ------------------------------------

  // What t's log has beyond s's.
  function Added(s: State, t: State): seq<Effect> { if |s.out| <= |t.out| then t.out[|s.out|..] else [] }

  // f commutes with recasting: the same tables and the same new records.
  ghost predicate Blind(s: State, t: State, t': State, sw: Switches, logOn: bool, out: seq<Effect>) {
    s.out <= t.out && t' == Recast(t, sw, logOn, out + Added(s, t))
  }

  lemma BlindThen(s: State, t: State, u: State, t': State, u': State, sw: Switches, logOn: bool, out: seq<Effect>)
    requires Blind(s, t, t', sw, logOn, out) && Blind(t, u, u', sw, logOn, out + Added(s, t))
    ensures Blind(s, u, u', sw, logOn, out)
  {
    assert Added(s, u) == Added(s, t) + Added(t, u);
    assert out + Added(s, t) + Added(t, u) == out + (Added(s, t) + Added(t, u));
  }

  lemma AdvanceIsBlind(s: State, now: u64, sw: Switches, logOn: bool, out: seq<Effect>)
    ensures Blind(s, Advance(s, now), Advance(Recast(s, sw, logOn, out), now), sw, logOn, out)
  {
    assert out + [] == out;
  }

  lemma SummariseIsBlind(s: State, now: nat, sec: nat, sw: Switches, logOn: bool, out: seq<Effect>)
    ensures Blind(s, Summarise(s, now, sec), Summarise(Recast(s, sw, logOn, out), now, sec), sw, logOn, out)
  {
    assert out + [] == out;
  }

  lemma DepartIsBlind(s: State, pkg: Pkg, now: nat, sw: Switches, logOn: bool, out: seq<Effect>)
    ensures Blind(s, Depart(s, pkg, now), Depart(Recast(s, sw, logOn, out), pkg, now), sw, logOn, out)
  {
    assert out + [] == out;
  }

  lemma FocusTablesIsBlind(s: State, pkg: Pkg, now: nat, sw: Switches, logOn: bool, out: seq<Effect>)
    ensures Blind(s, FocusTables(s, pkg, now), FocusTables(Recast(s, sw, logOn, out), pkg, now), sw, logOn, out)
  {
    hide Depart, Summarise, Promote, Trampoline;
    var s' := Recast(s, sw, logOn, out);
    var sec := SatSub(now, s.timers.sessionStart) / 1000;
    var d, d' := Depart(s, pkg, now), Depart(s', pkg, now);
    DepartIsBlind(s, pkg, now, sw, logOn, out);
    SummariseIsBlind(d, now, sec, sw, logOn, out + Added(s, d));
    BlindThen(s, d, Summarise(d, now, sec), d', Summarise(d', now, sec), sw, logOn, out);
  }

  lemma GameEdgeIsBlind(s: State, pkg: Pkg, now: nat, sw: Switches, logOn: bool, out: seq<Effect>)
    ensures Blind(s, GameEdge(s, pkg, now), GameEdge(Recast(s, sw, logOn, out), pkg, now), sw, logOn, out)
  {
    assert out + [] == out;
  }

  lemma FocusIsBlind(s: State, pkg: Pkg, component: string, now: nat, sw: Switches, logOn: bool, out: seq<Effect>)
    ensures Blind(s, Focus(s, pkg, component, now), Focus(Recast(s, sw, logOn, out), pkg, component, now),
                  sw, logOn, out)
  {
    var s' := Recast(s, sw, logOn, out);
    var t, t' := FocusTables(s, pkg, now), FocusTables(s', pkg, now);
    var u, u' := GameEdge(t, pkg, now), GameEdge(t', pkg, now);
    FocusTablesIsBlind(s, pkg, now, sw, logOn, out);
    GameEdgeIsBlind(t, pkg, now, sw, logOn, out + Added(s, t));
    BlindThen(s, t, u, t', u', sw, logOn, out);
    BlindThen(s, u, Focus(s, pkg, component, now), u', Focus(s', pkg, component, now), sw, logOn, out);
  }

  lemma IntrudeIsBlind(s: State, e: Event, rssKb: nat, now: nat, sw: Switches, logOn: bool, out: seq<Effect>)
    requires e.ProcStart?
    ensures Blind(s, Intrude(CountSpawn(s, e.pkg, rssKb), e, rssKb, now),
                  Intrude(CountSpawn(Recast(s, sw, logOn, out), e.pkg, rssKb), e, rssKb, now), sw, logOn, out)
  {
    assert out + [] == out;
  }

  lemma TakeDeathIsBlind(s: State, e: Event, now: nat, sw: Switches, logOn: bool, out: seq<Effect>)
    requires e.ProcStart?
    ensures Blind(s, TakeDeath(IndexStart(s, e.pid, e.pkg, e.uid), e, now),
                  TakeDeath(IndexStart(Recast(s, sw, logOn, out), e.pid, e.pkg, e.uid), e, now), sw, logOn, out)
  {
    assert out + [] == out;
  }

  lemma AdmitIsBlind(s: State, e: Event, rssKb: nat, now: nat, sw: Switches, logOn: bool, out: seq<Effect>)
    requires e.ProcStart?
    ensures Blind(s, Admit(s, e, rssKb, now), Admit(Recast(s, sw, logOn, out), e, rssKb, now), sw, logOn, out)
  {
    var s' := Recast(s, sw, logOn, out);
    var t := Intrude(CountSpawn(s, e.pkg, rssKb), e, rssKb, now);
    var t' := Intrude(CountSpawn(s', e.pkg, rssKb), e, rssKb, now);
    IntrudeIsBlind(s, e, rssKb, now, sw, logOn, out);
    TakeDeathIsBlind(t, e, now, sw, logOn, out + Added(s, t));
    BlindThen(s, t, TakeDeath(IndexStart(t, e.pid, e.pkg, e.uid), e, now),
              t', TakeDeath(IndexStart(t', e.pid, e.pkg, e.uid), e, now), sw, logOn, out);
  }

  lemma DiedIsBlind(s: State, pid: Pid, now: nat, sw: Switches, logOn: bool, out: seq<Effect>)
    ensures Blind(s, OnDied(s, pid, now), OnDied(Recast(s, sw, logOn, out), pid, now), sw, logOn, out)
  {
    hide PruneDeaths;
    assert out + [] == out;
  }

  lemma ScreenIsBlind(s: State, on: bool, now: nat, sw: Switches, logOn: bool, out: seq<Effect>)
    ensures Blind(s, OnScreen(s, on, now), OnScreen(Recast(s, sw, logOn, out), on, now), sw, logOn, out)
  {
    if s.screenOn == on {
      assert out + [] == out;
    } else {
      var sec := SecondsSince(if on then s.timers.screenOffStart else s.timers.screenOnStart, now);
      var t := Emit(s, ScreenState(now, on, sec));
      SummariseIsBlind(t, now, sec, sw, logOn, out + [ScreenState(now, on, sec)]);
      BlindThen(s, t, OnScreen(s, on, now), Emit(Recast(s, sw, logOn, out), ScreenState(now, on, sec)),
                OnScreen(Recast(s, sw, logOn, out), on, now), sw, logOn, out);
    }
  }

  lemma PrepareIsBlind(s: State, i: Input, o1: Answers, o2: Answers, sw: Switches, logOn: bool, out: seq<Effect>)
    requires i.Line? && o1.startRssKb == o2.startRssKb
    ensures Blind(s, Prepare(s, i, o1), Prepare(Recast(s, sw, logOn, out), i, o2), sw, logOn, out)
  {
    hide Focus, Admit, OnDied, OnScreen;
    var s' := Recast(s, sw, logOn, out);
    var a, a' := Advance(s, i.now), Advance(s', i.now);
    AdvanceIsBlind(s, i.now, sw, logOn, out);
    assert a' == Recast(a, sw, logOn, out) && a.out == s.out;
    match i.event
    case ResumeActivity(pkg, component) => FocusIsBlind(a, pkg, component, i.now, sw, logOn, out);
    case ProcStart(_, _, _, _, _) => AdmitIsBlind(a, i.event, o1.startRssKb, i.now, sw, logOn, out);
    case ProcDied(pid) => DiedIsBlind(a, pid, i.now, sw, logOn, out);
    case ScreenToggled(on) => ScreenIsBlind(a, on, i.now, sw, logOn, out);
    case DeviceIdleLightStep => assert out + [] == out;
  }

  // --- the pass ------------------------------------------------------------------------------------

  lemma {:induction false} LiveAgrees(o1: Answers, o2: Answers, q: seq<Pid>)
    requires SameWorld(o1, o2)
    ensures Live(o1, q) == Live(o2, q) && RssSum(o1, q) == RssSum(o2, q) && MinAdj(o1, q) == MinAdj(o2, q)
  {
    if q != [] { LiveAgrees(o1, o2, q[..|q| - 1]); }
  }

  lemma PkgAgrees(s: State, o1: Answers, o2: Answers, g: Gate, k: Pkg, sw: Switches, logOn: bool, out: seq<Effect>)
    requires SameWorld(o1, o2)
    ensures var s' := Recast(s, sw, logOn, out);
      && PassesGates(s, g, k) == PassesGates(s', g, k)
      && LivePids(s, o1, k) == LivePids(s', o2, k)
      && (k in s.alive ==> CandidateOf(s, o1, g, k) == CandidateOf(s', o2, g, k))
  {
    LiveAgrees(o1, o2, o1.pidOrder(PidsOf(s, k)));
    LiveAgrees(o1, o2, LivePids(s, o1, k));
  }

  lemma {:induction false} CollectAgrees(s: State, o1: Answers, o2: Answers, g: Gate, q: seq<Pkg>,
                                         sw: Switches, logOn: bool, out: seq<Effect>)
    requires SameWorld(o1, o2)
    ensures Collect(s, o1, g, q) == Collect(Recast(s, sw, logOn, out), o2, g, q)
  {
    if q != [] {
      CollectAgrees(s, o1, o2, g, q[..|q| - 1], sw, logOn, out);
      PkgAgrees(s, o1, o2, g, q[|q| - 1], sw, logOn, out);
    }
  }

  lemma ReconcileAgrees(s: State, o1: Answers, o2: Answers, g: Gate, sw: Switches, logOn: bool, out: seq<Effect>)
    requires SameWorld(o1, o2)
    ensures var s' := Recast(s, sw, logOn, out);
      Reconcile(s', o2, g).alive == Reconcile(s, o1, g).alive && Reconcile(s', o2, g).idx == Reconcile(s, o1, g).idx
  {
    var s' := Recast(s, sw, logOn, out);
    forall k
      ensures PassesGates(s, g, k) == PassesGates(s', g, k)
      ensures DeadPkg(s, o1, g, k) == DeadPkg(s', o2, g, k)
      ensures Evictable(s, o1, g, k) == Evictable(s', o2, g, k)
    {
      PkgAgrees(s, o1, o2, g, k, sw, logOn, out);
    }
    forall p ensures Purged(s, o1, g, p) == Purged(s', o2, g, p) {
      assert forall k :: PidsOf(s, k) == PidsOf(s', k);
    }
  }

  // Policies equal but for the switches and the log setting.
  ghost predicate SamePolicy(a: Policy, b: Policy) {
    a == b.(switches := a.switches, config := b.config.(logEnabled := a.config.logEnabled))
  }

  lemma {:induction false} SettleAgrees(alive: map<Pkg, nat>, a: Policy, b: Policy, o1: Answers, o2: Answers,
                                        cs: seq<Candidate>, now: nat)
    requires SameWorld(o1, o2) && SamePolicy(a, b)
    ensures SettleAll(alive, a, o1, cs, now) == SettleAll(alive, b, o2, cs, now)
  {
    if cs != [] {
      SettleAgrees(alive, a, b, o1, o2, cs[..|cs| - 1], now);
      LiveAgrees(o1, o2, cs[|cs| - 1].livePids);
    }
  }

  lemma {:induction false} AttemptsAreInvisible(o: Answers, pids: seq<Pid>)
    ensures Visible(SignalRun(o, pids)) == []
  {
    if pids != [] {
      var front := pids[..|pids| - 1];
      AttemptsAreInvisible(o, front);
      var last := if AllSignalled(o, front) then [Signal(pids[|pids| - 1])] else [];
      VisibleConcat(SignalRun(o, front), last);
      assert last == [] || last[..0] == [];
    }
  }

  lemma VisibleOne(e: Effect)
    ensures Visible([e]) == Blank(e)
  {
    assert [e][..0] == [];
  }

  // A dispatched candidate leaves one visible effect.
  lemma DispatchShows(pol: Policy, o: Answers, c: Candidate, i: PassInfo)
    ensures Visible(EffectsOf(pol, o, c, i)) == Blank(Killed(RecordOf(pol, o, c, i)))
  {
    AttemptsAreInvisible(o, c.livePids);
    VisibleOne(SpawnKill(c.pkg));
    VisibleConcat(SignalRun(o, c.livePids), [SpawnKill(c.pkg)]);
    VisibleConcat([], [SpawnKill(c.pkg)]);
    assert [] + [SpawnKill(c.pkg)] == [SpawnKill(c.pkg)];
    assert Visible(CarriedOut(pol, o, c).attempts) == [];
    VisibleOne(Killed(RecordOf(pol, o, c, i)));
    VisibleConcat(CarriedOut(pol, o, c).attempts, [Killed(RecordOf(pol, o, c, i))]);
  }

  lemma {:induction false} PassShowsTheSame(a: Policy, b: Policy, o1: Answers, o2: Answers, cs: seq<Candidate>,
                                            i: PassInfo)
    requires SameWorld(o1, o2) && SamePolicy(a, b)
    ensures Visible(PassEffects(a, o1, cs, i)) == Visible(PassEffects(b, o2, cs, i))
  {
    if cs != [] {
      var n := |cs| - 1;
      PassShowsTheSame(a, b, o1, o2, cs[..n], i);
      LiveAgrees(o1, o2, cs[n].livePids);
      DispatchShows(a, o1, cs[n], i);
      DispatchShows(b, o2, cs[n], i);
      VisibleConcat(PassEffects(a, o1, cs[..n], i), EffectsOf(a, o1, cs[n], i));
      VisibleConcat(PassEffects(b, o2, cs[..n], i), EffectsOf(b, o2, cs[n], i));
    }
  }

  // --- two runs ------------------------------------------------------------------------------------------

  // Same tables, same decisions, same records; switches, log setting and attempts are free.
  ghost predicate Twins(s: State, t: State) {
    t == Recast(s, t.policy.switches, t.policy.config.logEnabled, t.out) && Visible(s.out) == Visible(t.out)
  }

  ghost predicate SameInput(i: Input, j: Input) {
    match i
    case Line(_, _) => i == j
    case Reload(ts, config, excl, games) =>
      j.Reload? && j == Reload(j.ts, config.(logEnabled := j.config.logEnabled), excl, games)
  }

  lemma PassKeepsTwins(s: State, t: State, o1: Answers, o2: Answers, now: nat)
    requires Twins(s, t) && SameWorld(o1, o2)
    ensures Twins(Pass(s, o1, now), Pass(t, o2, now))
  {
    var sw, logOn := t.policy.switches, t.policy.config.logEnabled;
    var g, i := PassGate(s, o1, now), InfoOf(s, o1, now);
    assert g == PassGate(t, o2, now) && i == InfoOf(t, o2, now);
    PassIs(s, o1, now);
    PassIs(t, o2, now);
    CollectAgrees(s, o1, o2, g, o1.pkgOrder(s.alive.Keys), sw, logOn, t.out);
    assert Chosen(s, o1, now) == Chosen(t, o2, now);
    ReconcileAgrees(s, o1, o2, g, sw, logOn, t.out);
    var cs := Chosen(s, o1, now);
    SettleAgrees(Reconcile(s, o1, g).alive, s.policy, t.policy, o1, o2, cs, now);
    PassShowsTheSame(s.policy, t.policy, o1, o2, cs, i);
    VisibleConcat(s.out, PassEffects(s.policy, o1, cs, i));
    VisibleConcat(t.out, PassEffects(t.policy, o2, cs, i));
  }

  lemma PairShowsNothing(out: seq<Effect>, a: Effect, b: Effect)
    requires Blank(a) == [] && Blank(b) == []
    ensures Visible(out + [a, b]) == Visible(out)
  {
    hide Blank, Visible;
    VisibleConcat(out, [a, b]);
    VisibleConcat([a], [b]);
    VisibleOne(a);
    VisibleOne(b);
    assert [a] + [b] == [a, b];
  }

  lemma ReloadShowsNothing(s: State, i: Input)
    requires i.Reload?
    ensures Visible(OnReload(s, i.ts, i.config, i.userExclusions, i.games).out) == Visible(s.out)
  {
    hide Visible;
    var wantLog := i.config.logEnabled && !s.policy.switches.noLogCli;
    var record, e := ConfigReload(i.ts, i.config, wantLog), LogSwitch(wantLog);
    PairShowsNothing(s.out, e, record);
    PairShowsNothing(s.out, record, e);
    assert s.out + [] == s.out;
  }

  lemma LineKeepsTwins(s: State, t: State, i: Input, o1: Answers, o2: Answers)
    requires Twins(s, t) && i.Line? && SameWorld(o1, o2)
    ensures Twins(Step(s, i, o1), Step(t, i, o2))
  {
    hide Prepare, Pass, Step;
    var sw, logOn := t.policy.switches, t.policy.config.logEnabled;
    var p, p' := Prepare(s, i, o1), Prepare(t, i, o2);
    StepIs(s, i, o1);
    StepIs(t, i, o2);
    PrepareIsBlind(s, i, o1, o2, sw, logOn, t.out);
    assert p.out == s.out + Added(s, p);
    VisibleConcat(s.out, Added(s, p));
    VisibleConcat(t.out, Added(s, p));
    assert Twins(p, p');
    if Reaps(s, i) { PassKeepsTwins(p, p', o1, o2, i.now); }
  }

  lemma StepKeepsTwins(s: State, t: State, i: Input, j: Input, o1: Answers, o2: Answers)
    requires Twins(s, t) && SameInput(i, j) && SameWorld(o1, o2)
    ensures Twins(Step(s, i, o1), Step(t, j, o2))
  {
    if i.Reload? {
      ReloadShowsNothing(s, i);
      ReloadShowsNothing(t, j);
    } else {
      LineKeepsTwins(s, t, i, o1, o2);
    }
  }

  ghost predicate SameRun(a: seq<Happening>, b: seq<Happening>) {
    && |a| == |b|
    && forall n | 0 <= n < |a| :: SameInput(a[n].input, b[n].input) && SameWorld(a[n].answers, b[n].answers)
  }

  // Two runs on the same lines and readings that differ in act/observe, root, the log
  // switch or the outcome of dispatches keep the same tables and write the same decisions.
  lemma {:induction false} ObservePredictsAct(s: State, t: State, a: seq<Happening>, b: seq<Happening>)
    requires Twins(s, t) && SameRun(a, b)
    ensures Twins(Run(s, a), Run(t, b))
  {
    if a != [] {
      var n := |a| - 1;
      ObservePredictsAct(s, t, a[..n], b[..n]);
      StepKeepsTwins(Run(s, a[..n]), Run(t, b[..n]), a[n].input, b[n].input, a[n].answers, b[n].answers);
    }
  }
}
