/** Every step is some bookkeeping followed by at most one reaping pass; what the pass may
    touch; and runs. */
module StepShape {
  import opened Prelude
  import opened Engine
  import opened ScanLaws

  // The state a step reaches before its reaping pass, and whether it makes one.
  function Prepare(s: State, i: Input, o: Answers): State {
    match i
    case Reload(ts, config, excl, games) => OnReload(s, ts, config, excl, games)
    case Line(now, e) =>
      var a := Advance(s, now);
      match e
      case ResumeActivity(pkg, component) => Focus(a, pkg, component, now)
      case ProcStart(_, _, _, _, _) => Admit(a, e, o.startRssKb, now)
      case ProcDied(pid) => OnDied(a, pid, now)
      case ScreenToggled(on) => OnScreen(a, on, now)
      case DeviceIdleLightStep => a
  }

  predicate Reaps(s: State, i: Input) {
    i.Line? &&
    match i.event
    case ResumeActivity(pkg, _) => s.fg != Some(pkg)
    case ProcStart(_, pkg, spawnType, _, uid) => uid >= 10_000 && s.fg != Some(pkg) && !ForegroundSpawn(spawnType)
    case DeviceIdleLightStep => !s.screenOn && s.policy.config.screenOffHarvest
    case _ => false
  }

  lemma StepIs(s: State, i: Input, o: Answers)
    ensures Step(s, i, o) == if Reaps(s, i) then Pass(Prepare(s, i, o), o, i.now) else Prepare(s, i, o)
  {
  }

  // --- what each handler's bookkeeping touches --------------------------------------------------

  // A marker that is kept, cleared or set to the current time.
  ghost predicate Marked(before: Option<nat>, after: Option<nat>, now: nat) {
    after == before || after == None || after == Some(now)
  }

  ghost predicate TimersMarked(a: Timers, t: Timers, now: nat) {
    && Marked(a.screenOnStart, t.screenOnStart, now) && Marked(a.screenOffStart, t.screenOffStart, now)
    && Marked(a.gameStart, t.gameStart, now) && (t.sessionStart == a.sessionStart || t.sessionStart == now)
  }

  // Compensating a clock step moves anchors and nothing else.
  lemma AdvanceFrame(s: State, now: u64)
    ensures var a := Advance(s, now);
      a == s.(alive := a.alive, deaths := a.deaths, timers := a.timers, last := now)
    ensures Advance(s, now).alive.Keys == s.alive.Keys
  {
  }

  lemma SummariseFrame(s: State, now: nat, sec: nat)
    ensures var t := Summarise(s, now, sec);
      t == s.(timers := t.timers, rep := t.rep, out := t.out) && TimersMarked(s.timers, t.timers, now)
  {
  }

  lemma GameEdgeFrame(s: State, pkg: Pkg, now: nat)
    ensures var t := GameEdge(s, pkg, now);
      t == s.(timers := t.timers, rep := t.rep, out := t.out) && TimersMarked(s.timers, t.timers, now)
  {
  }

  lemma FocusFrame(a: State, pkg: Pkg, component: string, now: nat)
    ensures var t := Focus(a, pkg, component, now);
      && t == a.(alive := Depart(a, pkg, now).alive, fg := Some(pkg), timers := t.timers, rep := t.rep, out := t.out,
                 lru := Promote(Trampoline(a.lru, a.fg, PrevDurMs(a, pkg, now)), pkg, a.policy.config.fgLruMaxDepth))
      && TimersMarked(a.timers, t.timers, now)
  {
    SummariseFrame(Depart(a, pkg, now), now, SatSub(now, a.timers.sessionStart) / 1000);
    GameEdgeFrame(FocusTables(a, pkg, now), pkg, now);
  }

  lemma IntrudeFrame(a: State, e: Event, rssKb: nat, now: nat)
    requires e.ProcStart?
    ensures var t := Intrude(CountSpawn(a, e.pkg, rssKb), e, rssKb, now);
      t == a.(rep := t.rep, out := t.out)
  {
  }

  lemma TakeDeathFrame(a: State, e: Event, now: nat)
    requires e.ProcStart?
    ensures var t := TakeDeath(a, e, now);
      t == a.(deaths := a.deaths - {e.pkg}, out := t.out)
  {
    if e.pkg !in a.deaths { assert a.deaths - {e.pkg} == a.deaths; }
  }

  lemma AdmitFrame(a: State, e: Event, rssKb: nat, now: nat)
    requires e.ProcStart?
    ensures var t := Admit(a, e, rssKb, now);
      t == a.(alive := if e.uid >= APP_UID_MIN && e.pkg !in a.alive then a.alive[e.pkg := now] else a.alive,
              idx := IndexStart(a, e.pid, e.pkg, e.uid).idx, deaths := a.deaths - {e.pkg}, rep := t.rep, out := t.out)
  {
    var s1 := Intrude(CountSpawn(a, e.pkg, rssKb), e, rssKb, now);
    IntrudeFrame(a, e, rssKb, now);
    TakeDeathFrame(IndexStart(s1, e.pid, e.pkg, e.uid), e, now);
  }

  lemma DiedFrame(a: State, pid: Pid, now: nat)
    ensures var t := OnDied(a, pid, now);
      if pid in a.idx.pidToPkg then
        t == Unindex(a, pid).(deaths := PruneDeaths(a.deaths[a.idx.pidToPkg[pid] := now], now), rep := t.rep)
      else t == a
  {
  }

  lemma ScreenFrame(a: State, on: bool, now: nat)
    ensures var t := OnScreen(a, on, now);
      t == a.(screenOn := on, timers := t.timers, rep := t.rep, out := t.out) && TimersMarked(a.timers, t.timers, now)
  {
    if a.screenOn != on {
      var sec := SecondsSince(if on then a.timers.screenOffStart else a.timers.screenOnStart, now);
      SummariseFrame(Emit(a, ScreenState(now, on, sec)), now, sec);
    }
  }

  // Only a reload changes the policy, and never what the start-up detected.
  lemma PreparePolicy(s: State, i: Input, o: Answers)
    ensures Prepare(s, i, o).policy ==
            if i.Reload? then s.policy.(config := i.config, userExclusions := i.userExclusions, games := i.games)
            else s.policy
  {
    hide Focus, Admit, OnDied, OnScreen, Advance, Depart, Promote, Trampoline, IndexStart, Unindex, PruneDeaths;
    if i.Line? {
      var a := Advance(s, i.now);
      AdvanceFrame(s, i.now);
      match i.event
      case ResumeActivity(pkg, component) => FocusFrame(a, pkg, component, i.now);
      case ProcStart(_, _, _, _, _) => AdmitFrame(a, i.event, o.startRssKb, i.now);
      case ProcDied(pid) => DiedPolicy(a, pid, i.now);
      case ScreenToggled(on) => ScreenFrame(a, on, i.now);
      case _ =>
    }
  }

  lemma DiedPolicy(a: State, pid: Pid, now: nat)
    ensures OnDied(a, pid, now).policy == a.policy
  {
    hide PruneDeaths;
  }

  // --- the pass -------------------------------------------------------------------------------

  function PassEffects(pol: Policy, o: Answers, cs: seq<Candidate>, i: PassInfo): seq<Effect> {
    if cs == [] then []
    else PassEffects(pol, o, cs[..|cs| - 1], i) + EffectsOf(pol, o, cs[|cs| - 1], i)
  }

  function SettleAll(alive: map<Pkg, nat>, pol: Policy, o: Answers, cs: seq<Candidate>, now: nat): map<Pkg, nat> {
    if cs == [] then alive
    else
      var c := cs[|cs| - 1];
      Settle(SettleAll(alive, pol, o, cs[..|cs| - 1], now), c.pkg, Protected(pol, o, c), now)
  }

  lemma {:induction false} DispatchAllIs(s: State, o: Answers, cs: seq<Candidate>, i: PassInfo)
    ensures DispatchAll(s, o, cs, i) ==
            s.(alive := SettleAll(s.alive, s.policy, o, cs, i.now), out := s.out + PassEffects(s.policy, o, cs, i))
  {
    if cs == [] {
      assert s.out + [] == s.out;
    } else {
      var front, c := cs[..|cs| - 1], cs[|cs| - 1];
      DispatchAllIs(s, o, front, i);
      var e := PassEffects(s.policy, o, front, i);
      assert s.out + (e + EffectsOf(s.policy, o, c, i)) == s.out + e + EffectsOf(s.policy, o, c, i);
    }
  }

  // A pass changes nothing but the process tables, the activity table and the effect log.
  lemma PassIs(s: State, o: Answers, now: nat)
    ensures Pass(s, o, now) ==
            var r := Reconcile(s, o, PassGate(s, o, now)); var cs := Chosen(s, o, now);
            s.(idx := r.idx, alive := SettleAll(r.alive, s.policy, o, cs, now),
               out := s.out + PassEffects(s.policy, o, cs, InfoOf(s, o, now)))
  {
    DispatchAllIs(Reconcile(s, o, PassGate(s, o, now)), o, Chosen(s, o, now), InfoOf(s, o, now));
  }

  lemma ListsLast(cs: seq<Candidate>, k: Pkg)
    requires cs != []
    ensures Lists(cs, k) <==> Lists(cs[..|cs| - 1], k) || cs[|cs| - 1].pkg == k
  {
    var front := cs[..|cs| - 1];
    if Lists(front, k) {
      var j :| 0 <= j < |front| && front[j].pkg == k;
      assert cs[j].pkg == k;
    }
  }

  // What dispatching leaves of one entry of the activity table.
  lemma {:induction false} SettleOne(alive: map<Pkg, nat>, pol: Policy, o: Answers, cs: seq<Candidate>, now: nat,
                                     k: Pkg)
    requires OncePerPkg(cs)
    ensures var t := SettleAll(alive, pol, o, cs, now);
      && (k in t ==> k in alive && t[k] == if Lists(cs, k) then now else alive[k])
      && (k in alive && !Lists(cs, k) ==> k in t)
      && (forall c | c in cs && c.pkg == k && k in alive :: k in t <==> Protected(pol, o, c))
  {
    if cs != [] {
      var n := |cs| - 1;
      SettleOne(alive, pol, o, cs[..n], now, k);
      ListsLast(cs, k);
      assert cs == cs[..n] + [cs[n]];
      assert cs[n].pkg == k ==> !Lists(cs[..n], k);
      assert cs[n].pkg == k ==> forall c | c in cs[..n] :: c.pkg != k;
    }
  }

  lemma StepPolicy(s: State, i: Input, o: Answers)
    ensures Step(s, i, o).policy == Prepare(s, i, o).policy
    ensures Step(s, i, o).policy ==
            if i.Reload? then s.policy.(config := i.config, userExclusions := i.userExclusions, games := i.games)
            else s.policy
  {
    hide Step, Prepare, Pass;
    PreparePolicy(s, i, o);
    StepIs(s, i, o);
    if Reaps(s, i) { PassIs(Prepare(s, i, o), o, i.now); }
  }

  // --- a pass seen from one package --------------------------------------------------------------

  ghost function NameSet(cs: seq<Candidate>): set<Pkg> { set c | c in cs :: c.pkg }

  ghost function ChosenSet(s: State, o: Answers, now: nat): set<Pkg> { NameSet(Chosen(s, o, now)) }

  // The chosen packages that stop being candidates: a protected one is only re-anchored, and
  // that disqualifies it unless the idle threshold is zero.
  ghost function SpentSet(s: State, o: Answers, now: nat): set<Pkg> {
    set c | c in Chosen(s, o, now) && (PassGate(s, o, now).idleSec >= 1 || !Protected(s.policy, o, c)) :: c.pkg
  }

  lemma NamesAreListed(cs: seq<Candidate>, k: Pkg)
    ensures k in NameSet(cs) <==> Lists(cs, k)
  {
    if Lists(cs, k) {
      var n :| 0 <= n < |cs| && cs[n].pkg == k;
      assert cs[n] in cs;
    }
  }

  lemma PassLeaves(s: State, o: Answers, now: nat, k: Pkg)
    requires Sound(o)
    ensures var g := PassGate(s, o, now); var t := Pass(s, o, now); var chosen := k in ChosenSet(s, o, now);
      && (k in t.alive ==> k in s.alive && t.alive[k] == if chosen then now else s.alive[k])
      && (k in s.alive && !PassesGates(s, g, k) ==> k in t.alive)
      && (chosen ==> Eligible(s, o, g, k))
      && (k in SpentSet(s, o, now) ==> k in t.alive ==> g.idleSec >= 1)
      && (Eligible(s, o, g, k) && k !in SpentSet(s, o, now) ==> k in t.alive && (chosen ==> g.idleSec == 0))
      && (Eligible(s, o, g, k) ==> PidsOf(t, k) == set p | p in PidsOf(s, k) && o.rssKb(p) > 0)
      && PidsOf(t, k) <= PidsOf(s, k)
  {
    var g, cs := PassGate(s, o, now), Chosen(s, o, now);
    PassIs(s, o, now);
    GreedyChoice(s, o, now);
    CandidatesAre(s, o, g);
    EvictableIsEligible(s, o, g, k);
    SettleOne(Reconcile(s, o, g).alive, s.policy, o, cs, now, k);
    NamesAreListed(cs, k);
  }

  // --- what a step appends ------------------------------------------------------------------------

  // The effects of one kind, in order.
  function Only(es: seq<Effect>, kind: Effect -> bool): seq<Effect> {
    if es == [] then []
    else Only(es[..|es| - 1], kind) + (if kind(es[|es| - 1]) then [es[|es| - 1]] else [])
  }

  lemma {:induction false} OnlyConcat(a: seq<Effect>, b: seq<Effect>, kind: Effect -> bool)
    ensures Only(a + b, kind) == Only(a, kind) + Only(b, kind)
  {
    if b == [] {
      assert a + b == a;
    } else {
      var n := |b| - 1;
      OnlyConcat(a, b[..n], kind);
      assert (a + b)[..|a + b| - 1] == a + b[..n];
    }
  }

  lemma OnlyOne(e: Effect, kind: Effect -> bool)
    ensures Only([e], kind) == if kind(e) then [e] else []
  {
    assert [e][..0] == [];
  }

  lemma {:induction false} OnlyNone(es: seq<Effect>, kind: Effect -> bool)
    requires forall e | e in es :: !kind(e)
    ensures Only(es, kind) == []
  {
    if es != [] {
      OnlyNone(es[..|es| - 1], kind);
      assert es[|es| - 1] in es;
    }
  }

  predicate IsKill(e: Effect) { e.Killed? }

  function KillEffects(rs: seq<KillRecord>): seq<Effect> {
    seq(|rs|, n requires 0 <= n < |rs| => Killed(rs[n]))
  }

  function Records(pol: Policy, o: Answers, cs: seq<Candidate>, i: PassInfo): seq<KillRecord> {
    seq(|cs|, n requires 0 <= n < |cs| => RecordOf(pol, o, cs[n], i))
  }

  lemma {:induction false} SignalRunIsSignals(o: Answers, pids: seq<Pid>)
    ensures forall e | e in SignalRun(o, pids) :: e.Signal? && e.pid in pids
  {
    if pids != [] { SignalRunIsSignals(o, pids[..|pids| - 1]); }
  }

  lemma OneRecordEach(pol: Policy, o: Answers, c: Candidate, i: PassInfo)
    ensures Only(EffectsOf(pol, o, c, i), IsKill) == [Killed(RecordOf(pol, o, c, i))]
  {
    var a := CarriedOut(pol, o, c).attempts;
    SignalRunIsSignals(o, c.livePids);
    OnlyNone(a, IsKill);
    OnlyOne(Killed(RecordOf(pol, o, c, i)), IsKill);
    OnlyConcat(a, [Killed(RecordOf(pol, o, c, i))], IsKill);
  }

  lemma {:induction false} PassKills(pol: Policy, o: Answers, cs: seq<Candidate>, i: PassInfo)
    ensures Only(PassEffects(pol, o, cs, i), IsKill) == KillEffects(Records(pol, o, cs, i))
  {
    if cs != [] {
      var n := |cs| - 1;
      PassKills(pol, o, cs[..n], i);
      OneRecordEach(pol, o, cs[n], i);
      OnlyConcat(PassEffects(pol, o, cs[..n], i), EffectsOf(pol, o, cs[n], i), IsKill);
      RecordsAppend(pol, o, cs, i);
    }
  }

  lemma RecordsAppend(pol: Policy, o: Answers, cs: seq<Candidate>, i: PassInfo)
    requires cs != []
    ensures var n := |cs| - 1;
      KillEffects(Records(pol, o, cs, i))
      == KillEffects(Records(pol, o, cs[..n], i)) + [Killed(RecordOf(pol, o, cs[n], i))]
  {
  }

  // A pass kills, signals and records, and does nothing else.
  lemma {:induction false} PassOnlyKills(pol: Policy, o: Answers, cs: seq<Candidate>, i: PassInfo)
    ensures forall e | e in PassEffects(pol, o, cs, i) :: e.Killed? || e.Signal? || e.SpawnKill?
  {
    if cs != [] {
      PassOnlyKills(pol, o, cs[..|cs| - 1], i);
      SignalRunIsSignals(o, cs[|cs| - 1].livePids);
    }
  }

  function SummaryAdds(s: State, now: nat, sec: nat): seq<Effect> {
    if s.rep.stats.bgSpawns == 0 && s.rep.stats.bgDeaths == 0 then []
    else [BgSummary(now, sec, s.rep.stats.bgSpawns, s.rep.stats.bgDeaths, s.rep.stats.spawnRssKb)]
  }

  function GameAdds(s: State, pkg: Pkg, now: nat): seq<Effect> {
    if pkg in s.policy.games && !s.rep.isGaming then [GameStart(now, pkg)]
    else if pkg !in s.policy.games && s.rep.isGaming then
      [GameEnd(now, SecondsSince(s.timers.gameStart, now), s.rep.intrusions)]
    else []
  }

  function IntrudeAdds(s: State, e: Event, rssKb: nat, now: nat): seq<Effect>
    requires e.ProcStart?
  {
    if s.rep.isGaming && !ForegroundSpawn(e.spawnType)
    then [GameIntrusion(now, e.pid, e.uid, e.pkg, e.procName, e.spawnType, rssKb, IsExcluded(s, e.pkg))]
    else []
  }

  function RespawnAdds(deaths: map<Pkg, nat>, e: Event, now: nat): seq<Effect>
    requires e.ProcStart?
  {
    if e.pkg in deaths && SatSub(now, deaths[e.pkg]) <= 120_000
    then [Respawn(now, e.pkg, SatSub(now, deaths[e.pkg]), e.pid, e.uid, e.spawnType)]
    else []
  }

  // The records a step writes before its pass.
  function PrepareAdds(s: State, i: Input, o: Answers): seq<Effect> {
    match i
    case Reload(ts, config, _, _) =>
      var wantLog := config.logEnabled && !s.policy.switches.noLogCli;
      if config == s.policy.config then []
      else if wantLog then [LogSwitch(true), ConfigReload(ts, config, wantLog)]
      else [ConfigReload(ts, config, wantLog), LogSwitch(false)]
    case Line(now, e) =>
      var a := Advance(s, now);
      match e
      case ResumeActivity(pkg, component) =>
        SummaryAdds(a, now, SatSub(now, a.timers.sessionStart) / 1000) + GameAdds(a, pkg, now)
        + [FgSwitch(now, pkg, component, PrevDurMs(a, pkg, now), pkg in a.policy.games)]
      case ProcStart(_, _, _, _, _) => IntrudeAdds(a, e, o.startRssKb, now) + RespawnAdds(a.deaths, e, now)
      case ScreenToggled(on) =>
        if a.screenOn == on then []
        else
          var sec := SecondsSince(if on then a.timers.screenOffStart else a.timers.screenOnStart, now);
          [ScreenState(now, on, sec)] + SummaryAdds(a, now, sec)
      case _ => []
  }

  lemma GameAddsSurviveSummary(a: State, pkg: Pkg, now: nat)
    ensures GameAdds(FocusTables(a, pkg, now), pkg, now) == GameAdds(a, pkg, now)
  {
  }

  lemma TablesAppend(a: State, pkg: Pkg, now: nat)
    ensures FocusTables(a, pkg, now).out == a.out + SummaryAdds(a, now, SatSub(now, a.timers.sessionStart) / 1000)
  {
    hide PrevDurMs, Promote, Trampoline, Departs;
  }

  lemma EdgeAppends(t: State, pkg: Pkg, now: nat)
    ensures GameEdge(t, pkg, now).out == t.out + GameAdds(t, pkg, now)
  {
  }

  lemma FocusAppends(a: State, pkg: Pkg, component: string, now: nat)
    ensures Focus(a, pkg, component, now).out ==
            a.out + (SummaryAdds(a, now, SatSub(now, a.timers.sessionStart) / 1000) + GameAdds(a, pkg, now)
                     + [FgSwitch(now, pkg, component, PrevDurMs(a, pkg, now), pkg in a.policy.games)])
  {
    hide PrevDurMs, Promote, Trampoline, GameEdge, GameAdds, SummaryAdds;
    TablesAppend(a, pkg, now);
    EdgeAppends(FocusTables(a, pkg, now), pkg, now);
    GameAddsSurviveSummary(a, pkg, now);
  }

  lemma AdmitAppends(a: State, e: Event, rssKb: nat, now: nat)
    requires e.ProcStart?
    ensures Admit(a, e, rssKb, now).out == a.out + (IntrudeAdds(a, e, rssKb, now) + RespawnAdds(a.deaths, e, now))
  {
    var s1 := Intrude(CountSpawn(a, e.pkg, rssKb), e, rssKb, now);
    IntrudeFrame(a, e, rssKb, now);
    assert s1.out == a.out + IntrudeAdds(a, e, rssKb, now);
    var s2 := IndexStart(s1, e.pid, e.pkg, e.uid);
    assert TakeDeath(s2, e, now).out == s2.out + RespawnAdds(s2.deaths, e, now);
  }

  lemma ScreenAppends(a: State, on: bool, now: nat)
    requires a.screenOn != on
    ensures var sec := SecondsSince(if on then a.timers.screenOffStart else a.timers.screenOnStart, now);
      OnScreen(a, on, now).out == a.out + ([ScreenState(now, on, sec)] + SummaryAdds(a, now, sec))
  {
  }

  lemma PrepareAppends(s: State, i: Input, o: Answers)
    ensures Prepare(s, i, o).out == s.out + PrepareAdds(s, i, o)
  {
    assert s.out + [] == s.out;
    if i.Line? {
      var a := Advance(s, i.now);
      match i.event
      case ResumeActivity(pkg, component) => FocusAppends(a, pkg, component, i.now);
      case ProcStart(_, _, _, _, _) => AdmitAppends(a, i.event, o.startRssKb, i.now);
      case ProcDied(pid) => DiedFrame(a, pid, i.now);
      case ScreenToggled(on) => if a.screenOn != on { ScreenAppends(a, on, i.now); }
      case _ =>
    }
  }

  function PassAdds(s: State, i: Input, o: Answers): seq<Effect> {
    if Reaps(s, i) then
      var p := Prepare(s, i, o);
      PassEffects(p.policy, o, Chosen(p, o, i.now), InfoOf(p, o, i.now))
    else []
  }

  // Everything one step does to the outside world.
  lemma StepAppends(s: State, i: Input, o: Answers)
    ensures Step(s, i, o).out == s.out + PrepareAdds(s, i, o) + PassAdds(s, i, o)
  {
    hide Prepare, PrepareAdds, PassEffects, Step, Pass;
    StepIs(s, i, o);
    PrepareAppends(s, i, o);
    if Reaps(s, i) { PassIs(Prepare(s, i, o), o, i.now); }
  }

  // The decisions of one step, in order.
  ghost function Decisions(s: State, i: Input, o: Answers): seq<KillRecord> {
    if Reaps(s, i) then
      var p := Prepare(s, i, o);
      Records(p.policy, o, Chosen(p, o, i.now), InfoOf(p, o, i.now))
    else []
  }

  lemma PrepareAddsNoKill(s: State, i: Input, o: Answers)
    ensures Only(PrepareAdds(s, i, o), IsKill) == []
  {
    OnlyNone(PrepareAdds(s, i, o), IsKill);
  }

  // They are exactly the decision records the step appends to the log.
  lemma DecisionsAreLogged(s: State, i: Input, o: Answers)
    ensures Step(s, i, o).out == s.out + PrepareAdds(s, i, o) + PassAdds(s, i, o)
    ensures Only(PrepareAdds(s, i, o) + PassAdds(s, i, o), IsKill) == KillEffects(Decisions(s, i, o))
  {
    hide Prepare, PrepareAdds, PassEffects, Step, Records;
    StepAppends(s, i, o);
    PrepareAddsNoKill(s, i, o);
    OnlyConcat(PrepareAdds(s, i, o), PassAdds(s, i, o), IsKill);
    if Reaps(s, i) {
      var p := Prepare(s, i, o);
      PassKills(p.policy, o, Chosen(p, o, i.now), InfoOf(p, o, i.now));
    }
  }

  // Everything a decision record says, in terms of the state the pass looked at.
  lemma DecisionFacts(s: State, i: Input, o: Answers, r: KillRecord)
    requires i.Line? && Sound(o) && r in Decisions(s, i, o)
    ensures var p := Prepare(s, i, o); var g := PassGate(p, o, i.now);
      && PassesGates(p, g, r.pkg) && r.idleSec == IdleSec(p, g, r.pkg) && r.lruPos == LruPos(p.lru, r.pkg)
      && r.pids == LivePids(p, o, r.pkg) != []
      && Lists(Chosen(p, o, i.now), r.pkg) && r.ts == i.now
  {
    var p := Prepare(s, i, o);
    var cs := Chosen(p, o, i.now);
    CandidatesAre(p, o, PassGate(p, o, i.now));
    GreedyChoice(p, o, i.now);
    var n :| 0 <= n < |cs| && r == RecordOf(p.policy, o, cs[n], InfoOf(p, o, i.now));
    assert cs[n] in cs;
  }

  // --- runs ------------------------------------------------------------------------------------------

  datatype Happening = Happening(input: Input, answers: Answers)

  ghost predicate AllSound(run: seq<Happening>) { forall h | h in run :: Sound(h.answers) }

  function Run(s: State, run: seq<Happening>): State {
    if run == [] then s
    else Step(Run(s, run[..|run| - 1]), run[|run| - 1].input, run[|run| - 1].answers)
  }

  lemma RunLast(s: State, run: seq<Happening>, h: Happening)
    ensures Run(s, run + [h]) == Step(Run(s, run), h.input, h.answers)
  {
    hide Step;
    assert (run + [h])[..|run|] == run;
  }
}
