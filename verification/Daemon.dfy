/** The daemon's state as the object it is: handlers, scan, dispatch and reload update its
    fields in place, and each is proved to compute the Engine function of the same name. */
module Daemon {
  import opened Prelude
  import opened Engine
  import opened ScanLaws
  import opened Parser
  import opened Discovery

  lemma RetainedIsReconciled(s: State, o: Answers, g: Gate, cands: seq<Candidate>, kept: map<Pkg, set<Pid>>)
    requires Sound(o) && cands == Collect(s, o, g, o.pkgOrder(s.alive.Keys))
    requires kept.Keys == set k | k in s.idx.pkgToPids && !DeadPkg(s, o, g, k)
    requires forall k | k in kept ::
      kept[k] == set p | p in s.idx.pkgToPids[k] && forall c | c in cands && c.pkg == k :: p in c.livePids
    ensures kept == ReconcileIndex(s, o, g).pkgToPids
  {
    CollectFacts(s, o, g, o.pkgOrder(s.alive.Keys));
    forall k | k in kept ensures kept[k] == ReconcileIndex(s, o, g).pkgToPids[k] {
      LivePidsFacts(s, o, k);
      if Evictable(s, o, g, k) { assert CandidateOf(s, o, g, k) in cands; }
    }
  }

  lemma {:induction false} RefusalEndsRun(o: Answers, pids: seq<Pid>, i: nat)
    requires i <= |pids| && (i == |pids| || !AllSignalled(o, pids[..i]))
    ensures SignalRun(o, pids) == SignalRun(o, pids[..i])
    ensures AllSignalled(o, pids) == AllSignalled(o, pids[..i])
  {
    if i == |pids| {
      assert pids[..i] == pids;
    } else {
      var front := pids[..|pids| - 1];
      assert front[..i] == pids[..i];
      RefusalEndsRun(o, front, i);
      var p :| p in pids[..i] && !o.signalled(p);
      assert p in pids && p in front;
    }
  }

  // A PID the scan probes for this package and finds without memory.
  predicate ProbedDead(s: State, o: Answers, g: Gate, k: Pkg, p: Pid) {
    PassesGates(s, g, k) && p in PidsOf(s, k) && o.rssKb(p) == 0
  }

  lemma WalkIsComplete(s: State, o: Answers, g: Gate, order: seq<Pkg>)
    requires Enumerates(order, s.alive.Keys)
    ensures forall p :: Purged(s, o, g, p) <==> exists k :: k in order && ProbedDead(s, o, g, k, p)
    ensures forall k :: DeadPkg(s, o, g, k) ==> k in order
  {
    hide LivePids, IsExcluded, LruPos;
    forall p ensures Purged(s, o, g, p) <==> exists k :: k in order && ProbedDead(s, o, g, k, p) {
      if Purged(s, o, g, p) {
        var k :| k in s.alive && PassesGates(s, g, k) && p in PidsOf(s, k);
        assert k in order && ProbedDead(s, o, g, k, p);
      }
    }
  }

  class DaemonState {
    var switches: Switches
    var config: Config
    var userExclusions: set<Pkg>
    var dynamicExclusions: set<Pkg>
    var games: set<Pkg>
    var aliveApps: map<Pkg, nat>
    var pidToPkg: map<Pid, Pkg>
    var pkgToPids: map<Pkg, set<Pid>>
    var pkgToUid: map<Pkg, nat>
    var recentDeaths: map<Pkg, nat>
    var fgLru: seq<Pkg>
    var currentFg: Option<Pkg>
    var screenOn: bool
    var screenOnStart: Option<nat>
    var screenOffStart: Option<nat>
    var gameSessionStart: Option<nat>
    var sessionStart: nat
    var lastEventEpoch: u64
    var sessionStats: Stats
    var gameIntrusionCount: nat
    var isGaming: bool
    // Calls made on the telemetry sink, the spawner and kill(2), in order.
    var effects: seq<Effect>

    ghost function PolicyView(): Policy
      reads this`switches, this`config, this`userExclusions, this`dynamicExclusions, this`games
    {
      Policy(switches, config, userExclusions, dynamicExclusions, games)
    }

    ghost function IndexView(): Index
      reads this`pidToPkg, this`pkgToPids, this`pkgToUid
    {
      Index(pidToPkg, pkgToPids, pkgToUid)
    }

    ghost function TimersView(): Timers
      reads this`screenOnStart, this`screenOffStart, this`gameSessionStart, this`sessionStart
    {
      Timers(screenOnStart, screenOffStart, gameSessionStart, sessionStart)
    }

    ghost function ReportsView(): Reports
      reads this`sessionStats, this`gameIntrusionCount, this`isGaming
    {
      Reports(sessionStats, gameIntrusionCount, isGaming)
    }

    ghost function View(): State
      reads this
    {
      State(PolicyView(), aliveApps, IndexView(), recentDeaths, fgLru, currentFg, screenOn, TimersView(),
            lastEventEpoch, ReportsView(), effects)
    }

    constructor (switches: Switches, config: Config, screenOn: bool, now: u64)
      ensures View() == Boot(switches, config, screenOn, now)
    {
      this.switches, this.config, this.screenOn := switches, config, screenOn;
      userExclusions, dynamicExclusions, games := {}, {}, {};
      aliveApps, pidToPkg, pkgToPids, pkgToUid, recentDeaths := map[], map[], map[], map[], map[];
      fgLru, currentFg := [], None;
      screenOnStart := if screenOn then Some(now) else None;
      screenOffStart := if screenOn then None else Some(now);
      gameSessionStart, sessionStart, lastEventEpoch := None, now, now;
      sessionStats, gameIntrusionCount, isGaming, effects := Stats(0, 0, 0), 0, false, [];
    }

    // Cold-start discovery indexes processes and deliberately ages none of them.
    method SeedInitialState(entries: seq<ProcEntry>)
      modifies this`pidToPkg, this`pkgToPids, this`pkgToUid
      ensures IndexView() == Seed(old(IndexView()), AllDiscovered(entries))
    {
      hide Discovered;
      for i := 0 to |entries|
        invariant IndexView() == Seed(old(IndexView()), AllDiscovered(entries[..i]))
      {
        assert entries[..i + 1][..i] == entries[..i];
        assert AllDiscovered(entries[..i]) + [] == AllDiscovered(entries[..i]);
        var d := Discovered(entries[i]);
        if d.Some? {
          var e := d.value;
          SeedLast(old(IndexView()), AllDiscovered(entries[..i]), e);
          pidToPkg := pidToPkg[e.pid := e.pkg];
          pkgToPids := pkgToPids[e.pkg := (if e.pkg in pkgToPids then pkgToPids[e.pkg] else {}) + {e.pid}];
          pkgToUid := pkgToUid[e.pkg := e.uid];
        }
      }
      assert entries[..|entries|] == entries;
    }

    method ShiftEach(m: map<Pkg, nat>, jump: int) returns (r: map<Pkg, nat>)
      ensures r == ShiftAll(m, jump)
    {
      r := m;
      var keys := m.Keys;
      while keys != {}
        invariant r.Keys == m.Keys && keys <= m.Keys
        invariant forall k | k in m :: r[k] == if k in keys then m[k] else Shift(m[k], jump)
      {
        var k :| k in keys;
        r := r[k := Shift(r[k], jump)];
        keys := keys - {k};
      }
    }

    method ShiftAnchors(jump: int)
      modifies this`aliveApps, this`recentDeaths, this`screenOnStart, this`screenOffStart
      modifies this`gameSessionStart, this`sessionStart
      ensures aliveApps == ShiftAll(old(aliveApps), jump) && recentDeaths == ShiftAll(old(recentDeaths), jump)
      ensures TimersView() == Timers(ShiftOption(old(screenOnStart), jump), ShiftOption(old(screenOffStart), jump),
                                     ShiftOption(old(gameSessionStart), jump), Shift(old(sessionStart), jump))
    {
      hide ShiftAll, ShiftOption, Shift;
      aliveApps := ShiftEach(aliveApps, jump);
      recentDeaths := ShiftEach(recentDeaths, jump);
      screenOnStart := ShiftOption(screenOnStart, jump);
      screenOffStart := ShiftOption(screenOffStart, jump);
      gameSessionStart := ShiftOption(gameSessionStart, jump);
      sessionStart := Shift(sessionStart, jump);
    }

    // Shifts every stored anchor by a detected clock step.
    method ApplyClockJump(jump: int)
      modifies this`aliveApps, this`recentDeaths, this`screenOnStart, this`screenOffStart
      modifies this`gameSessionStart, this`sessionStart
      ensures View() == Rebase(old(View()), jump)
    {
      hide ShiftAll, ShiftOption, Shift;
      if jump != 0 { ShiftAnchors(jump); }
    }

    method EmitBgSummary(now: nat, intervalSec: nat)
      modifies this`effects, this`sessionStats, this`sessionStart
      ensures View() == Summarise(old(View()), now, intervalSec)
    {
      if sessionStats.bgSpawns != 0 || sessionStats.bgDeaths != 0 {
        effects := effects + [BgSummary(now, intervalSec, sessionStats.bgSpawns, sessionStats.bgDeaths,
                                        sessionStats.spawnRssKb)];
        sessionStats := Stats(0, 0, 0);
        sessionStart := now;
      }
    }

    method StampDeparture(pkg: Pkg, now: nat) returns (prevDurMs: nat)
      modifies this`aliveApps
      ensures prevDurMs == PrevDurMs(old(View()), pkg, now)
      ensures View() == Depart(old(View()), pkg, now)
    {
      prevDurMs := 0;
      if currentFg.Some? && currentFg.value != pkg {
        var prev := currentFg.value;
        if prev in pkgToUid && pkgToUid[prev] >= APP_UID_MIN {
          if prev in aliveApps { prevDurMs := SatSub(now, aliveApps[prev]); }
          aliveApps := aliveApps[prev := now];
        }
      }
    }

    method TouchLru(pkg: Pkg, prevDurMs: nat)
      requires prevDurMs > 0 ==> currentFg.Some?
      modifies this`fgLru
      ensures fgLru == Promote(Trampoline(old(fgLru), currentFg, prevDurMs), pkg, config.fgLruMaxDepth)
    {
      hide Without;
      if prevDurMs > 0 && prevDurMs < 500 { fgLru := Without(fgLru, currentFg.value); }
      MoveToFront(pkg);
    }

    method MoveToFront(pkg: Pkg)
      modifies this`fgLru
      ensures fgLru == Promote(old(fgLru), pkg, config.fgLruMaxDepth)
    {
      var q := fgLru;
      var pos := Position(q, pkg);
      if pos.Some? {
        if pos.value > 0 {
          q := [pkg] + (q[..pos.value] + q[pos.value + 1..]);
        }
      } else {
        q := [pkg] + q;
        if |q| > config.fgLruMaxDepth { q := q[..|q| - 1]; }
      }
      fgLru := q;
    }

    method TrackGame(pkg: Pkg, now: nat)
      modifies this`gameSessionStart, this`gameIntrusionCount, this`effects, this`isGaming
      ensures View() == GameEdge(old(View()), pkg, now)
    {
      hide SecondsSince;
      var isGame := pkg in games;
      if isGame && !isGaming {
        BeginGame(pkg, now);
      } else if !isGame && isGaming {
        EndGame(now);
      }
    }

    method BeginGame(pkg: Pkg, now: nat)
      modifies this`gameSessionStart, this`gameIntrusionCount, this`effects, this`isGaming
      ensures gameSessionStart == Some(now) && gameIntrusionCount == 0 && isGaming
      ensures effects == old(effects) + [GameStart(now, pkg)]
    {
      gameSessionStart, gameIntrusionCount, isGaming := Some(now), 0, true;
      effects := effects + [GameStart(now, pkg)];
    }

    method EndGame(now: nat)
      modifies this`gameSessionStart, this`effects, this`isGaming
      ensures gameSessionStart == None && !isGaming
      ensures effects == old(effects) + [GameEnd(now, SecondsSince(old(gameSessionStart), now), gameIntrusionCount)]
    {
      effects := effects + [GameEnd(now, SecondsSince(gameSessionStart, now), gameIntrusionCount)];
      gameSessionStart, isGaming := None, false;
    }

    method UpdateFocusTables(pkg: Pkg, now: nat) returns (prevDurMs: nat)
      modifies this`aliveApps, this`effects, this`sessionStats, this`sessionStart, this`fgLru
      ensures prevDurMs == PrevDurMs(old(View()), pkg, now)
      ensures View() == FocusTables(old(View()), pkg, now)
    {
      hide Summarise, Depart, Promote, Trampoline;
      prevDurMs := StampDeparture(pkg, now);
      EmitBgSummary(now, SatSub(now, sessionStart) / 1000);
      TouchLru(pkg, prevDurMs);
    }

    // Everything a resume does before the reaping pass.
    method SwitchForeground(pkg: Pkg, component: string, now: nat)
      modifies this
      ensures View() == Focus(old(View()), pkg, component, now)
    {
      hide FocusTables, GameEdge, PrevDurMs;
      var prevDurMs := UpdateFocusTables(pkg, now);
      TrackGame(pkg, now);
      currentFg := Some(pkg);
      effects := effects + [FgSwitch(now, pkg, component, prevDurMs, pkg in games)];
    }

    method OnResumeActivity(pkg: Pkg, component: string, now: nat, o: Answers)
      requires Sound(o)
      modifies this
      ensures View() == OnResume(old(View()), pkg, component, now, o)
    {
      hide Pass, Focus;
      var prev := currentFg;
      SwitchForeground(pkg, component, now);
      if prev != Some(pkg) { EvaluateReapingPipeline(now, o); }
    }

    method CountStart(pkg: Pkg, rssKb: nat)
      modifies this`sessionStats
      ensures View() == CountSpawn(old(View()), pkg, rssKb)
    {
      if currentFg != Some(pkg) {
        sessionStats := sessionStats.(bgSpawns := sessionStats.bgSpawns + 1,
                                      spawnRssKb := sessionStats.spawnRssKb + rssKb);
      }
    }

    method NoteIntrusion(e: Event, rssKb: nat, now: nat)
      requires e.ProcStart?
      modifies this`gameIntrusionCount, this`effects
      ensures View() == Intrude(old(View()), e, rssKb, now)
    {
      if isGaming && e.spawnType != "top-activity" && e.spawnType != "next-top-activity" {
        gameIntrusionCount := gameIntrusionCount + 1;
        var excluded := e.pkg in userExclusions || e.pkg in dynamicExclusions || currentFg == Some(e.pkg);
        effects := effects + [GameIntrusion(now, e.pid, e.uid, e.pkg, e.procName, e.spawnType, rssKb, excluded)];
      }
    }

    method CountAndIntrude(e: Event, rssKb: nat, now: nat)
      requires e.ProcStart?
      modifies this`sessionStats, this`gameIntrusionCount, this`effects
      ensures View() == Intrude(CountSpawn(old(View()), e.pkg, rssKb), e, rssKb, now)
    {
      hide CountSpawn, Intrude;
      CountStart(e.pkg, rssKb);
      NoteIntrusion(e, rssKb, now);
    }

    method IndexProcess(pid: Pid, pkg: Pkg, uid: nat)
      modifies this`pidToPkg, this`pkgToPids, this`pkgToUid
      ensures View() == IndexStart(old(View()), pid, pkg, uid)
    {
      pidToPkg := pidToPkg[pid := pkg];
      pkgToPids := pkgToPids[pkg := (if pkg in pkgToPids then pkgToPids[pkg] else {}) + {pid}];
      if pkg !in pkgToUid { pkgToUid := pkgToUid[pkg := uid]; }
    }

    method TrackRespawn(e: Event, now: nat)
      requires e.ProcStart?
      modifies this`recentDeaths, this`effects
      ensures View() == TakeDeath(old(View()), e, now)
    {
      if e.pkg in recentDeaths {
        var gap := SatSub(now, recentDeaths[e.pkg]);
        recentDeaths := recentDeaths - {e.pkg};
        if gap <= DEATH_TTL_MS {
          effects := effects + [Respawn(now, e.pkg, gap, e.pid, e.uid, e.spawnType)];
        }
      }
    }

    method OnProcStart(e: Event, now: nat, o: Answers)
      requires e.ProcStart? && Sound(o)
      modifies this
      ensures View() == OnStart(old(View()), e, now, o)
    {
      hide Pass, Intrude, CountSpawn, IndexStart, TakeDeath;
      var isFg := currentFg == Some(e.pkg);
      CountAndIntrude(e, o.startRssKb, now);
      IndexProcess(e.pid, e.pkg, e.uid);
      TrackRespawn(e, now);
      if e.uid >= APP_UID_MIN {
        if e.pkg !in aliveApps { aliveApps := aliveApps[e.pkg := now]; }
        if !(isFg || ForegroundSpawn(e.spawnType)) { EvaluateReapingPipeline(now, o); }
      }
    }

    method OnProcDied(pid: Pid, now: nat)
      modifies this`pidToPkg, this`pkgToPids, this`aliveApps, this`sessionStats, this`recentDeaths
      ensures View() == OnDied(old(View()), pid, now)
    {
      hide Unindex, PruneDeaths;
      if pid in pidToPkg {
        var pkg := pidToPkg[pid];
        ForgetPid(pid);
        NoteDeath(pkg, now);
      }
    }

    method NoteDeath(pkg: Pkg, now: nat)
      modifies this`sessionStats, this`recentDeaths
      ensures sessionStats == if currentFg == Some(pkg) then old(sessionStats)
                              else old(sessionStats).(bgDeaths := old(sessionStats).bgDeaths + 1)
      ensures recentDeaths == PruneDeaths(old(recentDeaths)[pkg := now], now)
    {
      hide PruneDeaths;
      if currentFg != Some(pkg) { sessionStats := sessionStats.(bgDeaths := sessionStats.bgDeaths + 1); }
      RecordDeath(pkg, now);
    }

    method ForgetPid(pid: Pid)
      requires pid in pidToPkg
      modifies this`pidToPkg, this`pkgToPids, this`aliveApps
      ensures View() == Unindex(old(View()), pid)
    {
      var pkg := pidToPkg[pid];
      pidToPkg := pidToPkg - {pid};
      if pkg in pkgToPids {
        pkgToPids := pkgToPids[pkg := pkgToPids[pkg] - {pid}];
        if pkgToPids[pkg] == {} { aliveApps := aliveApps - {pkg}; }
      }
    }

    method RecordDeath(pkg: Pkg, now: nat)
      modifies this`recentDeaths
      ensures recentDeaths == PruneDeaths(old(recentDeaths)[pkg := now], now)
    {
      recentDeaths := recentDeaths[pkg := now];
      if |recentDeaths| > DEATH_TABLE_SOFT_CAP {
        recentDeaths := map k | k in recentDeaths && SatSub(now, recentDeaths[k]) <= DEATH_TTL_MS :: recentDeaths[k];
      }
    }

    method ReportScreen(on: bool, now: nat, sec: nat)
      modifies this`effects, this`sessionStats, this`sessionStart
      ensures View() == Summarise(Emit(old(View()), ScreenState(now, on, sec)), now, sec)
    {
      hide Summarise;
      effects := effects + [ScreenState(now, on, sec)];
      EmitBgSummary(now, sec);
    }

    method MarkScreen(on: bool, now: nat)
      modifies this`screenOn, this`screenOnStart, this`screenOffStart
      ensures screenOn == on
      ensures screenOnStart == (if on then Some(now) else None) && screenOffStart == if on then None else Some(now)
    {
      screenOn := on;
      screenOnStart := if on then Some(now) else None;
      screenOffStart := if on then None else Some(now);
    }

    method OnScreenToggled(on: bool, now: nat)
      modifies this`effects, this`sessionStats, this`sessionStart
      modifies this`screenOn, this`screenOnStart, this`screenOffStart
      ensures View() == OnScreen(old(View()), on, now)
    {
      hide Summarise, SecondsSince;
      if screenOn != on {
        var sec := SecondsSince(if on then screenOffStart else screenOnStart, now);
        ReportScreen(on, now, sec);
        MarkScreen(on, now);
      }
    }

    // --- the pipeline -------------------------------------------------------------------------

    method ProbePids(o: Answers, pkg: Pkg, dead: seq<Pid>) returns (live: seq<Pid>, totalKb: nat, dead': seq<Pid>)
      requires Sound(o)
      ensures live == LivePids(View(), o, pkg) && totalKb == RssSum(o, live)
      ensures forall p :: p in dead' <==> p in dead || (p in PidsOf(View(), pkg) && o.rssKb(p) == 0)
    {
      var pids := o.pidOrder(if pkg in pkgToPids then pkgToPids[pkg] else {});
      live, totalKb, dead' := [], 0, dead;
      for i := 0 to |pids|
        invariant live == Live(o, pids[..i]) && totalKb == RssSum(o, live)
        invariant forall p :: p in dead' <==> p in dead || (p in pids[..i] && o.rssKb(p) == 0)
      {
        assert pids[..i + 1][..i] == pids[..i] && pids[..i + 1] == pids[..i] + [pids[i]];
        var rss := o.rssKb(pids[i]);
        if rss > 0 {
          totalKb := totalKb + rss;
          ghost var before := live;
          live := live + [pids[i]];
          assert live[..|live| - 1] == before;
        } else {
          dead' := dead' + [pids[i]];
        }
      }
      assert pids[..|pids|] == pids;
    }

    method Thresholds(now: nat, isGame: bool, lowMem: bool) returns (g: Gate)
      ensures g == GateOf(View(), now, isGame, lowMem)
    {
      var depth := if !screenOn && config.screenOffHarvest then Min(config.lruProtectDepth, 1)
                   else config.lruProtectDepth;
      var idle: nat;
      if isGame || lowMem {
        idle := Min(config.tIdleSec, 10);
      } else if !screenOn && config.screenOffHarvest {
        idle := Min(config.tIdleSec, if SecondsSince(screenOffStart, now) > 60 then 30 else 60);
      } else {
        var anchor := if currentFg.Some? && currentFg.value in aliveApps then Some(aliveApps[currentFg.value])
                      else None;
        idle := if SecondsSince(anchor, now) > 300 then Min(config.tIdleSec, 60) else config.tIdleSec;
      }
      g := Gate(now, idle, depth);
    }

    // One package of the walk: gates first, then its PIDs.
    method JudgePkg(o: Answers, g: Gate, pkg: Pkg, cands: seq<Candidate>, deadPids: seq<Pid>, deadPkgs: seq<Pkg>)
      returns (cands': seq<Candidate>, deadPids': seq<Pid>, deadPkgs': seq<Pkg>)
      requires Sound(o) && pkg in aliveApps
      ensures cands' == cands + if Evictable(View(), o, g, pkg) then [CandidateOf(View(), o, g, pkg)] else []
      ensures forall p :: p in deadPids' <==> p in deadPids || ProbedDead(View(), o, g, pkg, p)
      ensures deadPkgs' == deadPkgs + if DeadPkg(View(), o, g, pkg) then [pkg] else []
    {
      hide LivePids;
      cands', deadPids', deadPkgs' := cands, deadPids, deadPkgs;
      var excluded := pkg in userExclusions || pkg in dynamicExclusions || currentFg == Some(pkg);
      var lruPos := Position(fgLru, pkg).GetOr(USIZE_MAX);
      var idleSec := SatSub(g.now, aliveApps[pkg]) / 1000;
      if !excluded && lruPos >= g.depth && idleSec >= g.idleSec {
        var live, totalKb;
        live, totalKb, deadPids' := ProbePids(o, pkg, deadPids);
        LivePidsFacts(View(), o, pkg);
        if live == [] || totalKb == 0 {
          deadPkgs' := deadPkgs + [pkg];
        } else {
          cands' := cands + [Candidate(pkg, live, totalKb, idleSec, lruPos)];
        }
      }
    }

    method WalkAlive(o: Answers, g: Gate)
      returns (cands: seq<Candidate>, deadPids: seq<Pid>, deadPkgs: seq<Pkg>)
      requires Sound(o)
      ensures cands == Collect(View(), o, g, o.pkgOrder(View().alive.Keys))
      ensures forall p :: p in deadPids <==> Purged(View(), o, g, p)
      ensures forall k :: k in deadPkgs <==> DeadPkg(View(), o, g, k)
    {
      hide Evictable, CandidateOf, ProbedDead, DeadPkg, Purged, PassesGates;
      ghost var s := View();
      cands, deadPids, deadPkgs := [], [], [];
      var order := o.pkgOrder(aliveApps.Keys);
      for i := 0 to |order|
        invariant cands == Collect(s, o, g, order[..i])
        invariant forall p :: p in deadPids <==> exists k :: k in order[..i] && ProbedDead(s, o, g, k, p)
        invariant forall k :: k in deadPkgs <==> k in order[..i] && DeadPkg(s, o, g, k)
      {
        assert order[..i + 1][..i] == order[..i] && order[..i + 1] == order[..i] + [order[i]];
        assert order[i] in order;
        cands, deadPids, deadPkgs := JudgePkg(o, g, order[i], cands, deadPids, deadPkgs);
      }
      assert order[..|order|] == order;
      WalkIsComplete(s, o, g, order);
    }

    method PurgeTables(o: Answers, g: Gate, cands: seq<Candidate>, deadPids: seq<Pid>, deadPkgs: seq<Pkg>)
      requires Sound(o) && cands == Collect(View(), o, g, o.pkgOrder(View().alive.Keys))
      requires forall p :: p in deadPids <==> Purged(View(), o, g, p)
      requires forall k :: k in deadPkgs <==> DeadPkg(View(), o, g, k)
      modifies this`pidToPkg, this`pkgToPids, this`aliveApps
      ensures IndexView() == old(ReconcileIndex(View(), o, g)) && aliveApps == old(Reconcile(View(), o, g).alive)
    {
      hide Collect, Evictable, PassesGates, Purged, DeadPkg;
      ghost var s := View();
      PurgePids(deadPids);
      PurgePkgs(deadPkgs);
      RetainLive(cands);
      RetainedIsReconciled(s, o, g, cands, pkgToPids);
    }

    method ScanCandidates(o: Answers, now: nat, isGame: bool, lowMem: bool) returns (cands: seq<Candidate>)
      requires Sound(o)
      modifies this`pidToPkg, this`pkgToPids, this`aliveApps
      ensures cands == Candidates(old(View()), o, GateOf(old(View()), now, isGame, lowMem))
      ensures View() == Reconcile(old(View()), o, GateOf(old(View()), now, isGame, lowMem))
    {
      hide Collect, SortDesc, Evictable, LivePids, GateOf, PassesGates, Purged, DeadPkg, ReconcileIndex;
      var g := Thresholds(now, isGame, lowMem);
      var deadPids, deadPkgs;
      cands, deadPids, deadPkgs := WalkAlive(o, g);
      PurgeTables(o, g, cands, deadPids, deadPkgs);
      cands := SortDesc(cands);
    }

    method PurgePids(dead: seq<Pid>)
      modifies this`pidToPkg
      ensures pidToPkg == map p | p in old(pidToPkg) && p !in dead :: old(pidToPkg)[p]
    {
      for i := 0 to |dead|
        invariant pidToPkg == map p | p in old(pidToPkg) && p !in dead[..i] :: old(pidToPkg)[p]
      {
        assert dead[..i + 1] == dead[..i] + [dead[i]];
        pidToPkg := pidToPkg - {dead[i]};
      }
      assert dead[..|dead|] == dead;
    }

    method PurgePkgs(dead: seq<Pkg>)
      modifies this`aliveApps, this`pkgToPids
      ensures aliveApps == map k | k in old(aliveApps) && k !in dead :: old(aliveApps)[k]
      ensures pkgToPids == map k | k in old(pkgToPids) && k !in dead :: old(pkgToPids)[k]
    {
      for i := 0 to |dead|
        invariant aliveApps == map k | k in old(aliveApps) && k !in dead[..i] :: old(aliveApps)[k]
        invariant pkgToPids == map k | k in old(pkgToPids) && k !in dead[..i] :: old(pkgToPids)[k]
      {
        assert dead[..i + 1] == dead[..i] + [dead[i]];
        aliveApps := aliveApps - {dead[i]};
        pkgToPids := pkgToPids - {dead[i]};
      }
      assert dead[..|dead|] == dead;
    }

    method RetainLive(cands: seq<Candidate>)
      modifies this`pkgToPids
      ensures pkgToPids.Keys == old(pkgToPids).Keys
      ensures forall k | k in pkgToPids ::
        pkgToPids[k] == set p | p in old(pkgToPids)[k] && forall c | c in cands && c.pkg == k :: p in c.livePids
    {
      for i := 0 to |cands|
        invariant pkgToPids.Keys == old(pkgToPids).Keys
        invariant forall k | k in pkgToPids ::
          pkgToPids[k] == set p | p in old(pkgToPids)[k] && forall c | c in cands[..i] && c.pkg == k :: p in c.livePids
      {
        assert cands[..i + 1] == cands[..i] + [cands[i]];
        var c := cands[i];
        if c.pkg in pkgToPids {
          pkgToPids := pkgToPids[c.pkg := set p | p in pkgToPids[c.pkg] && p in c.livePids];
        }
      }
      assert cands[..|cands|] == cands;
    }

    // One kill(2) after another, stopping at the first that is refused.
    method SignalAll(o: Answers, pids: seq<Pid>) returns (signalled: bool)
      modifies this`effects
      ensures effects == old(effects) + SignalRun(o, pids)
      ensures signalled == AllSignalled(o, pids)
    {
      signalled := true;
      var i := 0;
      while i < |pids| && signalled
        invariant i <= |pids|
        invariant effects == old(effects) + SignalRun(o, pids[..i])
        invariant signalled == AllSignalled(o, pids[..i])
      {
        ghost var front, upto := pids[..i], pids[..i + 1];
        assert upto == front + [pids[i]] && upto[..i] == front;
        effects := effects + [Signal(pids[i])];
        signalled := o.signalled(pids[i]);
        i := i + 1;
      }
      RefusalEndsRun(o, pids, i);
    }

    // Signals or spawns as the mode asks; nothing under observe or for a protected package.
    method CarryOutKill(c: Candidate, o: Answers, oomAdj: int, amsProtected: bool)
      returns (errno: Option<int>, how: Method)
      modifies this`effects
      ensures var d := CarryOut(switches, o, c, oomAdj, amsProtected);
        effects == old(effects) + d.attempts && errno == d.errno && how == d.how
    {
      hide SignalRun, Revalidates, AllSignalled;
      how := KillMethod(switches.isRoot, amsProtected, oomAdj);
      if !switches.actMode {
        errno := None;
      } else if amsProtected {
        errno := Some(NOT_DISPATCHED);
      } else if how == Sigkill {
        var confirmed := forall p | p in c.livePids :: Revalidates(o, p);
        var signalled := false;
        if confirmed { signalled := SignalAll(o, c.livePids); }
        if signalled {
          errno := Some(0);
        } else {
          how := Ams;
          effects := effects + [SpawnKill(c.pkg)];
          errno := Some(o.spawn(c.pkg));
        }
      } else {
        effects := effects + [SpawnKill(c.pkg)];
        errno := Some(o.spawn(c.pkg));
      }
    }

    method DispatchCandidate(c: Candidate, o: Answers, oomAdj: int, amsProtected: bool, i: PassInfo)
      requires oomAdj == MinAdj(o, c.livePids) && amsProtected == (oomAdj < config.minOomScoreAdj)
      modifies this`effects, this`aliveApps
      ensures View() == Dispatch(old(View()), o, c, i)
    {
      hide MinAdj, CarryOut;
      var reason := KillReason(i.isGame, i.lowMem);
      var errno, how := CarryOutKill(c, o, oomAdj, amsProtected);
      effects := effects + [Killed(KillRecord(
        i.now, KillEventName(switches.actMode, amsProtected), c.pkg, c.livePids, c.totalRssKb, reason,
        c.idleSec, c.lruPos, errno, oomAdj, amsProtected, how))];
      if amsProtected {
        if c.pkg in aliveApps { aliveApps := aliveApps[c.pkg := i.now]; }
      } else {
        aliveApps := aliveApps - {c.pkg};
      }
    }

    method LowestAdj(o: Answers, pids: seq<Pid>) returns (adj: int)
      ensures adj == MinAdj(o, pids)
    {
      adj := 0;
      for i := 0 to |pids|
        invariant adj == MinAdj(o, pids[..i])
      {
        assert pids[..i + 1][..i] == pids[..i];
        var a := o.adj(pids[i]).GetOr(0);
        adj := if i == 0 || a < adj then a else adj;
      }
      assert pids[..|pids|] == pids;
    }

    method EvaluateReapingPipeline(now: nat, o: Answers)
      requires Sound(o)
      modifies this`pidToPkg, this`pkgToPids, this`aliveApps, this`effects
      ensures View() == Pass(old(View()), o, now)
    {
      hide Reconcile, Candidates, GateOf, Dispatch;
      ghost var s := View();
      var isGame := currentFg.Some? && currentFg.value in games;
      var lowMem := config.memCriticalPercent != 0 && o.memCritical(config.memCriticalPercent);
      var cands := ScanCandidates(o, now, isGame, lowMem);
      var info := PassInfo(now, isGame, lowMem);
      cands := cands[..Min(config.maxKillsPerPass, |cands|)];
      assert cands == Chosen(s, o, now);
      ghost var t := View();
      for i := 0 to |cands|
        invariant View() == DispatchAll(t, o, cands[..i], info)
      {
        assert cands[..i + 1][..i] == cands[..i];
        var adj := LowestAdj(o, cands[i].livePids);
        DispatchCandidate(cands[i], o, adj, adj < config.minOomScoreAdj, info);
      }
      assert cands[..|cands|] == cands;
    }

    // --- one input ---------------------------------------------------------------------------

    // A parsed line: compensate a clock step, then run the handler.
    method DispatchEvent(now: u64, e: Event, o: Answers)
      requires Sound(o)
      modifies this
      ensures View() == Step(old(View()), Line(now, e), o)
    {
      ApplyClockJump(ClockJump(lastEventEpoch, now));
      lastEventEpoch := now;
      assert View() == Advance(old(View()), now);
      match e
      case ResumeActivity(pkg, component) => OnResumeActivity(pkg, component, now, o);
      case ProcStart(_, _, _, _, _) => OnProcStart(e, now, o);
      case ProcDied(pid) => OnProcDied(pid, now);
      case ScreenToggled(on) => OnScreenToggled(on, now);
      case DeviceIdleLightStep =>
        if !screenOn && config.screenOffHarvest { EvaluateReapingPipeline(now, o); }
    }

    // One log line: parsed, then dispatched; a line that does not parse changes nothing.
    method DispatchLogcatLine(line: string, alpha: char -> bool, o: Answers)
      requires Sound(o)
      modifies this
      ensures View() == match ParseLine(line, alpha)
                        case Some((ts, e)) => Step(old(View()), Line(ts, e), o)
                        case None => old(View())
    {
      hide Step, ParseLine;
      var parsed := ReadLine(line, alpha);
      if parsed.Some? { DispatchEvent(parsed.value.0, parsed.value.1, o); }
    }

    // The switch is applied around the record that announces a change.
    method ReloadConfigs(ts: nat, config': Config, excl: set<Pkg>, games': set<Pkg>)
      modifies this`config, this`userExclusions, this`games, this`effects
      ensures View() == OnReload(old(View()), ts, config', excl, games')
    {
      var changed := config' != config;
      AdoptConfig(config', excl, games');
      if changed { AnnounceReload(ts, config.logEnabled && !switches.noLogCli); }
    }

    method AdoptConfig(config': Config, excl: set<Pkg>, games': set<Pkg>)
      modifies this`config, this`userExclusions, this`games
      ensures PolicyView() == old(PolicyView()).(config := config', userExclusions := excl, games := games')
    {
      config, userExclusions, games := config', excl, games';
    }

    method AnnounceReload(ts: nat, wantLog: bool)
      modifies this`effects
      ensures effects == old(effects) + if wantLog then [LogSwitch(true), ConfigReload(ts, config, wantLog)]
                                        else [ConfigReload(ts, config, wantLog), LogSwitch(false)]
    {
      if wantLog { effects := effects + [LogSwitch(true)]; }
      effects := effects + [ConfigReload(ts, config, wantLog)];
      if !wantLog { effects := effects + [LogSwitch(false)]; }
    }
  }
}
