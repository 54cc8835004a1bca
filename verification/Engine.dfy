/** The eviction decision engine as functions on values: one function per event handler
    and per pipeline stage. Class DaemonState refines these, the law modules reason about
    them. */
module Engine {
  import opened Prelude

  type Pkg = string
  type Pid = nat

  const RTC_SYNC_FLOOR_MS: nat := 1_600_000_000_000
  const SIGKILL_MIN_ADJ: int := 900
  const NOT_DISPATCHED: int := -2
  const APP_UID_MIN: nat := 10000
  const DEATH_TTL_MS: nat := 120_000
  const DEATH_TABLE_SOFT_CAP: nat := 64

  datatype Config = Config(
    tIdleSec: nat, lruProtectDepth: nat, memCriticalPercent: nat, fgLruMaxDepth: nat,
    screenOffHarvest: bool, maxKillsPerPass: nat, minOomScoreAdj: int, logEnabled: bool)

  // --- events, records, answers of the outside world ------------------------------------

  datatype Event =
    | ResumeActivity(pkg: Pkg, component: string)
    | ProcStart(procName: string, pkg: Pkg, spawnType: string, pid: Pid, uid: nat)
    | ProcDied(pid: Pid)
    | ScreenToggled(on: bool)
    | DeviceIdleLightStep

  datatype Method = Ams | Sigkill
  datatype Reason = GameModeEscalation | LowMemoryEscalation | IdleExpired
  datatype KillEvent = Kill | KillSkipped | SimulatedKill

  // What the log records about one decision.
  datatype KillRecord = KillRecord(
    ts: nat, event: KillEvent, pkg: Pkg, pids: seq<Pid>, rssFreedEstKb: nat, reason: Reason,
    idleSec: nat, lruPos: nat, spawnErrno: Option<int>, oomScoreAdj: int, amsProtected: bool,
    how: Method)
  {
    predicate SpawnSkipped() { spawnErrno == None || spawnErrno == Some(NOT_DISPATCHED) }
  }

  // Everything the engine does to the outside world, in order.
  datatype Effect =
    | BgSummary(ts: nat, intervalSec: nat, spawns: nat, deaths: nat, spawnRssKb: nat)
    | GameStart(ts: nat, game: Pkg)
    | GameEnd(ts: nat, durationSec: nat, intrusions: nat)
    | GameIntrusion(ts: nat, pid: Pid, uid: nat, pkg: Pkg, procName: string, spawnType: string,
                    rssKb: nat, excluded: bool)
    | FgSwitch(ts: nat, pkg: Pkg, component: string, prevDurMs: nat, isGame: bool)
    | Respawn(ts: nat, pkg: Pkg, gapMs: nat, pid: Pid, uid: nat, spawnType: string)
    | ScreenState(ts: nat, on: bool, durationSec: nat)
    | ConfigReload(ts: nat, config: Config, wantLog: bool)
    | LogSwitch(enable: bool)
    | Killed(kill: KillRecord)
    | Signal(pid: Pid)
    | SpawnKill(pkg: Pkg)

  // procfs, pressure probe, kill(2), the spawner and hash iteration order during one event.
  datatype Answers = Answers(
    startRssKb: nat,
    rssKb: Pid -> nat,
    adj: Pid -> Option<int>,
    adjAgain: Pid -> Option<int>,
    ownerUid: Pid -> Option<nat>,
    signalled: Pid -> bool,
    spawn: Pkg -> int,
    memCritical: nat -> bool,
    pkgOrder: set<Pkg> -> seq<Pkg>,
    pidOrder: set<Pid> -> seq<Pid>)

  // Iterators visit every key once; the spawner answers 0, -1 or a positive errno.
  ghost predicate Sound(o: Answers) {
    && (forall ks :: Enumerates(o.pkgOrder(ks), ks))
    && (forall ps :: Enumerates(o.pidOrder(ps), ps))
    && (forall k :: o.spawn(k) >= -1)
  }

  // --- state -----------------------------------------------------------------------------

  datatype Stats = Stats(bgSpawns: nat, bgDeaths: nat, spawnRssKb: nat)

  datatype Switches = Switches(actMode: bool, isRoot: bool, noLogCli: bool)

  // What the operator decides.
  datatype Policy = Policy(switches: Switches, config: Config, userExclusions: set<Pkg>,
                           dynamicExclusions: set<Pkg>, games: set<Pkg>)

  // The process tables.
  datatype Index = Index(pidToPkg: map<Pid, Pkg>, pkgToPids: map<Pkg, set<Pid>>, pkgToUid: map<Pkg, nat>)

  datatype Timers = Timers(screenOnStart: Option<nat>, screenOffStart: Option<nat>,
                           gameStart: Option<nat>, sessionStart: nat)

  // Counters the reports are made from.
  datatype Reports = Reports(stats: Stats, intrusions: nat, isGaming: bool)

  datatype State = State(
    policy: Policy,
    alive: map<Pkg, nat>,
    idx: Index,
    deaths: map<Pkg, nat>,
    lru: seq<Pkg>,
    fg: Option<Pkg>,
    screenOn: bool,
    timers: Timers,
    last: u64,
    rep: Reports,
    out: seq<Effect>)
  {
    function ScreenMarks(on: bool, onStart: Option<nat>, offStart: Option<nat>): State {
      this.(screenOn := on, timers := timers.(screenOnStart := onStart, screenOffStart := offStart))
    }
  }

  function Emit(s: State, e: Effect): State { s.(out := s.out + [e]) }

  predicate IsExcluded(s: State, pkg: Pkg) {
    pkg in s.policy.userExclusions || pkg in s.policy.dynamicExclusions || s.fg == Some(pkg)
  }

  // usize::MAX stands for "absent".
  function LruPos(lru: seq<Pkg>, pkg: Pkg): nat { Position(lru, pkg).GetOr(USIZE_MAX) }

  // --- clock-step classification and rebasing ---------------------------------------------

  // `x as i64` of a u64, and two's-complement negation: both wrap in the release build.
  function AsI64(n: u64): int {
    if n < I64_SPAN then n else n - U64_MAX - 1
  }

  function NegI64(x: int): int { if x == -I64_SPAN then x else -x }

  function ClockJump(prev: u64, now: u64): int {
    if prev == 0 then 0
    else if now < prev then NegI64(AsI64(prev - now))
    else if prev < RTC_SYNC_FLOOR_MS <= now then AsI64(now - prev)
    else 0
  }

  // u64::saturating_add_signed
  function Shift(t: nat, jump: int): nat {
    if t + jump < 0 then 0 else if t + jump > U64_MAX then U64_MAX else t + jump
  }

  function ShiftAll(m: map<Pkg, nat>, jump: int): map<Pkg, nat> { map k | k in m :: Shift(m[k], jump) }

  function ShiftOption(t: Option<nat>, jump: int): Option<nat> {
    match t
    case Some(v) => Some(Shift(v, jump))
    case None => None
  }

  function Rebase(s: State, jump: int): State {
    if jump == 0 then s
    else s.(alive := ShiftAll(s.alive, jump),
            deaths := ShiftAll(s.deaths, jump),
            timers := Timers(ShiftOption(s.timers.screenOnStart, jump),
                             ShiftOption(s.timers.screenOffStart, jump),
                             ShiftOption(s.timers.gameStart, jump),
                             Shift(s.timers.sessionStart, jump)))
  }

  // --- the scan ----------------------------------------------------------------------------

  datatype Candidate = Candidate(pkg: Pkg, livePids: seq<Pid>, totalRssKb: nat, idleSec: nat, lruPos: nat)

  // The thresholds one scan applies.
  datatype Gate = Gate(now: nat, idleSec: nat, depth: nat)

  function EffectiveDepth(s: State): nat {
    if !s.screenOn && s.policy.config.screenOffHarvest then Min(s.policy.config.lruProtectDepth, 1)
    else s.policy.config.lruProtectDepth
  }

  function SecondsSince(t: Option<nat>, now: nat): nat {
    match t
    case Some(v) => SatSub(now, v) / 1000
    case None => 0
  }

  function FgAnchor(s: State): Option<nat> {
    if s.fg.Some? && s.fg.value in s.alive then Some(s.alive[s.fg.value]) else None
  }

  function EffectiveIdle(s: State, now: nat, isGame: bool, lowMem: bool): nat {
    if isGame || lowMem then Min(s.policy.config.tIdleSec, 10)
    else if !s.screenOn && s.policy.config.screenOffHarvest then
      if SecondsSince(s.timers.screenOffStart, now) > 60 then Min(s.policy.config.tIdleSec, 30)
      else Min(s.policy.config.tIdleSec, 60)
    else if SecondsSince(FgAnchor(s), now) > 300 then Min(s.policy.config.tIdleSec, 60)
    else s.policy.config.tIdleSec
  }

  function GateOf(s: State, now: nat, isGame: bool, lowMem: bool): Gate {
    Gate(now, EffectiveIdle(s, now, isGame, lowMem), EffectiveDepth(s))
  }

  function IdleSec(s: State, g: Gate, k: Pkg): nat
    requires k in s.alive
  {
    SatSub(g.now, s.alive[k]) / 1000
  }

  predicate PassesGates(s: State, g: Gate, k: Pkg) {
    && k in s.alive
    && !IsExcluded(s, k)
    && LruPos(s.lru, k) >= g.depth
    && IdleSec(s, g, k) >= g.idleSec
  }

  function PidsOf(s: State, k: Pkg): set<Pid> { if k in s.idx.pkgToPids then s.idx.pkgToPids[k] else {} }

  // The PIDs of a sequence that still have resident memory, and their total.
  function Live(o: Answers, pids: seq<Pid>): seq<Pid> {
    if pids == [] then []
    else
      var p := pids[|pids| - 1];
      Live(o, pids[..|pids| - 1]) + (if o.rssKb(p) > 0 then [p] else [])
  }

  function RssSum(o: Answers, pids: seq<Pid>): nat {
    if pids == [] then 0
    else RssSum(o, pids[..|pids| - 1]) + o.rssKb(pids[|pids| - 1])
  }

  function LivePids(s: State, o: Answers, k: Pkg): seq<Pid> { Live(o, o.pidOrder(PidsOf(s, k))) }

  predicate Evictable(s: State, o: Answers, g: Gate, k: Pkg) {
    PassesGates(s, g, k) && LivePids(s, o, k) != []
  }

  function CandidateOf(s: State, o: Answers, g: Gate, k: Pkg): Candidate
    requires k in s.alive
  {
    Candidate(k, LivePids(s, o, k), RssSum(o, LivePids(s, o, k)), IdleSec(s, g, k), LruPos(s.lru, k))
  }

  function Collect(s: State, o: Answers, g: Gate, order: seq<Pkg>): seq<Candidate> {
    if order == [] then []
    else
      var k := order[|order| - 1];
      Collect(s, o, g, order[..|order| - 1])
      + (if Evictable(s, o, g, k) then [CandidateOf(s, o, g, k)] else [])
  }

  // sort_by_key(Reverse(total_rss_kb)): stable, heaviest first.
  function InsertDesc(c: Candidate, q: seq<Candidate>): seq<Candidate> {
    if q == [] || c.totalRssKb >= q[0].totalRssKb then [c] + q
    else [q[0]] + InsertDesc(c, q[1..])
  }

  function SortDesc(q: seq<Candidate>): seq<Candidate> {
    if q == [] then [] else InsertDesc(q[0], SortDesc(q[1..]))
  }

  function Candidates(s: State, o: Answers, g: Gate): seq<Candidate> {
    SortDesc(Collect(s, o, g, o.pkgOrder(s.alive.Keys)))
  }

  // A PID the scan probed and found without memory.
  predicate Purged(s: State, o: Answers, g: Gate, p: Pid) {
    o.rssKb(p) == 0 && exists k :: k in s.alive && PassesGates(s, g, k) && p in PidsOf(s, k)
  }

  predicate DeadPkg(s: State, o: Answers, g: Gate, k: Pkg) {
    PassesGates(s, g, k) && LivePids(s, o, k) == []
  }

  function ReconcileIndex(s: State, o: Answers, g: Gate): Index {
    s.idx.(pidToPkg := map p | p in s.idx.pidToPkg && !Purged(s, o, g, p) :: s.idx.pidToPkg[p],
           pkgToPids := map k | k in s.idx.pkgToPids && !DeadPkg(s, o, g, k) ::
             if Evictable(s, o, g, k) then set p | p in s.idx.pkgToPids[k] && o.rssKb(p) > 0
             else s.idx.pkgToPids[k])
  }

  function Reconcile(s: State, o: Answers, g: Gate): State {
    s.(alive := map k | k in s.alive && !DeadPkg(s, o, g, k) :: s.alive[k],
       idx := ReconcileIndex(s, o, g))
  }

  // --- dispatch ------------------------------------------------------------------------------

  function MinAdj(o: Answers, pids: seq<Pid>): int {
    if pids == [] then 0
    else
      var a := o.adj(pids[|pids| - 1]).GetOr(0);
      if |pids| == 1 then a
      else
        var m := MinAdj(o, pids[..|pids| - 1]);
        if a < m then a else m
  }

  function KillMethod(isRoot: bool, amsProtected: bool, oomAdj: int): Method {
    if isRoot && !amsProtected && oomAdj >= SIGKILL_MIN_ADJ then Sigkill else Ams
  }

  function KillReason(isGame: bool, lowMem: bool): Reason {
    if isGame then GameModeEscalation else if lowMem then LowMemoryEscalation else IdleExpired
  }

  function KillEventName(actMode: bool, amsProtected: bool): KillEvent {
    if !actMode then SimulatedKill else if amsProtected then KillSkipped else Kill
  }

  predicate Revalidates(o: Answers, p: Pid) {
    && o.ownerUid(p).Some? && o.ownerUid(p).value >= APP_UID_MIN
    && o.adjAgain(p).Some? && o.adjAgain(p).value >= SIGKILL_MIN_ADJ
  }

  predicate AllSignalled(o: Answers, pids: seq<Pid>) { forall p | p in pids :: o.signalled(p) }

  // Iterator::all over kill(2): stops after the first refusal.
  function SignalRun(o: Answers, pids: seq<Pid>): seq<Effect> {
    if pids == [] then []
    else
      var front := pids[..|pids| - 1];
      SignalRun(o, front) + (if AllSignalled(o, front) then [Signal(pids[|pids| - 1])] else [])
  }

  // How a decision is carried out: attempts made, errno recorded, method recorded.
  datatype Dispatched = Dispatched(attempts: seq<Effect>, errno: Option<int>, how: Method)

  function CarryOut(sw: Switches, o: Answers, c: Candidate, oomAdj: int, amsProtected: bool): Dispatched {
    var how := KillMethod(sw.isRoot, amsProtected, oomAdj);
    if !sw.actMode then Dispatched([], None, how)
    else if amsProtected then Dispatched([], Some(NOT_DISPATCHED), how)
    else if how == Sigkill then
      var confirmed := forall p | p in c.livePids :: Revalidates(o, p);
      var signals := if confirmed then SignalRun(o, c.livePids) else [];
      if confirmed && AllSignalled(o, c.livePids) then Dispatched(signals, Some(0), Sigkill)
      else Dispatched(signals + [SpawnKill(c.pkg)], Some(o.spawn(c.pkg)), Ams)
    else Dispatched([SpawnKill(c.pkg)], Some(o.spawn(c.pkg)), Ams)
  }

  // Inputs of one pass that every dispatch shares.
  datatype PassInfo = PassInfo(now: nat, isGame: bool, lowMem: bool)

  predicate Protected(pol: Policy, o: Answers, c: Candidate) {
    MinAdj(o, c.livePids) < pol.config.minOomScoreAdj
  }

  function CarriedOut(pol: Policy, o: Answers, c: Candidate): Dispatched {
    CarryOut(pol.switches, o, c, MinAdj(o, c.livePids), Protected(pol, o, c))
  }

  function RecordOf(pol: Policy, o: Answers, c: Candidate, i: PassInfo): KillRecord {
    var d := CarriedOut(pol, o, c);
    KillRecord(i.now, KillEventName(pol.switches.actMode, Protected(pol, o, c)), c.pkg, c.livePids, c.totalRssKb,
               KillReason(i.isGame, i.lowMem), c.idleSec, c.lruPos, d.errno, MinAdj(o, c.livePids),
               Protected(pol, o, c), d.how)
  }

  function EffectsOf(pol: Policy, o: Answers, c: Candidate, i: PassInfo): seq<Effect> {
    CarriedOut(pol, o, c).attempts + [Killed(RecordOf(pol, o, c, i))]
  }

  // A protected package is re-anchored, any other leaves the activity table.
  function Settle(alive: map<Pkg, nat>, k: Pkg, isProtected: bool, now: nat): map<Pkg, nat> {
    if !isProtected then alive - {k} else if k in alive then alive[k := now] else alive
  }

  function Dispatch(s: State, o: Answers, c: Candidate, i: PassInfo): State {
    s.(out := s.out + EffectsOf(s.policy, o, c, i),
       alive := Settle(s.alive, c.pkg, Protected(s.policy, o, c), i.now))
  }

  function DispatchAll(s: State, o: Answers, cs: seq<Candidate>, i: PassInfo): State {
    if cs == [] then s
    else Dispatch(DispatchAll(s, o, cs[..|cs| - 1], i), o, cs[|cs| - 1], i)
  }

  function IsGameFg(s: State): bool { s.fg.Some? && s.fg.value in s.policy.games }

  // 0 switches the probe off.
  function LowMem(s: State, o: Answers): bool {
    s.policy.config.memCriticalPercent != 0 && o.memCritical(s.policy.config.memCriticalPercent)
  }

  function InfoOf(s: State, o: Answers, now: nat): PassInfo { PassInfo(now, IsGameFg(s), LowMem(s, o)) }

  function PassGate(s: State, o: Answers, now: nat): Gate { GateOf(s, now, IsGameFg(s), LowMem(s, o)) }

  function Chosen(s: State, o: Answers, now: nat): seq<Candidate> {
    var cs := Candidates(s, o, PassGate(s, o, now));
    cs[..Min(s.policy.config.maxKillsPerPass, |cs|)]
  }

  function Pass(s: State, o: Answers, now: nat): State {
    DispatchAll(Reconcile(s, o, PassGate(s, o, now)), o, Chosen(s, o, now), InfoOf(s, o, now))
  }

  // --- handlers --------------------------------------------------------------------------------

  function Summarise(s: State, now: nat, intervalSec: nat): State {
    if s.rep.stats.bgSpawns == 0 && s.rep.stats.bgDeaths == 0 then s
    else
      Emit(s, BgSummary(now, intervalSec, s.rep.stats.bgSpawns, s.rep.stats.bgDeaths, s.rep.stats.spawnRssKb))
      .(rep := s.rep.(stats := Stats(0, 0, 0)), timers := s.timers.(sessionStart := now))
  }

  // The package leaving the foreground, when its recorded uid is an app uid.
  predicate Departs(s: State, pkg: Pkg) {
    && s.fg.Some? && s.fg.value != pkg
    && s.fg.value in s.idx.pkgToUid && s.idx.pkgToUid[s.fg.value] >= APP_UID_MIN
  }

  function PrevDurMs(s: State, pkg: Pkg, now: nat): nat {
    if Departs(s, pkg) && s.fg.value in s.alive then SatSub(now, s.alive[s.fg.value]) else 0
  }

  function Depart(s: State, pkg: Pkg, now: nat): State {
    if Departs(s, pkg) then s.(alive := s.alive[s.fg.value := now]) else s
  }

  function Trampoline(lru: seq<Pkg>, prev: Option<Pkg>, prevDurMs: nat): seq<Pkg> {
    if 0 < prevDurMs < 500 && prev.Some? then Without(lru, prev.value) else lru
  }

  function Promote(lru: seq<Pkg>, pkg: Pkg, maxDepth: nat): seq<Pkg> {
    match Position(lru, pkg)
    case Some(i) => [pkg] + lru[..i] + lru[i + 1..]
    case None => if |lru| + 1 > maxDepth then ([pkg] + lru)[..|lru|] else [pkg] + lru
  }

  function GameEdge(s: State, pkg: Pkg, now: nat): State {
    var isGame := pkg in s.policy.games;
    if isGame && !s.rep.isGaming then
      Emit(s, GameStart(now, pkg))
      .(rep := s.rep.(isGaming := true, intrusions := 0), timers := s.timers.(gameStart := Some(now)))
    else if !isGame && s.rep.isGaming then
      Emit(s, GameEnd(now, SecondsSince(s.timers.gameStart, now), s.rep.intrusions))
      .(rep := s.rep.(isGaming := false), timers := s.timers.(gameStart := None))
    else s
  }

  // The departing package is stamped, the spawn summary flushed, the LRU updated.
  function FocusTables(s: State, pkg: Pkg, now: nat): State {
    Summarise(Depart(s, pkg, now), now, SatSub(now, s.timers.sessionStart) / 1000)
    .(lru := Promote(Trampoline(s.lru, s.fg, PrevDurMs(s, pkg, now)), pkg, s.policy.config.fgLruMaxDepth))
  }

  // Everything OnResume does before the reaping pass.
  function Focus(s: State, pkg: Pkg, component: string, now: nat): State {
    Emit(GameEdge(FocusTables(s, pkg, now), pkg, now),
         FgSwitch(now, pkg, component, PrevDurMs(s, pkg, now), pkg in s.policy.games))
    .(fg := Some(pkg))
  }

  function OnResume(s: State, pkg: Pkg, component: string, now: nat, o: Answers): State {
    var s1 := Focus(s, pkg, component, now);
    if s.fg == Some(pkg) then s1 else Pass(s1, o, now)
  }

  predicate ForegroundSpawn(spawnType: string) {
    spawnType == "top-activity" || spawnType == "next-top-activity"
  }

  function CountSpawn(s: State, pkg: Pkg, rssKb: nat): State {
    if s.fg == Some(pkg) then s
    else s.(rep := s.rep.(stats := s.rep.stats.(bgSpawns := s.rep.stats.bgSpawns + 1,
                                                spawnRssKb := s.rep.stats.spawnRssKb + rssKb)))
  }

  function Intrude(s: State, e: Event, rssKb: nat, now: nat): State
    requires e.ProcStart?
  {
    if s.rep.isGaming && !ForegroundSpawn(e.spawnType) then
      Emit(s, GameIntrusion(now, e.pid, e.uid, e.pkg, e.procName, e.spawnType, rssKb, IsExcluded(s, e.pkg)))
      .(rep := s.rep.(intrusions := s.rep.intrusions + 1))
    else s
  }

  function IndexStart(s: State, pid: Pid, pkg: Pkg, uid: nat): State {
    s.(idx := Index(s.idx.pidToPkg[pid := pkg],
                    s.idx.pkgToPids[pkg := PidsOf(s, pkg) + {pid}],
                    if pkg in s.idx.pkgToUid then s.idx.pkgToUid else s.idx.pkgToUid[pkg := uid]))
  }

  function TakeDeath(s: State, e: Event, now: nat): State
    requires e.ProcStart?
  {
    if e.pkg !in s.deaths then s
    else
      var gap := SatSub(now, s.deaths[e.pkg]);
      var s1 := s.(deaths := s.deaths - {e.pkg});
      if gap <= DEATH_TTL_MS then Emit(s1, Respawn(now, e.pkg, gap, e.pid, e.uid, e.spawnType)) else s1
  }

  // Everything OnStart does before the reaping pass.
  function Admit(s: State, e: Event, rssKb: nat, now: nat): State
    requires e.ProcStart?
  {
    var s1 := Intrude(CountSpawn(s, e.pkg, rssKb), e, rssKb, now);
    var s2 := TakeDeath(IndexStart(s1, e.pid, e.pkg, e.uid), e, now);
    if e.uid >= APP_UID_MIN && e.pkg !in s2.alive then s2.(alive := s2.alive[e.pkg := now]) else s2
  }

  function OnStart(s: State, e: Event, now: nat, o: Answers): State
    requires e.ProcStart?
  {
    var s1 := Admit(s, e, o.startRssKb, now);
    if e.uid >= APP_UID_MIN && s.fg != Some(e.pkg) && !ForegroundSpawn(e.spawnType) then Pass(s1, o, now)
    else s1
  }

  function PruneDeaths(deaths: map<Pkg, nat>, now: nat): map<Pkg, nat> {
    if |deaths| > DEATH_TABLE_SOFT_CAP then map k | k in deaths && SatSub(now, deaths[k]) <= DEATH_TTL_MS :: deaths[k]
    else deaths
  }

  // The PID leaves both indexes; a package left without PIDs leaves the activity table.
  function Unindex(s: State, pid: Pid): State
    requires pid in s.idx.pidToPkg
  {
    var k := s.idx.pidToPkg[pid];
    if k !in s.idx.pkgToPids then s.(idx := s.idx.(pidToPkg := s.idx.pidToPkg - {pid}))
    else
      var rest := s.idx.pkgToPids[k] - {pid};
      s.(idx := s.idx.(pidToPkg := s.idx.pidToPkg - {pid}, pkgToPids := s.idx.pkgToPids[k := rest]),
         alive := if rest == {} then s.alive - {k} else s.alive)
  }

  function OnDied(s: State, pid: Pid, now: nat): State {
    if pid !in s.idx.pidToPkg then s
    else
      var k := s.idx.pidToPkg[pid];
      Unindex(s, pid)
      .(rep := if s.fg == Some(k) then s.rep
               else s.rep.(stats := s.rep.stats.(bgDeaths := s.rep.stats.bgDeaths + 1)),
        deaths := PruneDeaths(s.deaths[k := now], now))
  }

  function OnScreen(s: State, on: bool, now: nat): State {
    if s.screenOn == on then s
    else if !on then
      var sec := SecondsSince(s.timers.screenOnStart, now);
      Summarise(Emit(s, ScreenState(now, false, sec)), now, sec)
      .ScreenMarks(false, None, Some(now))
    else
      var sec := SecondsSince(s.timers.screenOffStart, now);
      Summarise(Emit(s, ScreenState(now, true, sec)), now, sec)
      .ScreenMarks(true, Some(now), None)
  }

  function OnIdleStep(s: State, now: nat, o: Answers): State {
    if !s.screenOn && s.policy.config.screenOffHarvest then Pass(s, o, now) else s
  }

  // --- start-up ----------------------------------------------------------------------------------

  function Boot(switches: Switches, config: Config, screenOn: bool, now: u64): State {
    State(Policy(switches, config, {}, {}, {}), map[], Index(map[], map[], map[]), map[], [], None, screenOn,
          Timers(if screenOn then Some(now) else None, if screenOn then None else Some(now), None, now),
          now, Reports(Stats(0, 0, 0), 0, false), [])
  }

  // One process found by the cold-start sweep.
  datatype Seeded = Seeded(pid: Pid, pkg: Pkg, uid: nat)

  function SeedOne(t: Index, e: Seeded): Index {
    Index(t.pidToPkg[e.pid := e.pkg],
          t.pkgToPids[e.pkg := (if e.pkg in t.pkgToPids then t.pkgToPids[e.pkg] else {}) + {e.pid}],
          t.pkgToUid[e.pkg := e.uid])
  }

  function Seed(x: Index, entries: seq<Seeded>): Index {
    if entries == [] then x else SeedOne(Seed(x, entries[..|entries| - 1]), entries[|entries| - 1])
  }

  // --- one input -------------------------------------------------------------------------------

  datatype Input =
    | Line(now: u64, event: Event)
    | Reload(ts: nat, config: Config, userExclusions: set<Pkg>, games: set<Pkg>)

  // The step compensation that precedes every handler.
  function Advance(s: State, now: u64): State {
    Rebase(s, ClockJump(s.last, now)).(last := now)
  }

  function Handle(s: State, e: Event, now: nat, o: Answers): State {
    match e
    case ResumeActivity(pkg, component) => OnResume(s, pkg, component, now, o)
    case ProcStart(_, _, _, _, _) => OnStart(s, e, now, o)
    case ProcDied(pid) => OnDied(s, pid, now)
    case ScreenToggled(on) => OnScreen(s, on, now)
    case DeviceIdleLightStep => OnIdleStep(s, now, o)
  }

  // The config_reload record sits inside the log switch: after an enable, before a disable.
  function OnReload(s: State, ts: nat, config: Config, excl: set<Pkg>, games: set<Pkg>): State {
    var wantLog := config.logEnabled && !s.policy.switches.noLogCli;
    var record := ConfigReload(ts, config, wantLog);
    s.(policy := s.policy.(config := config, userExclusions := excl, games := games),
       out := s.out + (if config == s.policy.config then []
                       else if wantLog then [LogSwitch(true), record]
                       else [record, LogSwitch(false)]))
  }

  function Step(s: State, i: Input, o: Answers): State {
    match i
    case Line(now, e) => Handle(Advance(s, now), e, now, o)
    case Reload(ts, config, excl, games) => OnReload(s, ts, config, excl, games)
  }
}
