/** Who a pass may decide about and under which thresholds, read off the daemon's tables and
    the figures of its documentation; and what the record of a decision says. */
module ExposureLaws {
  import opened Prelude
  import opened Engine
  import opened ScanLaws
  import opened StepShape
  import DrainLaws

  // --- thresholds --------------------------------------------------------------------------------

  // A game has the focus, or memory is low by the configured percentage and 0 switches that off.
  predicate Emergency(s: State, o: Answers) {
    || (exists g :: s.fg == Some(g) && g in s.policy.games)
    || (s.policy.config.memCriticalPercent > 0 && o.memCritical(s.policy.config.memCriticalPercent))
  }

  predicate Harvest(s: State) { !s.screenOn && s.policy.config.screenOffHarvest }

  // The screen has been off for more than a minute, in whole seconds.
  predicate LongOff(s: State, now: nat) {
    s.timers.screenOffStart.Some? && s.timers.screenOffStart.value + 61_000 <= now
  }

  // The foreground package has been in place for more than five minutes, in whole seconds.
  predicate LongSession(s: State, now: nat) {
    exists g :: s.fg == Some(g) && g in s.alive && s.alive[g] + 301_000 <= now
  }

  // The idle time asked for: the configured one, cut to 10, 30 or 60 seconds.
  function IdleLimit(s: State, o: Answers, now: nat): nat {
    var t := s.policy.config.tIdleSec;
    if Emergency(s, o) then if t > 10 then 10 else t
    else if Harvest(s) && LongOff(s, now) then if t > 30 then 30 else t
    else if Harvest(s) || LongSession(s, now) then if t > 60 then 60 else t
    else t
  }

  // How many recent foregrounds are protected: at most one while harvesting.
  function Shelter(s: State): nat {
    var d := s.policy.config.lruProtectDepth;
    if Harvest(s) && d > 1 then 1 else d
  }

  lemma WholeSeconds(from: nat, now: nat, n: nat)
    ensures SatSub(now, from) / 1000 > n <==> from + 1000 * (n + 1) <= now
  {
  }

  lemma EmergencyIs(s: State, o: Answers)
    ensures Emergency(s, o) <==> IsGameFg(s) || LowMem(s, o)
  {
    if s.fg.Some? { assert s.fg == Some(s.fg.value); }
  }

  lemma SessionIs(s: State, now: nat)
    ensures LongSession(s, now) <==> SecondsSince(FgAnchor(s), now) > 300
  {
    if s.fg.Some? && s.fg.value in s.alive {
      WholeSeconds(s.alive[s.fg.value], now, 300);
      assert s.fg == Some(s.fg.value);
    }
  }

  lemma OffIs(s: State, now: nat)
    ensures LongOff(s, now) <==> SecondsSince(s.timers.screenOffStart, now) > 60
  {
    if s.timers.screenOffStart.Some? { WholeSeconds(s.timers.screenOffStart.value, now, 60); }
  }

  // The thresholds of a pass are exactly those.
  lemma ThresholdsAre(s: State, o: Answers, now: nat)
    ensures PassGate(s, o, now) == Gate(now, IdleLimit(s, o, now), Shelter(s))
  {
    hide IsGameFg, LowMem, Emergency, FgAnchor, SecondsSince, LongSession, LongOff;
    EmergencyIs(s, o);
    SessionIs(s, now);
    OffIs(s, now);
  }

  // --- candidates --------------------------------------------------------------------------------

  // Aged, on neither exclusion list, not in front, not recently in front, idle for long
  // enough, and some process of it resident.
  ghost predicate Exposed(s: State, o: Answers, now: nat, k: Pkg) {
    && k in s.alive && k !in s.policy.userExclusions && k !in s.policy.dynamicExclusions && s.fg != Some(k)
    && (forall n | 0 <= n < |s.lru| && n < Shelter(s) :: s.lru[n] != k)
    && 1000 * IdleLimit(s, o, now) <= (if now > s.alive[k] then now - s.alive[k] else 0)
    && exists p :: k in s.idx.pkgToPids && p in s.idx.pkgToPids[k] && o.rssKb(p) > 0
  }

  lemma FirstPlaces(lru: seq<Pkg>, k: Pkg, depth: nat)
    requires |lru| <= 0xFFFF_FFFF_FFFF_FFFF && depth <= 0xFFFF_FFFF_FFFF_FFFF
    ensures LruPos(lru, k) >= depth <==> forall n | 0 <= n < |lru| && n < depth :: lru[n] != k
  {
    var at := Position(lru, k);
    if at.Some? && at.value >= depth {
      forall n | 0 <= n < |lru| && n < depth ensures lru[n] != k { assert lru[n] == lru[..at.value][n]; }
    }
  }

  lemma IdleFor(now: nat, from: nat, sec: nat)
    ensures SatSub(now, from) / 1000 >= sec <==> 1000 * sec <= if now > from then now - from else 0
  {
  }

  // The scan lists exactly the exposed packages, within the machine's index range.
  lemma ListedIff(s: State, o: Answers, now: nat, k: Pkg)
    requires Sound(o) && |s.lru| <= 0xFFFF_FFFF_FFFF_FFFF && s.policy.config.lruProtectDepth <= 0xFFFF_FFFF_FFFF_FFFF
    ensures Lists(Candidates(s, o, PassGate(s, o, now)), k) <==> Exposed(s, o, now, k)
  {
    hide Candidates, LruPos, IdleLimit, Shelter, EffectiveIdle, EffectiveDepth;
    ScanExact(s, o, PassGate(s, o, now));
    ThresholdsAre(s, o, now);
    ShelterFits(s);
    FirstPlaces(s.lru, k, Shelter(s));
    if k in s.alive { IdleFor(now, s.alive[k], IdleLimit(s, o, now)); }
  }

  lemma ShelterFits(s: State)
    ensures Shelter(s) <= s.policy.config.lruProtectDepth
  {
  }

  // --- decisions -----------------------------------------------------------------------------------

  // Who a decision names, for any index range: exposed but for the place in the history.
  lemma DecidedIsExposed(s: State, i: Input, o: Answers, r: KillRecord)
    requires i.Line? && Sound(o) && r in Decisions(s, i, o)
    ensures var p := Prepare(s, i, o);
      && r.pkg in p.alive && r.pkg !in p.policy.userExclusions && r.pkg !in p.policy.dynamicExclusions
      && p.fg != Some(r.pkg) && (forall n | 0 <= n < |p.lru| && n < Shelter(p) :: p.lru[n] != r.pkg)
      && 1000 * IdleLimit(p, o, i.now) <= (if i.now > p.alive[r.pkg] then i.now - p.alive[r.pkg] else 0)
  {
    hide Prepare, Decisions, LivePids, Chosen, LruPos, IdleLimit, Shelter, EffectiveIdle, EffectiveDepth;
    var p := Prepare(s, i, o);
    DecisionFacts(s, i, o, r);
    ThresholdsAre(p, o, i.now);
    IdleFor(i.now, p.alive[r.pkg], IdleLimit(p, o, i.now));
    NotInFront(p.lru, r.pkg, Shelter(p));
  }

  lemma NotInFront(lru: seq<Pkg>, k: Pkg, depth: nat)
    requires LruPos(lru, k) >= depth
    ensures forall n | 0 <= n < |lru| && n < depth :: lru[n] != k
  {
    var at := Position(lru, k);
    if at.Some? {
      forall n | 0 <= n < |lru| && n < depth ensures lru[n] != k { assert lru[n] == lru[..at.value][n]; }
    }
  }

  // On no run does a decision name a package the user excluded.
  lemma DecidedIsNotExcluded(s: State, run: seq<Happening>, h: Happening, r: KillRecord)
    requires Sound(h.answers) && h.input.Line? && r in Decisions(Run(s, run), h.input, h.answers)
    ensures r.pkg !in Run(s, run).policy.userExclusions
  {
    hide Run, Prepare, Decisions, Sound;
    DecidedIsExposed(Run(s, run), h.input, h.answers, r);
    PreparePolicy(Run(s, run), h.input, h.answers);
  }

  // The lowest OOM score of some processes, an unreadable one counting as 0.
  ghost predicate IsLowestAdj(adj: int, o: Answers, pids: seq<Pid>) {
    && (forall p | p in pids :: adj <= o.adj(p).GetOr(0))
    && exists p :: p in pids && adj == o.adj(p).GetOr(0)
  }

  // What a record states is so: the time, the resident processes and their memory, the idle
  // time in whole seconds, the place in the history (2^64-1 when absent), the lowest OOM
  // score, whether that protects, and why the thresholds were what they were.
  ghost predicate Accurate(p: State, o: Answers, now: nat, r: KillRecord) {
    && r.ts == now && r.pkg in p.alive
    && Enumerates(r.pids, set q | r.pkg in p.idx.pkgToPids && q in p.idx.pkgToPids[r.pkg] && o.rssKb(q) > 0)
    && r.rssFreedEstKb == SumBy(r.pids, o.rssKb)
    && r.idleSec == (if now > p.alive[r.pkg] then now - p.alive[r.pkg] else 0) / 1000
    && (if r.pkg in p.lru then r.lruPos < |p.lru| && p.lru[r.lruPos] == r.pkg else r.lruPos == 0xFFFF_FFFF_FFFF_FFFF)
    && IsLowestAdj(r.oomScoreAdj, o, r.pids) && (r.amsProtected <==> r.oomScoreAdj < p.policy.config.minOomScoreAdj)
    && (r.reason == GameModeEscalation <==> exists g :: p.fg == Some(g) && g in p.policy.games)
    && (r.reason == IdleExpired <==> !Emergency(p, o))
  }

  lemma ReasonIs(p: State, o: Answers, now: nat)
    ensures var i := InfoOf(p, o, now); var reason := KillReason(i.isGame, i.lowMem);
      && (reason == GameModeEscalation <==> exists g :: p.fg == Some(g) && g in p.policy.games)
      && (reason == IdleExpired <==> !Emergency(p, o))
  {
    EmergencyIs(p, o);
    if p.fg.Some? { assert p.fg == Some(p.fg.value); }
  }

  lemma PlaceIs(lru: seq<Pkg>, k: Pkg)
    ensures var at := LruPos(lru, k);
      if k in lru then at < |lru| && lru[at] == k else at == 0xFFFF_FFFF_FFFF_FFFF
  {
  }

  lemma RecordIsAccurate(s: State, i: Input, o: Answers, r: KillRecord)
    requires i.Line? && Sound(o) && r in Decisions(s, i, o)
    ensures Accurate(Prepare(s, i, o), o, i.now, r)
  {
    hide Prepare, Candidates, KillReason, LruPos, MinAdj, Emergency, CarriedOut, PassGate;
    var p := Prepare(s, i, o);
    var g, info := PassGate(p, o, i.now), InfoOf(p, o, i.now);
    var cs := Chosen(p, o, i.now);
    var n :| 0 <= n < |cs| && r == RecordOf(p.policy, o, cs[n], info);
    GreedyChoice(p, o, i.now);
    ScanExact(p, o, g);
    assert cs[n] in cs;
    RssIsSum(o, r.pids);
    PlaceIs(p.lru, r.pkg);
    DrainLaws.MinAdjIs(o, r.pids);
    ReasonIs(p, o, i.now);
    GateNow(p, o, i.now);
  }

  lemma GateNow(p: State, o: Answers, now: nat)
    ensures PassGate(p, o, now).now == now
  {
  }
}
