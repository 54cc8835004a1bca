/** Repeated passes at one moment: what a pass removes from the candidate set, and how many
    passes empty it. */
module DrainLaws {
  import opened Prelude
  import opened Engine
  import opened ScanLaws
  import opened StepShape

  // The packages a pass at this moment would have to choose from.
  ghost function CandidateSet(s: State, o: Answers, now: nat): set<Pkg> {
    set k | k in s.alive && Eligible(s, o, PassGate(s, o, now), k)
  }

  // Memory and pressure frozen; OOM scores, hash iteration order, signals and spawns free.
  ghost predicate SameReadings(o1: Answers, o2: Answers) {
    && SameRss(o1, o2)
    && forall pct :: o1.memCritical(pct) == o2.memCritical(pct)
  }

  // Dispatching never touches the foreground package, so the thresholds stay put.
  lemma PassKeepsGate(s: State, o: Answers, o': Answers, now: nat)
    requires Sound(o) && SameReadings(o, o')
    ensures PassGate(Pass(s, o, now), o', now) == PassGate(s, o, now)
  {
    PassIs(s, o, now);
    if s.fg.Some? {
      PassLeaves(s, o, now, s.fg.value);
      assert FgAnchor(Pass(s, o, now)) == FgAnchor(s);
    }
  }

  lemma SpentIsChosen(s: State, o: Answers, now: nat)
    ensures SpentSet(s, o, now) <= ChosenSet(s, o, now)
  {
    hide Chosen, PassGate, Protected;
  }

  lemma PassKeepsOrSpends(s: State, o: Answers, o': Answers, now: nat, k: Pkg)
    requires Sound(o) && SameReadings(o, o')
    ensures k in CandidateSet(Pass(s, o, now), o', now) <==> k in CandidateSet(s, o, now) && k !in SpentSet(s, o, now)
  {
    hide SpentSet, ChosenSet, Pass, EffectiveIdle, EffectiveDepth, LruPos;
    var t := Pass(s, o, now);
    PassIs(s, o, now);
    PassKeepsGate(s, o, o', now);
    PassLeaves(s, o, now, k);
    SpentIsChosen(s, o, now);
    if k in CandidateSet(s, o, now) && k !in SpentSet(s, o, now) {
      var p :| p in PidsOf(s, k) && o.rssKb(p) > 0;
      assert p in PidsOf(t, k) && o'.rssKb(p) > 0;
    }
  }

  // With the readings frozen, a pass takes out of the candidate set exactly the chosen
  // packages, except protected ones under a zero idle threshold; it never adds one.
  lemma PassExact(s: State, o: Answers, o': Answers, now: nat)
    requires Sound(o) && SameReadings(o, o')
    ensures CandidateSet(Pass(s, o, now), o', now) == CandidateSet(s, o, now) - SpentSet(s, o, now)
  {
    hide CandidateSet, SpentSet, Pass, Sound, SameReadings;
    forall k
      ensures k in CandidateSet(Pass(s, o, now), o', now) <==> k in CandidateSet(s, o, now) && k !in SpentSet(s, o, now)
    {
      PassKeepsOrSpends(s, o, o', now, k);
    }
  }

  // A pass makes progress unless there is nothing to choose, or the threshold is zero and
  // every chosen package is protected: then it would choose among the same set for ever.
  lemma ProgressIff(s: State, o: Answers, o': Answers, now: nat)
    requires Sound(o) && SameReadings(o, o')
    ensures CandidateSet(Pass(s, o, now), o', now) != CandidateSet(s, o, now)
            <==> exists c :: c in Chosen(s, o, now) && (PassGate(s, o, now).idleSec >= 1 || !Protected(s.policy, o, c))
  {
    PassExact(s, o, o', now);
    var spent := SpentSet(s, o, now);
    forall k | k in spent ensures k in CandidateSet(s, o, now) { PassLeaves(s, o, now, k); }
    if c :| c in Chosen(s, o, now) && (PassGate(s, o, now).idleSec >= 1 || !Protected(s.policy, o, c)) {
      assert c.pkg in spent;
    }
  }

  // --- how many passes ---------------------------------------------------------------------------

  lemma {:induction false} NameCount(cs: seq<Candidate>)
    requires OncePerPkg(cs)
    ensures |NameSet(cs)| == |cs|
  {
    if cs == [] {
      assert NameSet(cs) == {};
    } else {
      var n := |cs| - 1;
      NameCount(cs[..n]);
      assert cs == cs[..n] + [cs[n]];
      assert NameSet(cs) == NameSet(cs[..n]) + {cs[n].pkg};
    }
  }

  lemma CandidateCount(s: State, o: Answers, now: nat)
    requires Sound(o)
    ensures |CandidateSet(s, o, now)| == |Candidates(s, o, PassGate(s, o, now))|
  {
    var all := Candidates(s, o, PassGate(s, o, now));
    ScanExact(s, o, PassGate(s, o, now));
    NameCount(all);
    forall k ensures k in NameSet(all) <==> k in CandidateSet(s, o, now) { NamesAreListed(all, k); }
    assert NameSet(all) == CandidateSet(s, o, now);
  }

  lemma SpentCount(s: State, o: Answers, now: nat)
    requires Sound(o) && s.policy.config.tIdleSec >= 1
    ensures SpentSet(s, o, now) <= CandidateSet(s, o, now)
    ensures |SpentSet(s, o, now)| == Min(s.policy.config.maxKillsPerPass, |CandidateSet(s, o, now)|)
  {
    GreedyChoice(s, o, now);
    NameCount(Chosen(s, o, now));
    CandidateCount(s, o, now);
    assert SpentSet(s, o, now) == NameSet(Chosen(s, o, now));
    forall k | k in SpentSet(s, o, now) ensures k in CandidateSet(s, o, now) { PassLeaves(s, o, now, k); }
  }

  lemma PassTakesBurst(s: State, o: Answers, o': Answers, now: nat)
    requires Sound(o) && SameReadings(o, o') && s.policy.config.tIdleSec >= 1
    ensures |CandidateSet(Pass(s, o, now), o', now)|
            == SatSub(|CandidateSet(s, o, now)|, s.policy.config.maxKillsPerPass)
  {
    PassExact(s, o, o', now);
    SpentCount(s, o, now);
    var all, spent := CandidateSet(s, o, now), SpentSet(s, o, now);
    assert |all - spent| == |all| - |spent|;
  }

  function PassMany(s: State, os: seq<Answers>, now: nat): State {
    if os == [] then s else Pass(PassMany(s, os[..|os| - 1], now), os[|os| - 1], now)
  }

  // n passes with frozen readings leave exactly max(0, |C| - n * cap) candidates, protected
  // packages included: nothing starves, and ceil(|C| / cap) passes reach an empty set.
  lemma {:induction false} DrainExact(s: State, os: seq<Answers>, o: Answers, now: nat)
    requires Sound(o) && s.policy.config.tIdleSec >= 1
    requires forall a | a in os :: Sound(a) && SameReadings(a, o)
    ensures |CandidateSet(PassMany(s, os, now), o, now)|
            == SatSub(|CandidateSet(s, o, now)|, |os| * s.policy.config.maxKillsPerPass)
    ensures PassMany(s, os, now).policy == s.policy
  {
    if os != [] {
      var n := |os| - 1;
      var cap := s.policy.config.maxKillsPerPass;
      var t := PassMany(s, os[..n], now);
      DrainExact(s, os[..n], o, now);
      PassTakesBurst(t, os[n], o, now);
      PassKeepsPolicy(t, os[n], now);
      ReadingsDecide(t, os[n], o, now);
      OneMoreBurst(|CandidateSet(s, o, now)|, n, cap);
    }
  }

  lemma PassKeepsPolicy(s: State, o: Answers, now: nat)
    ensures Pass(s, o, now).policy == s.policy
  {
    PassIs(s, o, now);
  }

  lemma OneMoreBurst(c: nat, n: nat, cap: nat)
    ensures 0 <= n * cap && SatSub(SatSub(c, n * cap), cap) == SatSub(c, (n + 1) * cap)
  {
    assert (n + 1) * cap == n * cap + cap;
  }

  lemma ReadingsDecide(s: State, o1: Answers, o2: Answers, now: nat)
    requires SameReadings(o1, o2)
    ensures CandidateSet(s, o1, now) == CandidateSet(s, o2, now)
  {
    forall k ensures k in CandidateSet(s, o1, now) <==> k in CandidateSet(s, o2, now) {
      assert PassGate(s, o1, now) == PassGate(s, o2, now);
    }
  }

  // --- starvation under a zero threshold ---------------------------------------------------------

  // OOM scores frozen as well.
  ghost predicate Frozen(o1: Answers, o2: Answers) { SameReadings(o1, o2) && forall p :: o1.adj(p) == o2.adj(p) }

  predicate Shielded(s: State, o: Answers, k: Pkg) { MinAdj(o, LivePids(s, o, k)) < s.policy.config.minOomScoreAdj }

  function Weight(s: State, o: Answers, k: Pkg): nat { RssSum(o, LivePids(s, o, k)) }

  // A candidate stands behind the heavy ones: there are enough of those to use up every burst.
  ghost predicate Behind(s: State, o: Answers, heavy: set<Pkg>, k: Pkg) {
    |heavy| >= s.policy.config.maxKillsPerPass && forall h | h in heavy :: Weight(s, o, h) > Weight(s, o, k)
  }

  // Under a zero threshold, protected candidates with every unprotected one behind them.
  ghost predicate Blocked(s: State, o: Answers, now: nat, heavy: set<Pkg>) {
    && PassGate(s, o, now).idleSec == 0 && heavy <= CandidateSet(s, o, now)
    && (forall h | h in heavy :: Shielded(s, o, h))
    && forall k | k in CandidateSet(s, o, now) && !Shielded(s, o, k) :: Behind(s, o, heavy, k)
  }

  lemma ChosenAreCandidates(s: State, o: Answers, now: nat, c: Candidate)
    requires Sound(o) && c in Chosen(s, o, now)
    ensures c.pkg in CandidateSet(s, o, now) && c == CandidateOf(s, o, PassGate(s, o, now), c.pkg)
    ensures c.totalRssKb == Weight(s, o, c.pkg) && (Protected(s.policy, o, c) <==> Shielded(s, o, c.pkg))
  {
    GreedyChoice(s, o, now);
    CandidatesAre(s, o, PassGate(s, o, now));
    EvictableIsEligible(s, o, PassGate(s, o, now), c.pkg);
  }

  lemma HeavierIsChosen(s: State, o: Answers, now: nat, c: Candidate, h: Pkg)
    requires Sound(o) && c in Chosen(s, o, now) && h in CandidateSet(s, o, now) && Weight(s, o, h) > c.totalRssKb
    ensures h in ChosenSet(s, o, now)
  {
    var g := PassGate(s, o, now);
    GreedyChoice(s, o, now);
    CandidatesAre(s, o, g);
    EvictableIsEligible(s, o, g, h);
    assert CandidateOf(s, o, g, h) in Chosen(s, o, now);
  }

  // A blocked pass chooses protected packages only.
  lemma BlockedChoosesProtected(s: State, o: Answers, now: nat, heavy: set<Pkg>, c: Candidate)
    requires Sound(o) && Blocked(s, o, now, heavy) && c in Chosen(s, o, now)
    ensures Protected(s.policy, o, c)
  {
    hide Candidates, Chosen, CandidateSet, Weight, Shielded, PassGate;
    ChosenAreCandidates(s, o, now, c);
    GreedyChoice(s, o, now);
    var names := ChosenSet(s, o, now);
    NameCount(Chosen(s, o, now));
    assert c.pkg in names;
    if !Shielded(s, o, c.pkg) {
      assert Behind(s, o, heavy, c.pkg) && c.pkg !in heavy;
      forall h | h in heavy ensures h in names { HeavierIsChosen(s, o, now, c, h); }
      SubsetIsSmaller(heavy + {c.pkg}, names);
      assert false;
    }
  }

  lemma BlockedSpendsNothing(s: State, o: Answers, now: nat, heavy: set<Pkg>)
    requires Sound(o) && Blocked(s, o, now, heavy)
    ensures SpentSet(s, o, now) == {}
  {
    forall c | c in Chosen(s, o, now) ensures Protected(s.policy, o, c) {
      BlockedChoosesProtected(s, o, now, heavy, c);
    }
  }

  lemma {:induction false} MinAdjIs(o: Answers, q: seq<Pid>)
    requires q != []
    ensures (forall p | p in q :: MinAdj(o, q) <= o.adj(p).GetOr(0))
    ensures exists p :: p in q && MinAdj(o, q) == o.adj(p).GetOr(0)
  {
    var n := |q| - 1;
    assert q[n] in q;
    if n > 0 {
      MinAdjIs(o, q[..n]);
      assert q == q[..n] + [q[n]];
    }
  }

  lemma MinAdjIgnoresOrder(o1: Answers, o2: Answers, a: seq<Pid>, b: seq<Pid>)
    requires Frozen(o1, o2) && a != [] && forall p :: p in a <==> p in b
    ensures MinAdj(o1, a) == MinAdj(o2, b)
  {
    assert a[0] in b;
    MinAdjIs(o1, a);
    MinAdjIs(o2, b);
  }

  // A package whose live PIDs a pass leaves alone keeps its weight and its protection.
  lemma SameStanding(s: State, t: State, o1: Answers, o2: Answers, k: Pkg)
    requires Sound(o1) && Sound(o2) && Frozen(o1, o2) && t.policy == s.policy && LivePids(s, o1, k) != []
    requires forall p :: (p in PidsOf(t, k) && o2.rssKb(p) > 0) <==> (p in PidsOf(s, k) && o1.rssKb(p) > 0)
    ensures Weight(t, o2, k) == Weight(s, o1, k) && (Shielded(t, o2, k) <==> Shielded(s, o1, k))
  {
    var a, b := LivePids(s, o1, k), LivePids(t, o2, k);
    LivePidsFacts(s, o1, k);
    LivePidsFacts(t, o2, k);
    MinAdjIgnoresOrder(o1, o2, a, b);
    RssIsSum(o1, a);
    RssIsSum(o2, b);
    SumAgrees(b, o1.rssKb, o2.rssKb);
    SumIgnoresOrder(a, b, o1.rssKb);
  }

  lemma StandingKept(s: State, o: Answers, o': Answers, now: nat, k: Pkg)
    requires Sound(o) && Sound(o') && Frozen(o, o') && k in CandidateSet(s, o, now)
    ensures var t := Pass(s, o, now); Weight(t, o', k) == Weight(s, o, k) && (Shielded(t, o', k) <==> Shielded(s, o, k))
  {
    hide Pass, PassGate, Weight, Shielded;
    PassLeaves(s, o, now, k);
    PassKeepsPolicy(s, o, now);
    LivePidsFacts(s, o, k);
    SameStanding(s, Pass(s, o, now), o, o', k);
  }

  lemma BlockedStays(s: State, o: Answers, o': Answers, now: nat, heavy: set<Pkg>)
    requires Sound(o) && Sound(o') && Frozen(o, o') && Blocked(s, o, now, heavy)
    ensures Blocked(Pass(s, o, now), o', now, heavy)
    ensures CandidateSet(Pass(s, o, now), o', now) == CandidateSet(s, o, now)
  {
    hide CandidateSet, SpentSet, Weight, Shielded, Pass, PassGate;
    BlockedSpendsNothing(s, o, now, heavy);
    PassExact(s, o, o', now);
    PassKeepsGate(s, o, o', now);
    PassKeepsPolicy(s, o, now);
    forall k | k in CandidateSet(s, o, now)
      ensures Weight(Pass(s, o, now), o', k) == Weight(s, o, k)
      ensures Shielded(Pass(s, o, now), o', k) <==> Shielded(s, o, k)
    {
      StandingKept(s, o, o', now, k);
    }
  }

  // Then no number of passes changes the candidate set, whatever the iteration orders, and none
  // of them ever dispatches an unprotected package.
  lemma {:induction false} BlockedForEver(s: State, os: seq<Answers>, o: Answers, now: nat, heavy: set<Pkg>)
    requires Sound(o) && Blocked(s, o, now, heavy) && forall a | a in os :: Sound(a) && Frozen(a, o)
    ensures var t := PassMany(s, os, now);
      && CandidateSet(t, o, now) == CandidateSet(s, o, now) && Blocked(t, o, now, heavy)
      && forall c | c in Chosen(t, o, now) :: Protected(t.policy, o, c)
  {
    hide CandidateSet, Blocked, Pass, Frozen, Chosen;
    if os != [] {
      var n := |os| - 1;
      var t := PassMany(s, os[..n], now);
      BlockedForEver(s, os[..n], o, now, heavy);
      FrozenBlocks(t, o, os[n], now, heavy);
      BlockedStays(t, os[n], o, now, heavy);
      FrozenBlocks(t, o, os[n], now, heavy);
    }
    forall c | c in Chosen(PassMany(s, os, now), o, now) ensures Protected(PassMany(s, os, now).policy, o, c) {
      BlockedChoosesProtected(PassMany(s, os, now), o, now, heavy, c);
    }
  }

  lemma FrozenBlocks(s: State, o: Answers, o': Answers, now: nat, heavy: set<Pkg>)
    requires Sound(o) && Sound(o') && Frozen(o', o) && Blocked(s, o, now, heavy)
    ensures Blocked(s, o', now, heavy) && CandidateSet(s, o', now) == CandidateSet(s, o, now) && Frozen(o, o')
  {
    hide CandidateSet, Weight, Shielded;
    ReadingsDecide(s, o', o, now);
    assert PassGate(s, o', now) == PassGate(s, o, now);
    forall k | k in CandidateSet(s, o, now)
      ensures Weight(s, o', k) == Weight(s, o, k) && (Shielded(s, o', k) <==> Shielded(s, o, k))
    {
      CandidatesHaveLive(s, o, now, k);
      SameStanding(s, s, o, o', k);
    }
  }

  lemma CandidatesHaveLive(s: State, o: Answers, now: nat, k: Pkg)
    requires Sound(o) && k in CandidateSet(s, o, now)
    ensures LivePids(s, o, k) != []
  {
    LivePidsFacts(s, o, k);
  }

  // --- it happens --------------------------------------------------------------------------------

  const SPAWN: Input := Line(1_700_000_000_000, ProcStart("app.a", "app.a", "service", 7, APP_UID_MIN))

  lemma SpawnTables(sw: Switches, config: Config, o: Answers)
    ensures var p := Prepare(Boot(sw, config, true, SPAWN.now), SPAWN, o);
      && p.alive == map["app.a" := SPAWN.now] && PidsOf(p, "app.a") == {7} && p.fg == None && p.lru == []
      && p.policy == Policy(sw, config, {}, {}, {}) && p.screenOn
  {
    hide Admit;
    var s := Boot(sw, config, true, SPAWN.now);
    AdmitFrame(s, SPAWN.event, o.startRssKb, SPAWN.now);
    assert Advance(s, SPAWN.now) == s;
  }

  // One background start under a zero threshold, its OOM score unreadable.
  lemma SpawnIsBlocked(sw: Switches, config: Config, o: Answers)
    requires Sound(o) && o.rssKb(7) > 0 && o.adj(7) == None
    requires config.tIdleSec == 0 && config.lruProtectDepth <= USIZE_MAX && config.minOomScoreAdj > 0
    ensures var p := Prepare(Boot(sw, config, true, SPAWN.now), SPAWN, o);
      Blocked(p, o, SPAWN.now, {"app.a"}) && CandidateSet(p, o, SPAWN.now) == {"app.a"}
  {
    hide Prepare, PidsOf, Weight;
    var p := Prepare(Boot(sw, config, true, SPAWN.now), SPAWN, o);
    SpawnTables(sw, config, o);
    LivePidsFacts(p, o, "app.a");
    MinAdjIs(o, LivePids(p, o, "app.a"));
    assert 7 in PidsOf(p, "app.a") && Eligible(p, o, PassGate(p, o, SPAWN.now), "app.a");
  }

  // From boot: after that start, any number of passes at that moment leaves the package a
  // candidate, and every one of them chooses nothing but protected packages.
  lemma ZeroThresholdStalls(sw: Switches, config: Config, o: Answers, os: seq<Answers>)
    requires Sound(o) && o.rssKb(7) > 0 && o.adj(7) == None && forall a | a in os :: Sound(a) && Frozen(a, o)
    requires config.tIdleSec == 0 && config.lruProtectDepth <= USIZE_MAX && config.minOomScoreAdj > 0
    ensures var t := PassMany(Step(Boot(sw, config, true, SPAWN.now), SPAWN, o), os, SPAWN.now);
      && CandidateSet(t, o, SPAWN.now) == {"app.a"}
      && forall c | c in Chosen(t, o, SPAWN.now) :: Protected(t.policy, o, c)
  {
    hide CandidateSet, Blocked, Pass, Prepare, Chosen, Step, Frozen;
    var s := Boot(sw, config, true, SPAWN.now);
    SpawnIsBlocked(sw, config, o);
    StepIs(s, SPAWN, o);
    FrozenItself(o);
    BlockedStays(Prepare(s, SPAWN, o), o, o, SPAWN.now, {"app.a"});
    BlockedForEver(Step(s, SPAWN, o), os, o, SPAWN.now, {"app.a"});
  }

  lemma FrozenItself(o: Answers)
    ensures Frozen(o, o)
  {
  }
}
