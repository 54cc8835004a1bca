/** The twin PID indexes, through starts, deaths and opportunistic purging. */
module IndexLaws {
  import opened Prelude
  import opened Engine
  import opened ScanLaws
  import opened StepShape
  import opened Discovery

  // Every mapped PID is listed under its package.
  ghost predicate Mapped(x: Index) {
    forall p | p in x.pidToPkg :: x.pidToPkg[p] in x.pkgToPids && p in x.pkgToPids[x.pidToPkg[p]]
  }

  // Every listed PID is mapped to its package.
  ghost predicate Listed(x: Index) {
    forall k, p | k in x.pkgToPids && p in x.pkgToPids[k] :: p in x.pidToPkg && x.pidToPkg[p] == k
  }

  ghost predicate Inverse(x: Index) { Mapped(x) && Listed(x) }

  // A start event naming a PID still mapped to another package.
  predicate Reuses(x: Index, i: Input) {
    i.Line? && i.event.ProcStart? && i.event.pid in x.pidToPkg && x.pidToPkg[i.event.pid] != i.event.pkg
  }

  lemma ScanKeepsMapped(s: State, o: Answers, g: Gate)
    requires Sound(o) && Mapped(s.idx)
    ensures Mapped(ReconcileIndex(s, o, g))
  {
    var x := ReconcileIndex(s, o, g);
    forall p | p in x.pidToPkg ensures x.pidToPkg[p] in x.pkgToPids && p in x.pkgToPids[x.pidToPkg[p]] {
      var k := s.idx.pidToPkg[p];
      LivePidsFacts(s, o, k);
      assert p in PidsOf(s, k);
      if PassesGates(s, g, k) {
        assert o.rssKb(p) > 0;
        assert p in LivePids(s, o, k);
      }
    }
  }

  lemma ScanKeepsListed(s: State, o: Answers, g: Gate)
    requires Sound(o) && Inverse(s.idx)
    ensures Listed(ReconcileIndex(s, o, g))
  {
    var x := ReconcileIndex(s, o, g);
    forall k, p | k in x.pkgToPids && p in x.pkgToPids[k] ensures p in x.pidToPkg && x.pidToPkg[p] == k {
      assert p in s.idx.pkgToPids[k] && s.idx.pidToPkg[p] == k;
      forall j | j in s.alive && PassesGates(s, g, j) && p in PidsOf(s, j) ensures o.rssKb(p) > 0 {
        assert j == k && Evictable(s, o, g, k);
      }
    }
  }

  lemma StartKeepsMapped(s: State, pid: Pid, pkg: Pkg, uid: nat)
    requires Mapped(s.idx)
    ensures Mapped(IndexStart(s, pid, pkg, uid).idx)
  {
  }

  // Indexing a start keeps exact inverses precisely when the PID is not still mapped to
  // another package.
  lemma StartKeepsInverseIff(s: State, pid: Pid, pkg: Pkg, uid: nat)
    requires Inverse(s.idx)
    ensures Inverse(IndexStart(s, pid, pkg, uid).idx) <==> !(pid in s.idx.pidToPkg && s.idx.pidToPkg[pid] != pkg)
  {
    var x := IndexStart(s, pid, pkg, uid).idx;
    if pid in s.idx.pidToPkg && s.idx.pidToPkg[pid] != pkg {
      var k := s.idx.pidToPkg[pid];
      assert k in x.pkgToPids && pid in x.pkgToPids[k] && x.pidToPkg[pid] != k;
    }
  }

  lemma DeathKeepsMapped(s: State, pid: Pid)
    requires pid in s.idx.pidToPkg && Mapped(s.idx)
    ensures Mapped(Unindex(s, pid).idx)
    ensures Inverse(s.idx) ==> Inverse(Unindex(s, pid).idx)
  {
  }

  lemma PrepareIndex(s: State, i: Input, o: Answers)
    ensures Prepare(s, i, o).idx ==
            if i.Line? && i.event.ProcStart? then IndexStart(s, i.event.pid, i.event.pkg, i.event.uid).idx
            else if i.Line? && i.event.ProcDied? && i.event.pid in s.idx.pidToPkg then Unindex(s, i.event.pid).idx
            else s.idx
  {
    hide Focus, Admit, OnDied, OnScreen, Pass, Advance, Promote, Trampoline, PruneDeaths, Depart;
    if i.Line? {
      var a := Advance(s, i.now);
      AdvanceFrame(s, i.now);
      match i.event
      case ResumeActivity(pkg, component) => FocusFrame(a, pkg, component, i.now);
      case ProcStart(_, _, _, _, _) => AdmitFrame(a, i.event, o.startRssKb, i.now);
      case ProcDied(pid) => DiedFrame(a, pid, i.now);
      case ScreenToggled(on) => ScreenFrame(a, on, i.now);
      case _ =>
    }
  }

  lemma StepIndex(s: State, i: Input, o: Answers)
    ensures var p := Prepare(s, i, o);
      Step(s, i, o).idx == if Reaps(s, i) then ReconcileIndex(p, o, PassGate(p, o, i.now)) else p.idx
  {
    StepIs(s, i, o);
    if Reaps(s, i) { PassIs(Prepare(s, i, o), o, i.now); }
  }

  lemma StepKeepsIndex(s: State, i: Input, o: Answers)
    requires Sound(o) && Mapped(s.idx)
    ensures Mapped(Step(s, i, o).idx)
    ensures Inverse(s.idx) && !Reuses(s.idx, i) ==> Inverse(Step(s, i, o).idx)
  {
    var p := Prepare(s, i, o);
    StepIndex(s, i, o);
    PrepareIndex(s, i, o);
    if i.Line? && i.event.ProcStart? {
      StartKeepsMapped(s, i.event.pid, i.event.pkg, i.event.uid);
      if Inverse(s.idx) { StartKeepsInverseIff(s, i.event.pid, i.event.pkg, i.event.uid); }
    } else if i.Line? && i.event.ProcDied? && i.event.pid in s.idx.pidToPkg {
      DeathKeepsMapped(s, i.event.pid);
    }
    if Reaps(s, i) {
      ScanKeepsMapped(p, o, PassGate(p, o, i.now));
      if Inverse(p.idx) { ScanKeepsListed(p, o, PassGate(p, o, i.now)); }
    }
  }

  // In every reachable state, whatever was purged in between, every mapped PID is listed.
  lemma {:induction false} TwinIndexes(s: State, run: seq<Happening>)
    requires Mapped(s.idx) && AllSound(run)
    ensures Mapped(Run(s, run).idx)
  {
    if run != [] {
      var n := |run| - 1;
      assert run[n] in run;
      TwinIndexes(s, run[..n]);
      StepKeepsIndex(Run(s, run[..n]), run[n].input, run[n].answers);
    }
  }

  ghost predicate NeverReuses(s: State, run: seq<Happening>) {
    run != [] ==> NeverReuses(s, run[..|run| - 1]) && !Reuses(Run(s, run[..|run| - 1]).idx, run[|run| - 1].input)
  }

  // And the two maps are exact inverses as long as no start reuses a mapped PID.
  lemma {:induction false} ExactInverses(s: State, run: seq<Happening>)
    requires Inverse(s.idx) && AllSound(run) && NeverReuses(s, run)
    ensures Inverse(Run(s, run).idx)
  {
    if run != [] {
      var n := |run| - 1;
      assert run[n] in run;
      ExactInverses(s, run[..n]);
      StepKeepsIndex(Run(s, run[..n]), run[n].input, run[n].answers);
    }
  }

  lemma SeedingKeepsInverse(t: Index, e: Seeded)
    requires Inverse(t) && e.pid !in t.pidToPkg
    ensures Inverse(SeedOne(t, e))
  {
  }

  // The cold-start sweep lists every PID once, so it starts from exact inverses.
  lemma {:induction false} SeedIsInverse(entries: seq<Seeded>)
    requires forall m, n | 0 <= m < n < |entries| :: entries[m].pid != entries[n].pid
    ensures var x := Seed(Index(map[], map[], map[]), entries);
      Inverse(x) && forall p | p in x.pidToPkg :: exists m :: 0 <= m < |entries| && entries[m].pid == p
  {
    if entries != [] {
      var n := |entries| - 1;
      SeedIsInverse(entries[..n]);
      SeedingKeepsInverse(Seed(Index(map[], map[], map[]), entries[..n]), entries[n]);
    }
  }

  lemma PidsDiffer(ds: seq<Seeded>, m: nat, n: nat)
    requires NoDup(PidsIn(ds)) && m < n < |ds|
    ensures ds[m].pid != ds[n].pid
  {
    assert PidsIn(ds)[m] != PidsIn(ds)[n];
  }

  // So does the sweep itself, over any directory listing.
  lemma SweepIsInverse(entries: seq<ProcEntry>)
    requires forall m, n | 0 <= m < n < |entries| :: entries[m].pid != entries[n].pid
    ensures Inverse(Seed(Index(map[], map[], map[]), AllDiscovered(entries)))
  {
    hide Seed, Inverse;
    var ds := AllDiscovered(entries);
    DiscoveredOnce(entries);
    forall m, n | 0 <= m < n < |ds| ensures ds[m].pid != ds[n].pid { PidsDiffer(ds, m, n); }
    SeedIsInverse(ds);
  }
}
