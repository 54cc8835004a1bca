/** What one scan returns and what it purges, for every hash iteration order. */
module ScanLaws {
  import opened Prelude
  import opened Engine

  // --- sound answers exist ----------------------------------------------------------------------

  ghost function Listing<T(!new)>(elems: set<T>): (q: seq<T>)
    ensures Enumerates(q, elems)
  {
    if elems == {} then [] else
      var x :| x in elems;
      var rest := Listing(elems - {x});
      [x] + rest
  }

  // Whatever procfs, the pressure probe, kill(2) and the spawner answer, there is a sound
  // world that answers so.
  lemma SoundWorldExists(o: Answers)
    requires forall k :: o.spawn(k) >= -1
    ensures exists w: Answers :: Sound(w) && w == o.(pkgOrder := w.pkgOrder, pidOrder := w.pidOrder)
  {
    var w := o.(pkgOrder := (ks: set<Pkg>) => Listing(ks), pidOrder := (ps: set<Pid>) => Listing(ps));
    assert Sound(w);
  }

  // --- the live PIDs of a package --------------------------------------------------------

  lemma {:induction false} LiveMembers(o: Answers, q: seq<Pid>)
    ensures forall p :: p in Live(o, q) <==> p in q && o.rssKb(p) > 0
  {
    if q != [] {
      LiveMembers(o, q[..|q| - 1]);
      assert q == q[..|q| - 1] + [q[|q| - 1]];
    }
  }

  lemma {:induction false} LiveOnce(o: Answers, q: seq<Pid>)
    requires NoDup(q)
    ensures NoDup(Live(o, q))
  {
    if q != [] {
      var n := |q| - 1;
      LiveOnce(o, q[..n]);
      LiveMembers(o, q[..n]);
    }
  }

  lemma {:induction false} LiveSum(o: Answers, q: seq<Pid>)
    ensures RssSum(o, Live(o, q)) == RssSum(o, q)
    ensures (RssSum(o, q) > 0) == (Live(o, q) != [])
  {
    if q != [] {
      var n := |q| - 1;
      LiveSum(o, q[..n]);
      var l := Live(o, q[..n]);
      if o.rssKb(q[n]) > 0 {
        assert (l + [q[n]])[..|l|] == l;
      } else {
        assert l + [] == l;
      }
    }
  }

  lemma LivePidsFacts(s: State, o: Answers, k: Pkg)
    requires Sound(o)
    ensures forall p :: p in LivePids(s, o, k) <==> p in PidsOf(s, k) && o.rssKb(p) > 0
    ensures NoDup(LivePids(s, o, k))
    ensures (RssSum(o, LivePids(s, o, k)) > 0) == (LivePids(s, o, k) != [])
  {
    var q := o.pidOrder(PidsOf(s, k));
    LiveMembers(o, q);
    LiveOnce(o, q);
    LiveSum(o, q);
  }

  // --- collection --------------------------------------------------------------------------

  ghost predicate OncePerPkg(cs: seq<Candidate>) {
    forall i, j | 0 <= i < j < |cs| :: cs[i].pkg != cs[j].pkg
  }

  lemma {:induction false} CollectFacts(s: State, o: Answers, g: Gate, q: seq<Pkg>)
    ensures forall c :: c in Collect(s, o, g, q) <==>
                        c.pkg in q && Evictable(s, o, g, c.pkg) && c == CandidateOf(s, o, g, c.pkg)
    ensures NoDup(q) ==> OncePerPkg(Collect(s, o, g, q))
  {
    if q != [] {
      var n := |q| - 1;
      CollectFacts(s, o, g, q[..n]);
      assert q == q[..n] + [q[n]];
    }
  }

  // --- the sort ------------------------------------------------------------------------------

  ghost predicate Heaviest(cs: seq<Candidate>) {
    forall i, j | 0 <= i < j < |cs| :: cs[i].totalRssKb >= cs[j].totalRssKb
  }

  // The candidates of one weight, in order.
  ghost function Tied(cs: seq<Candidate>, kb: nat): seq<Candidate> {
    if cs == [] then []
    else (if cs[0].totalRssKb == kb then [cs[0]] else []) + Tied(cs[1..], kb)
  }

  lemma {:induction false} InsertMembers(c: Candidate, q: seq<Candidate>)
    ensures forall x :: x in InsertDesc(c, q) <==> x == c || x in q
  {
    if q != [] {
      InsertMembers(c, q[1..]);
      assert q == [q[0]] + q[1..];
    }
  }

  lemma {:induction false} InsertSorts(c: Candidate, q: seq<Candidate>)
    requires Heaviest(q)
    ensures Heaviest(InsertDesc(c, q))
  {
    if q != [] && c.totalRssKb < q[0].totalRssKb {
      InsertSorts(c, q[1..]);
      InsertMembers(c, q[1..]);
      var r := InsertDesc(c, q[1..]);
      assert forall j | 0 <= j < |r| :: r[j] in r;
      assert InsertDesc(c, q) == [q[0]] + r;
    } else {
      assert InsertDesc(c, q) == [c] + q;
    }
  }

  lemma {:induction false} InsertOnce(c: Candidate, q: seq<Candidate>)
    requires OncePerPkg(q) && forall x | x in q :: x.pkg != c.pkg
    ensures OncePerPkg(InsertDesc(c, q))
  {
    if q != [] {
      InsertOnce(c, q[1..]);
      InsertMembers(c, q[1..]);
      var r := InsertDesc(c, q[1..]);
      assert forall j | 0 <= j < |r| :: r[j] in r;
      assert InsertDesc(c, q) == [q[0]] + r || InsertDesc(c, q) == [c] + q;
    }
  }

  lemma TiedHead(c: Candidate, q: seq<Candidate>, kb: nat)
    ensures Tied([c] + q, kb) == (if c.totalRssKb == kb then [c] else []) + Tied(q, kb)
  {
    assert ([c] + q)[1..] == q;
  }

  lemma {:induction false} InsertIsStable(c: Candidate, q: seq<Candidate>, kb: nat)
    ensures Tied(InsertDesc(c, q), kb) == (if c.totalRssKb == kb then [c] else []) + Tied(q, kb)
  {
    hide Tied;
    if q == [] || c.totalRssKb >= q[0].totalRssKb {
      TiedHead(c, q, kb);
    } else {
      InsertIsStable(c, q[1..], kb);
      TiedHead(q[0], InsertDesc(c, q[1..]), kb);
      TiedHead(q[0], q[1..], kb);
      assert [q[0]] + q[1..] == q;
    }
  }

  lemma {:induction false} SortFacts(q: seq<Candidate>)
    ensures Heaviest(SortDesc(q))
    ensures forall x :: x in SortDesc(q) <==> x in q
    ensures OncePerPkg(q) ==> OncePerPkg(SortDesc(q))
  {
    if q != [] {
      SortFacts(q[1..]);
      var r := SortDesc(q[1..]);
      InsertSorts(q[0], r);
      InsertMembers(q[0], r);
      if OncePerPkg(q) { InsertOnce(q[0], r); }
    }
  }

  // Equal weights keep the order in which the scan met them.
  lemma {:induction false} SortIsStable(q: seq<Candidate>, kb: nat)
    ensures Tied(SortDesc(q), kb) == Tied(q, kb)
  {
    if q != [] {
      SortIsStable(q[1..], kb);
      InsertIsStable(q[0], SortDesc(q[1..]), kb);
    }
  }

  // --- the scan ------------------------------------------------------------------------------

  // A gate-passing package with some resident PID, without mentioning iteration order.
  ghost predicate Eligible(s: State, o: Answers, g: Gate, k: Pkg) {
    PassesGates(s, g, k) && exists p :: p in PidsOf(s, k) && o.rssKb(p) > 0
  }

  lemma EvictableIsEligible(s: State, o: Answers, g: Gate, k: Pkg)
    requires Sound(o)
    ensures Evictable(s, o, g, k) <==> Eligible(s, o, g, k)
  {
    LivePidsFacts(s, o, k);
    if Evictable(s, o, g, k) { assert LivePids(s, o, k)[0] in LivePids(s, o, k); }
  }

  ghost predicate Lists(cs: seq<Candidate>, k: Pkg) { exists i :: 0 <= i < |cs| && cs[i].pkg == k }

  lemma CandidatesAre(s: State, o: Answers, g: Gate)
    requires Sound(o)
    ensures forall c :: c in Candidates(s, o, g) <==>
                        Evictable(s, o, g, c.pkg) && c == CandidateOf(s, o, g, c.pkg)
    ensures OncePerPkg(Candidates(s, o, g)) && Heaviest(Candidates(s, o, g))
  {
    var order := o.pkgOrder(s.alive.Keys);
    var cs := Collect(s, o, g, order);
    CollectFacts(s, o, g, order);
    SortFacts(cs);
  }

  // Exactly the eligible packages, each once, each with exactly its resident PIDs, their
  // positive sum, its idle time and its LRU position; heaviest first.
  lemma ScanExact(s: State, o: Answers, g: Gate)
    requires Sound(o)
    ensures var cs := Candidates(s, o, g);
      && (forall k :: Lists(cs, k) <==> Eligible(s, o, g, k))
      && OncePerPkg(cs) && Heaviest(cs)
      && (forall c | c in cs ::
            && Enumerates(c.livePids, set p | p in PidsOf(s, c.pkg) && o.rssKb(p) > 0)
            && c.totalRssKb == RssSum(o, c.livePids) > 0
            && c.pkg in s.alive && c.idleSec == IdleSec(s, g, c.pkg) && c.lruPos == LruPos(s.lru, c.pkg))
  {
    var cs := Candidates(s, o, g);
    CandidatesAre(s, o, g);
    forall k ensures Lists(cs, k) <==> Eligible(s, o, g, k) {
      EvictableIsEligible(s, o, g, k);
      if Eligible(s, o, g, k) {
        assert CandidateOf(s, o, g, k) in cs;
      }
      assert forall i | 0 <= i < |cs| && cs[i].pkg == k :: cs[i] in cs;
    }
    forall c | c in cs
      ensures Enumerates(c.livePids, set p | p in PidsOf(s, c.pkg) && o.rssKb(p) > 0)
      ensures c.totalRssKb == RssSum(o, c.livePids) > 0
    {
      LivePidsFacts(s, o, c.pkg);
    }
  }

  // The scan drops from the activity table exactly the gate-passing packages with no resident
  // PID, together with their PID sets; a gate-passing package keeps exactly its resident PIDs,
  // any other all of them; and exactly the probed dead PIDs are unmapped.
  lemma ReconcileExact(s: State, o: Answers, g: Gate)
    requires Sound(o)
    ensures var t := Reconcile(s, o, g);
      && (forall k :: k in t.alive <==> k in s.alive && !Emptied(s, o, g, k))
      && (forall k | k in t.alive :: t.alive[k] == s.alive[k])
      && (forall k :: k in t.idx.pkgToPids <==> k in s.idx.pkgToPids && !Emptied(s, o, g, k))
      && (forall k :: PidsOf(t, k) == if PassesGates(s, g, k) then set p | p in PidsOf(s, k) && o.rssKb(p) > 0
                                      else PidsOf(s, k))
      && (forall p :: p in t.idx.pidToPkg <==>
            p in s.idx.pidToPkg && (o.rssKb(p) > 0 || forall k | PassesGates(s, g, k) :: p !in PidsOf(s, k)))
      && (forall p | p in t.idx.pidToPkg :: t.idx.pidToPkg[p] == s.idx.pidToPkg[p])
      && t == s.(alive := t.alive, idx := t.idx) && t.idx.pkgToUid == s.idx.pkgToUid
  {
    hide PassesGates, LivePids;
    forall k ensures Emptied(s, o, g, k) <==> DeadPkg(s, o, g, k) { EmptiedIsDead(s, o, g, k); }
    forall k
      ensures PidsOf(Reconcile(s, o, g), k) == if PassesGates(s, g, k)
                                               then set p | p in PidsOf(s, k) && o.rssKb(p) > 0 else PidsOf(s, k)
    {
      EmptiedIsDead(s, o, g, k);
    }
    forall k | PassesGates(s, g, k) ensures k in s.alive { GatesAreAlive(s, g, k); }
  }

  // A gate-passing package none of whose PIDs is resident.
  predicate Emptied(s: State, o: Answers, g: Gate, k: Pkg) {
    PassesGates(s, g, k) && forall p | p in PidsOf(s, k) :: o.rssKb(p) == 0
  }

  lemma EmptiedIsDead(s: State, o: Answers, g: Gate, k: Pkg)
    requires Sound(o)
    ensures Emptied(s, o, g, k) <==> DeadPkg(s, o, g, k)
  {
    hide PassesGates;
    LivePidsFacts(s, o, k);
    if LivePids(s, o, k) != [] { assert LivePids(s, o, k)[0] in LivePids(s, o, k); }
  }

  lemma GatesAreAlive(s: State, g: Gate, k: Pkg)
    requires PassesGates(s, g, k)
    ensures k in s.alive
  {
  }

  // What is dispatched is at least as heavy as everything passed over, and the burst cap is
  // always used up.
  lemma GreedyChoice(s: State, o: Answers, now: nat)
    requires Sound(o)
    ensures var all := Candidates(s, o, PassGate(s, o, now)); var chosen := Chosen(s, o, now);
      && |chosen| == Min(s.policy.config.maxKillsPerPass, |all|)
      && OncePerPkg(chosen)
      && (forall c | c in chosen :: c in all)
      && (forall c, d | c in chosen && d in all && d !in chosen :: c.totalRssKb >= d.totalRssKb)
  {
    CandidatesAre(s, o, PassGate(s, o, now));
    TakeIsGreedy(Candidates(s, o, PassGate(s, o, now)), |Chosen(s, o, now)|);
  }

  lemma TakeIsGreedy(all: seq<Candidate>, n: nat)
    requires Heaviest(all) && OncePerPkg(all) && n <= |all|
    ensures OncePerPkg(all[..n])
    ensures forall c, d | c in all[..n] && d in all && d !in all[..n] :: c.totalRssKb >= d.totalRssKb
  {
    forall c, d | c in all[..n] && d in all && d !in all[..n] ensures c.totalRssKb >= d.totalRssKb {
      var i :| 0 <= i < n && all[i] == c;
      var j :| 0 <= j < |all| && all[j] == d;
      assert j >= n ==> i < j;
    }
  }

  // --- iteration order only permutes ties -----------------------------------------------------

  ghost function SumBy<T(!new)>(q: seq<T>, f: T -> nat): nat {
    if q == [] then 0 else SumBy(q[..|q| - 1], f) + f(q[|q| - 1])
  }

  ghost function Cut<T>(q: seq<T>, i: nat): seq<T>
    requires i < |q|
  {
    q[..i] + q[i + 1..]
  }

  lemma {:induction false} SumSplit<T(!new)>(q: seq<T>, i: nat, f: T -> nat)
    requires i < |q|
    ensures SumBy(q, f) == SumBy(Cut(q, i), f) + f(q[i])
  {
    var r := Cut(q, i);
    var n := |q| - 1;
    if i == n {
      assert r == q[..n];
    } else {
      SumSplit(q[..n], i, f);
      assert r[..n - 1] == Cut(q[..n], i);
    }
  }

  lemma DropBoth<T(!new)>(a: seq<T>, b: seq<T>, i: nat)
    requires NoDup(a) && NoDup(b) && forall x :: x in a <==> x in b
    requires a != [] && i < |b| && b[i] == a[|a| - 1]
    ensures NoDup(Cut(a, |a| - 1)) && NoDup(Cut(b, i))
    ensures forall x :: x in Cut(a, |a| - 1) <==> x in Cut(b, i)
  {
    var n := |a| - 1;
    assert Cut(a, n) == a[..n];
    var r := Cut(b, i);
    forall x ensures x in a[..n] <==> x in r {
      assert a == a[..n] + [a[n]];
      assert b == b[..i] + [b[i]] + b[i + 1..];
      if x in a[..n] { assert x in b; }
      if x in r { assert x in a; }
    }
  }

  lemma {:induction false} SumIgnoresOrder<T(!new)>(a: seq<T>, b: seq<T>, f: T -> nat)
    requires NoDup(a) && NoDup(b) && forall x :: x in a <==> x in b
    ensures SumBy(a, f) == SumBy(b, f)
    decreases |a|
  {
    assert b != [] ==> b[0] in b;
    if a != [] {
      var n := |a| - 1;
      assert a[n] in b;
      var i :| 0 <= i < |b| && b[i] == a[n];
      SumSplit(b, i, f);
      DropBoth(a, b, i);
      assert Cut(a, n) == a[..n];
      SumIgnoresOrder(a[..n], Cut(b, i), f);
    }
  }

  lemma {:induction false} RssIsSum(o: Answers, q: seq<Pid>)
    ensures RssSum(o, q) == SumBy(q, o.rssKb)
  {
    if q != [] { RssIsSum(o, q[..|q| - 1]); }
  }

  // Two sets of answers that may differ in everything but the memory figures.
  ghost predicate SameRss(o1: Answers, o2: Answers) { forall p :: o1.rssKb(p) == o2.rssKb(p) }

  lemma {:induction false} SumAgrees<T(!new)>(q: seq<T>, f: T -> nat, g: T -> nat)
    requires forall x :: f(x) == g(x)
    ensures SumBy(q, f) == SumBy(q, g)
  {
    if q != [] { SumAgrees(q[..|q| - 1], f, g); }
  }

  lemma WeightIgnoresOrder(s: State, o1: Answers, o2: Answers, k: Pkg)
    requires Sound(o1) && Sound(o2) && SameRss(o1, o2)
    ensures RssSum(o1, LivePids(s, o1, k)) == RssSum(o2, LivePids(s, o2, k))
  {
    var a, b := LivePids(s, o1, k), LivePids(s, o2, k);
    LivePidsFacts(s, o1, k);
    LivePidsFacts(s, o2, k);
    RssIsSum(o1, a);
    RssIsSum(o2, b);
    SumAgrees(b, o1.rssKb, o2.rssKb);
    SumIgnoresOrder(a, b, o1.rssKb);
  }

  ghost function Weights(cs: seq<Candidate>): seq<nat> {
    if cs == [] then [] else Weights(cs[..|cs| - 1]) + [cs[|cs| - 1].totalRssKb]
  }

  ghost function Names(cs: seq<Candidate>): seq<Pkg> { seq(|cs|, i requires 0 <= i < |cs| => cs[i].pkg) }

  lemma NamesAre(cs: seq<Candidate>)
    requires OncePerPkg(cs)
    ensures NoDup(Names(cs)) && forall k :: k in Names(cs) <==> Lists(cs, k)
  {
    forall k ensures k in Names(cs) <==> Lists(cs, k) {
      if Lists(cs, k) {
        var i :| 0 <= i < |cs| && cs[i].pkg == k;
        assert Names(cs)[i] == k;
      }
    }
  }

  lemma {:induction false} WeightsAt(cs: seq<Candidate>)
    ensures |Weights(cs)| == |cs| && forall i | 0 <= i < |cs| :: Weights(cs)[i] == cs[i].totalRssKb
  {
    if cs != [] { WeightsAt(cs[..|cs| - 1]); }
  }

  lemma {:induction false} WeightCount(cs: seq<Candidate>, kb: nat, hit: Pkg -> nat)
    requires forall c | c in cs :: hit(c.pkg) == if c.totalRssKb == kb then 1 else 0
    ensures multiset(Weights(cs))[kb] == SumBy(Names(cs), hit)
  {
    if cs != [] {
      var n := |cs| - 1;
      WeightCount(cs[..n], kb, hit);
      assert Names(cs)[..n] == Names(cs[..n]);
      assert cs[n] in cs;
    }
  }

  ghost predicate Descending(a: seq<nat>) { forall i, j | 0 <= i < j < |a| :: a[i] >= a[j] }

  lemma HeadIsLargest(a: seq<nat>, x: nat)
    requires Descending(a) && x in multiset(a)
    ensures a != [] && a[0] >= x
  {
    var i :| 0 <= i < |a| && a[i] == x;
  }

  lemma HeadOff(a: seq<nat>)
    requires a != []
    ensures a == [a[0]] + a[1..]
    ensures multiset(a[1..]) == multiset(a) - multiset{a[0]}
    ensures Descending(a) ==> Descending(a[1..])
    ensures a[0] in multiset(a)
  {
    assert a == [a[0]] + a[1..];
  }

  lemma NonEmpty(a: seq<nat>, b: seq<nat>)
    requires multiset(a) == multiset(b)
    ensures a == [] <==> b == []
  {
    if a == [] && b != [] { HeadOff(b); assert false; }
    if b == [] && a != [] { HeadOff(a); assert false; }
  }

  lemma {:induction false} SortedBagsAgree(a: seq<nat>, b: seq<nat>)
    requires Descending(a) && Descending(b) && multiset(a) == multiset(b)
    ensures a == b
    decreases |a|
  {
    NonEmpty(a, b);
    if a != [] {
      HeadOff(a);
      HeadOff(b);
      assert a[0] in multiset(b) && b[0] in multiset(a);
      HeadIsLargest(b, a[0]);
      HeadIsLargest(a, b[0]);
      assert a[0] == b[0];
      var c, d := a[1..], b[1..];
      assert multiset(c) == multiset(d);
      SortedBagsAgree(c, d);
      assert c == d;
    }
  }

  // Whatever order the hash containers iterate in, the scan yields the same packages and the
  // same descending sequence of weights: only equally heavy packages can change places.
  lemma OrderOnlyPermutesTies(s: State, o1: Answers, o2: Answers, g: Gate)
    requires Sound(o1) && Sound(o2) && SameRss(o1, o2)
    ensures var a, b := Candidates(s, o1, g), Candidates(s, o2, g);
      Weights(a) == Weights(b) && forall k :: Lists(a, k) <==> Lists(b, k)
  {
    var a, b := Candidates(s, o1, g), Candidates(s, o2, g);
    ScanExact(s, o1, g);
    ScanExact(s, o2, g);
    forall k ensures Lists(a, k) <==> Lists(b, k) {
      assert Eligible(s, o1, g, k) <==> Eligible(s, o2, g, k);
    }
    forall kb ensures multiset(Weights(a))[kb] == multiset(Weights(b))[kb] {
      SameWeightCount(s, o1, o2, g, kb);
    }
    assert multiset(Weights(a)) == multiset(Weights(b));
    WeightsAt(a);
    WeightsAt(b);
    SortedBagsAgree(Weights(a), Weights(b));
  }

  lemma SameWeightCount(s: State, o1: Answers, o2: Answers, g: Gate, kb: nat)
    requires Sound(o1) && Sound(o2) && SameRss(o1, o2)
    requires forall k :: Lists(Candidates(s, o1, g), k) <==> Lists(Candidates(s, o2, g), k)
    ensures multiset(Weights(Candidates(s, o1, g)))[kb] == multiset(Weights(Candidates(s, o2, g)))[kb]
  {
    var a, b := Candidates(s, o1, g), Candidates(s, o2, g);
    CandidatesAre(s, o1, g);
    CandidatesAre(s, o2, g);
    var hit: Pkg -> nat := k => if RssSum(o1, LivePids(s, o1, k)) == kb then 1 else 0;
    forall c | c in b ensures hit(c.pkg) == if c.totalRssKb == kb then 1 else 0 {
      WeightIgnoresOrder(s, o1, o2, c.pkg);
    }
    WeightCount(a, kb, hit);
    WeightCount(b, kb, hit);
    NamesAre(a);
    NamesAre(b);
    SumIgnoresOrder(Names(a), Names(b), hit);
  }
}
