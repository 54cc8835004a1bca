/** The foreground LRU against the resume history it stands for. */
module LruLaws {
  import opened Prelude
  import opened Engine
  import opened ScanLaws
  import opened StepShape

  // --- the reference: distinct packages, most recently resumed first ---------------------------

  // The resume events of a run, oldest first.
  function Resumed(run: seq<Happening>): seq<Pkg> {
    if run == [] then []
    else
      var i := run[|run| - 1].input;
      Resumed(run[..|run| - 1]) + (if i.Line? && i.event.ResumeActivity? then [i.event.pkg] else [])
  }

  function Recency(hist: seq<Pkg>): seq<Pkg> {
    if hist == [] then []
    else [hist[|hist| - 1]] + Without(Recency(hist[..|hist| - 1]), hist[|hist| - 1])
  }

  // One more than the index of the last occurrence; 0 when absent.
  function LastSeen(hist: seq<Pkg>, k: Pkg): nat {
    if hist == [] then 0
    else if hist[|hist| - 1] == k then |hist|
    else LastSeen(hist[..|hist| - 1], k)
  }

  lemma {:induction false} LastSeenBounds(hist: seq<Pkg>, k: Pkg)
    ensures LastSeen(hist, k) <= |hist| && (LastSeen(hist, k) > 0 <==> k in hist)
  {
    if hist != [] {
      LastSeenBounds(hist[..|hist| - 1], k);
      assert hist == hist[..|hist| - 1] + [hist[|hist| - 1]];
    }
  }

  // Strictly ordered by most recent resume, hence without duplicates.
  ghost predicate ByRecency(q: seq<Pkg>, hist: seq<Pkg>) {
    && (forall k | k in q :: k in hist)
    && forall i, j | 0 <= i < j < |q| :: LastSeen(hist, q[i]) > LastSeen(hist, q[j])
  }

  lemma WithoutFacts(q: seq<Pkg>, x: Pkg)
    ensures forall k | k in Without(q, x) :: k in q
    ensures NoDup(q) ==> x !in Without(q, x) && forall k :: k in Without(q, x) <==> k in q && k != x
  {
    if x in q {
      var i := Position(q, x).value;
      assert q == q[..i] + [x] + q[i + 1..];
    }
  }

  lemma ByRecencyIsNoDup(q: seq<Pkg>, hist: seq<Pkg>)
    requires ByRecency(q, hist)
    ensures NoDup(q)
  {
  }

  // A resume moves its package to the front.
  lemma MoveToFront(q: seq<Pkg>, hist: seq<Pkg>, k: Pkg)
    requires ByRecency(q, hist)
    ensures ByRecency([k] + Without(q, k), hist + [k])
  {
    var h := hist + [k];
    var w := Without(q, k);
    ByRecencyIsNoDup(q, hist);
    WithoutFacts(q, k);
    assert h[..|h| - 1] == hist;
    forall x ensures LastSeen(h, x) == if x == k then |h| else LastSeen(hist, x) {}
    forall x { LastSeenBounds(hist, x); }
    SubsequenceByRecency(q, k, hist);
    var r := [k] + w;
    forall i, j | 0 <= i < j < |r| ensures LastSeen(h, r[i]) > LastSeen(h, r[j]) {
      assert w[j - 1] in w;
      if i > 0 { assert w[i - 1] in w; }
    }
  }

  lemma SubsequenceByRecency(q: seq<Pkg>, k: Pkg, hist: seq<Pkg>)
    requires ByRecency(q, hist)
    ensures ByRecency(Without(q, k), hist)
  {
    WithoutFacts(q, k);
  }

  // The reference really is what its name says: each resumed package once, latest first.
  lemma {:induction false} RecencyIs(hist: seq<Pkg>)
    ensures ByRecency(Recency(hist), hist) && forall k :: k in Recency(hist) <==> k in hist
  {
    if hist != [] {
      var n := |hist| - 1;
      RecencyIs(hist[..n]);
      assert hist == hist[..n] + [hist[n]];
      MoveToFront(Recency(hist[..n]), hist[..n], hist[n]);
      ByRecencyIsNoDup(Recency(hist[..n]), hist[..n]);
      WithoutFacts(Recency(hist[..n]), hist[n]);
    }
  }

  // --- one resume ------------------------------------------------------------------------------------

  function Take(q: seq<Pkg>, n: nat): seq<Pkg> { if |q| <= n then q else q[..n] }

  lemma PromoteIsMoveToFront(q: seq<Pkg>, k: Pkg, depth: nat)
    ensures Promote(q, k, depth) == [k] + Without(q, k) || Promote(q, k, depth) == ([k] + Without(q, k))[..|q|]
    ensures |Promote(q, k, depth)| <= |q| || |Promote(q, k, depth)| <= depth
  {
    if k !in q { assert Without(q, k) == q; }
  }

  lemma PrefixByRecency(q: seq<Pkg>, n: nat, hist: seq<Pkg>)
    requires ByRecency(q, hist) && n <= |q|
    ensures ByRecency(q[..n], hist)
  {
  }

  lemma PromoteKeepsRecency(q: seq<Pkg>, k: Pkg, depth: nat, hist: seq<Pkg>)
    requires ByRecency(q, hist)
    ensures ByRecency(Promote(q, k, depth), hist + [k])
  {
    MoveToFront(q, hist, k);
    PromoteIsMoveToFront(q, k, depth);
    if |q| <= |[k] + Without(q, k)| { PrefixByRecency([k] + Without(q, k), |q|, hist + [k]); }
  }

  // A bounded LRU is a window on the unbounded one.
  lemma WindowSlides(r: seq<Pkg>, k: Pkg, depth: nat)
    requires NoDup(r)
    ensures Promote(Take(r, depth), k, depth) == Take([k] + Without(r, k), depth)
  {
    match Position(r, k)
    case None => WindowAdmits(r, k, depth);
    case Some(i) =>
      if i < |Take(r, depth)| { WindowRotates(r, k, depth, i); } else { WindowAdmits(r, k, depth); }
  }

  // The package is not in the window: it enters in front, the last one falls out.
  lemma WindowAdmits(r: seq<Pkg>, k: Pkg, depth: nat)
    requires NoDup(r) && k !in Take(r, depth)
    ensures Promote(Take(r, depth), k, depth) == Take([k] + Without(r, k), depth)
  {
    var q := Take(r, depth);
    if |r| <= depth {
      assert q == r;
    } else if depth > 0 {
      assert q == r[..depth] && ([k] + q)[..depth] == [k] + r[..depth - 1];
      assert forall j | 0 <= j < depth :: r[j] in q;
      match Position(r, k)
      case None =>
      case Some(i) =>
        assert (r[..i] + r[i + 1..])[..depth - 1] == r[..depth - 1];
    }
  }

  lemma CutInside(r: seq<Pkg>, depth: nat, i: nat)
    requires i < depth <= |r|
    ensures r[..depth][..i] + r[..depth][i + 1..] == (r[..i] + r[i + 1..])[..depth - 1]
  {
  }

  lemma PromoteInside(q: seq<Pkg>, k: Pkg, depth: nat, i: nat)
    requires Position(q, k) == Some(i)
    ensures Promote(q, k, depth) == [k] + (q[..i] + q[i + 1..])
  {
  }

  lemma TakeHead(k: Pkg, rest: seq<Pkg>, depth: nat)
    requires 0 < depth <= |rest|
    ensures Take([k] + rest, depth) == [k] + rest[..depth - 1]
  {
  }

  // The package is in the window: it moves to the front of it.
  lemma WindowRotates(r: seq<Pkg>, k: Pkg, depth: nat, i: nat)
    requires NoDup(r) && Position(r, k) == Some(i) && i < |Take(r, depth)|
    ensures Promote(Take(r, depth), k, depth) == Take([k] + Without(r, k), depth)
  {
    hide NoDup, Position, Promote;
    var rest := r[..i] + r[i + 1..];
    if |r| <= depth {
      PromoteInside(r, k, depth, i);
    } else {
      SamePosition(r, depth, k);
      PromoteInside(r[..depth], k, depth, i);
      CutInside(r, depth, i);
      TakeHead(k, rest, depth);
    }
  }

  lemma SamePosition(r: seq<Pkg>, n: nat, k: Pkg)
    requires NoDup(r) && n <= |r| && Position(r, k).Some? && Position(r, k).value < n
    ensures Position(r[..n], k) == Position(r, k)
  {
    var i := Position(r, k).value;
    assert r[..n][i] == k;
  }

  // --- runs --------------------------------------------------------------------------------------------

  lemma PrepareLru(s: State, i: Input, o: Answers)
    ensures var a := if i.Line? then Advance(s, i.now) else s;
      Prepare(s, i, o).lru ==
      if i.Line? && i.event.ResumeActivity?
      then Promote(Trampoline(s.lru, s.fg, PrevDurMs(a, i.event.pkg, i.now)), i.event.pkg,
                   s.policy.config.fgLruMaxDepth)
      else s.lru
  {
    hide Focus, Admit, OnDied, OnScreen, Advance, Promote, Trampoline, PruneDeaths, Depart, PrevDurMs, IndexStart;
    if i.Line? {
      var a := Advance(s, i.now);
      AdvanceFrame(s, i.now);
      match i.event
      case ResumeActivity(pkg, component) => FocusFrame(a, pkg, component, i.now);
      case ProcStart(_, _, _, _, _) => AdmitFrame(a, i.event, o.startRssKb, i.now);
      case ProcDied(pid) => DiedFrame(a, pid, i.now);
      case ScreenToggled(on) => ScreenFrame(a, on, i.now);
      case _ =>
    }
  }

  // The LRU after a step, and that only a resume changes it.
  lemma StepLru(s: State, i: Input, o: Answers)
    ensures var a := if i.Line? then Advance(s, i.now) else s;
      Step(s, i, o).lru ==
      if i.Line? && i.event.ResumeActivity?
      then Promote(Trampoline(s.lru, s.fg, PrevDurMs(a, i.event.pkg, i.now)), i.event.pkg,
                   s.policy.config.fgLruMaxDepth)
      else s.lru
    ensures Prepare(s, i, o).lru == Step(s, i, o).lru
  {
    hide Step, Prepare, Pass, Advance, Promote, Trampoline, PrevDurMs;
    PrepareLru(s, i, o);
    StepIs(s, i, o);
    if Reaps(s, i) { PassIs(Prepare(s, i, o), o, i.now); }
  }

  // The largest history depth configured so far.
  function MaxDepth(s: State, run: seq<Happening>): nat {
    if run == [] then s.policy.config.fgLruMaxDepth
    else
      var m := MaxDepth(s, run[..|run| - 1]);
      var i := run[|run| - 1].input;
      if i.Reload? && i.config.fgLruMaxDepth > m then i.config.fgLruMaxDepth else m
  }

  lemma StepConfig(s: State, i: Input, o: Answers)
    ensures Step(s, i, o).policy.config == if i.Reload? then i.config else s.policy.config
  {
    hide Step;
    StepPolicy(s, i, o);
  }

  lemma {:induction false} DepthIsConfigured(s: State, run: seq<Happening>)
    ensures Run(s, run).policy.config.fgLruMaxDepth <= MaxDepth(s, run)
  {
    if run != [] {
      var n := |run| - 1;
      DepthIsConfigured(s, run[..n]);
      StepConfig(Run(s, run[..n]), run[n].input, run[n].answers);
    }
  }

  // On every run the LRU is duplicate-free, in order of most recent resume, and no longer
  // than the largest depth configured so far.
  lemma {:induction false} LruIsOrdered(s: State, run: seq<Happening>)
    requires s.lru == []
    ensures ByRecency(Run(s, run).lru, Resumed(run)) && NoDup(Run(s, run).lru)
    ensures |Run(s, run).lru| <= MaxDepth(s, run)
  {
    if run != [] {
      var n := |run| - 1;
      var t, i := Run(s, run[..n]), run[n].input;
      LruIsOrdered(s, run[..n]);
      DepthIsConfigured(s, run[..n]);
      StepLru(t, i, run[n].answers);
      if i.Line? && i.event.ResumeActivity? {
        var a := Advance(t, i.now);
        var q := Trampoline(t.lru, t.fg, PrevDurMs(a, i.event.pkg, i.now));
        if t.fg.Some? { SubsequenceByRecency(t.lru, t.fg.value, Resumed(run[..n])); }
        PromoteKeepsRecency(q, i.event.pkg, t.policy.config.fgLruMaxDepth, Resumed(run[..n]));
        PromoteIsMoveToFront(q, i.event.pkg, t.policy.config.fgLruMaxDepth);
      } else {
        assert Resumed(run[..n]) + [] == Resumed(run[..n]);
      }
    }
    ByRecencyIsNoDup(Run(s, run).lru, Resumed(run));
  }

  // --- the documented bound ---------------------------------------------------------------------------

  // "Bounded to fg_lru_max_depth", read off the current configuration.
  predicate WithinDepth(s: State) { |s.lru| <= s.policy.config.fgLruMaxDepth }

  // A reload that leaves the history as long as the new depth allows.
  predicate ReloadFits(s: State, i: Input) { i.Reload? ==> |s.lru| <= i.config.fgLruMaxDepth }

  // A step keeps the bound exactly when it is not a reload to a depth below the history's length.
  lemma StepKeepsBoundIff(s: State, i: Input, o: Answers)
    requires WithinDepth(s)
    ensures WithinDepth(Step(s, i, o)) <==> ReloadFits(s, i)
  {
    hide Step, Promote, Trampoline;
    StepLru(s, i, o);
    StepConfig(s, i, o);
    if i.Line? && i.event.ResumeActivity? {
      var q := Trampoline(s.lru, s.fg, PrevDurMs(Advance(s, i.now), i.event.pkg, i.now));
      TrampolineShortens(s.lru, s.fg, PrevDurMs(Advance(s, i.now), i.event.pkg, i.now));
      PromoteIsMoveToFront(q, i.event.pkg, s.policy.config.fgLruMaxDepth);
    }
  }

  lemma TrampolineShortens(lru: seq<Pkg>, prev: Option<Pkg>, prevDurMs: nat)
    ensures |Trampoline(lru, prev, prevDurMs)| <= |lru|
  {
  }

  // The bound holds after every step of a run.
  ghost predicate AlwaysWithinDepth(s: State, run: seq<Happening>) {
    WithinDepth(Run(s, run)) && (run != [] ==> AlwaysWithinDepth(s, run[..|run| - 1]))
  }

  ghost predicate ReloadsFit(s: State, run: seq<Happening>) {
    run != [] ==>
      ReloadsFit(s, run[..|run| - 1]) && ReloadFits(Run(s, run[..|run| - 1]), run[|run| - 1].input)
  }

  // The documented bound holds throughout a run exactly when no reload of it undercuts the history.
  lemma {:induction false} BoundHoldsIff(s: State, run: seq<Happening>)
    requires WithinDepth(s)
    ensures AlwaysWithinDepth(s, run) <==> ReloadsFit(s, run)
  {
    hide WithinDepth, ReloadFits;
    if run != [] {
      var n := |run| - 1;
      BoundHoldsIff(s, run[..n]);
      if AlwaysWithinDepth(s, run[..n]) {
        BoundAtEnd(s, run[..n]);
        StepKeepsBoundIff(Run(s, run[..n]), run[n].input, run[n].answers);
      }
    }
  }

  lemma BoundAtEnd(s: State, run: seq<Happening>)
    requires AlwaysWithinDepth(s, run)
    ensures WithinDepth(Run(s, run))
  {
  }

  // Two resumes, then a reload to depth 1: the history keeps its two entries.
  function ShrinkingReload(config: Config, now: u64, o: Answers): seq<Happening> {
    [Happening(Line(now, ResumeActivity("app.a", "app.a/.M")), o),
     Happening(Line(now, ResumeActivity("app.b", "app.b/.M")), o),
     Happening(Reload(now, config.(fgLruMaxDepth := 1), {}, {}), o)]
  }

  lemma TwoResumes(s: State, now: u64, o: Answers)
    requires s.lru == [] && s.fg == None && s.idx.pkgToUid == map[] && s.policy.config.fgLruMaxDepth >= 2
    ensures var t := Step(s, Line(now, ResumeActivity("app.a", "app.a/.M")), o);
      Step(t, Line(now, ResumeActivity("app.b", "app.b/.M")), o).lru == ["app.b", "app.a"]
  {
    hide Step, Focus, Pass, Advance;
    var i, j := Line(now, ResumeActivity("app.a", "app.a/.M")), Line(now, ResumeActivity("app.b", "app.b/.M"));
    var t := Step(s, i, o);
    StepLru(s, i, o);
    StepConfig(s, i, o);
    AdvanceFrame(s, now);
    assert t.lru == ["app.a"] by { assert Position<Pkg>([], "app.a") == None; }
    StepUids(s, i, o);
    StepLru(t, j, o);
    AdvanceFrame(t, now);
    assert Position<Pkg>(["app.a"], "app.b") == None;
  }

  lemma StepUids(s: State, i: Input, o: Answers)
    requires i.Line? && i.event.ResumeActivity?
    ensures Step(s, i, o).idx.pkgToUid == s.idx.pkgToUid
  {
    hide Focus, Pass, Advance;
    var a := Advance(s, i.now);
    AdvanceFrame(s, i.now);
    StepIs(s, i, o);
    FocusFrame(a, i.event.pkg, i.event.component, i.now);
    if Reaps(s, i) { PassIs(Prepare(s, i, o), o, i.now); }
  }

  lemma BoundFails(sw: Switches, config: Config, screenOn: bool, now: u64, o: Answers)
    requires config.fgLruMaxDepth >= 2
    ensures var t := Run(Boot(sw, config, screenOn, now), ShrinkingReload(config, now, o));
      !WithinDepth(t) && |t.lru| == 2 && t.policy.config.fgLruMaxDepth == 1
  {
    hide Step;
    var s, run := Boot(sw, config, screenOn, now), ShrinkingReload(config, now, o);
    TwoResumes(s, now, o);
    assert run[..2] == [run[0], run[1]] && [run[0], run[1]][..1] == [run[0]] && [run[0]][..0] == [];
    var t := Run(s, run[..2]);
    assert Run(s, [run[0]]) == Step(Run(s, []), run[0].input, o);
    assert t == Step(Run(s, [run[0]]), run[1].input, o);
    StepLru(t, run[2].input, o);
    StepConfig(t, run[2].input, o);
  }

  // A resume that takes the departing package for a trampoline.
  predicate DropsTrampoline(s: State, i: Input) {
    i.Line? && i.event.ResumeActivity? && 0 < PrevDurMs(Advance(s, i.now), i.event.pkg, i.now) < 500
  }

  // The depth stays d and no trampoline is dropped.
  ghost predicate Steady(s: State, run: seq<Happening>, d: nat) {
    if run == [] then s.policy.config.fgLruMaxDepth == d
    else
      var i := run[|run| - 1].input;
      && Steady(s, run[..|run| - 1], d)
      && (i.Reload? ==> i.config.fgLruMaxDepth == d)
      && !DropsTrampoline(Run(s, run[..|run| - 1]), i)
  }

  lemma {:induction false} SteadyDepth(s: State, run: seq<Happening>, d: nat)
    requires Steady(s, run, d)
    ensures Run(s, run).policy.config.fgLruMaxDepth == d
  {
    if run != [] {
      var n := |run| - 1;
      SteadyDepth(s, run[..n], d);
      StepConfig(Run(s, run[..n]), run[n].input, run[n].answers);
    }
  }

  // Then the LRU is exactly the d most recent distinct packages of the resume history.
  lemma {:induction false} LruIsRecencyWindow(s: State, run: seq<Happening>, d: nat)
    requires s.lru == [] && Steady(s, run, d)
    ensures Run(s, run).lru == Take(Recency(Resumed(run)), d)
  {
    if run != [] {
      var n := |run| - 1;
      var t, i, hist := Run(s, run[..n]), run[n].input, Resumed(run[..n]);
      LruIsRecencyWindow(s, run[..n], d);
      SteadyDepth(s, run[..n], d);
      StepLru(t, i, run[n].answers);
      if i.Line? && i.event.ResumeActivity? {
        RecencyIs(hist);
        ByRecencyIsNoDup(Recency(hist), hist);
        WindowSlides(Recency(hist), i.event.pkg, d);
        assert (hist + [i.event.pkg])[..|hist|] == hist;
      } else {
        assert hist + [] == hist;
      }
    }
  }

  // --- what the window protects ---------------------------------------------------------------------------

  // Within the machine's index range the sentinel never collides: a package passes the LRU
  // gate exactly when it is not among the first `depth` entries.
  lemma LruGateIff(lru: seq<Pkg>, k: Pkg, depth: nat)
    requires |lru| <= USIZE_MAX && depth <= USIZE_MAX
    ensures LruPos(lru, k) >= depth <==> k !in Take(lru, depth)
  {
    if k in lru {
      var i := Position(lru, k).value;
      if i < depth {
        assert Take(lru, depth)[i] == k;
      } else {
        assert Take(lru, depth) == lru[..depth];
        assert lru[..depth] == lru[..i][..depth];
      }
    } else {
      assert forall x | x in Take(lru, depth) :: x in lru;
    }
  }

  // No decision ever hits one of the min(effective depth, d) most recent foregrounds.
  lemma DecidedIsNotRecent(s: State, run: seq<Happening>, d: nat, h: Happening, r: KillRecord)
    requires s.lru == [] && Sound(h.answers) && h.input.Line? && Steady(s, run + [h], d)
    requires r in Decisions(Run(s, run), h.input, h.answers)
    ensures var p := Prepare(Run(s, run), h.input, h.answers);
      r.pkg !in Take(Recency(Resumed(run + [h])), Min(EffectiveDepth(p), d))
  {
    var all := run + [h];
    assert all[..|all| - 1] == run;
    var t := Run(s, run);
    var p := Prepare(t, h.input, h.answers);
    LruIsRecencyWindow(s, all, d);
    StepLru(t, h.input, h.answers);
    DecisionFacts(t, h.input, h.answers, r);
    NotInPrefix(p.lru, r.pkg, EffectiveDepth(p));
    TakeTwice(Recency(Resumed(all)), d, EffectiveDepth(p));
  }

  lemma TakeTwice(q: seq<Pkg>, d: nat, e: nat)
    ensures Take(Take(q, d), e) == Take(q, Min(e, d))
  {
  }

  lemma NotInPrefix(lru: seq<Pkg>, k: Pkg, depth: nat)
    requires LruPos(lru, k) >= depth
    ensures k !in Take(lru, depth)
  {
    if k in lru {
      var i := Position(lru, k).value;
      assert Take(lru, depth) == lru[..i][..depth];
    }
  }
}
