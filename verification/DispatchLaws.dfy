/** What a decision is allowed to do to the outside world, and what its record says it did. */
module DispatchLaws {
  import opened Prelude
  import opened Engine
  import opened ScanLaws
  import opened StepShape
  import DrainLaws

  lemma {:induction false} SignalsReachAll(o: Answers, pids: seq<Pid>)
    requires AllSignalled(o, pids)
    ensures SignalRun(o, pids) == seq(|pids|, n requires 0 <= n < |pids| => Signal(pids[n]))
  {
    if pids != [] {
      var front := pids[..|pids| - 1];
      assert AllSignalled(o, front);
      SignalsReachAll(o, front);
    }
  }

  lemma {:induction false} SignalsStart(o: Answers, pids: seq<Pid>)
    requires pids != []
    ensures SignalRun(o, pids) != []
  {
    if |pids| > 1 { SignalsStart(o, pids[..|pids| - 1]); }
  }

  // Some process of the candidate scores below the configured minimum, an unreadable score
  // counting as 0.
  predicate Guarded(pol: Policy, o: Answers, c: Candidate) {
    exists p :: p in c.livePids && o.adj(p).GetOr(0) < pol.config.minOomScoreAdj
  }

  // Fully cached.
  predicate Cached(o: Answers, c: Candidate) { forall p | p in c.livePids :: o.adj(p).GetOr(0) >= 900 }

  // Still owned by an app and, read again, still cached.
  predicate Confirmed(o: Answers, c: Candidate) {
    forall p | p in c.livePids ::
      && o.ownerUid(p).Some? && o.ownerUid(p).value >= 10_000
      && o.adjAgain(p).Some? && o.adjAgain(p).value >= 900
  }

  predicate AllReached(o: Answers, c: Candidate) { forall p | p in c.livePids :: o.signalled(p) }

  // The root fast path is taken for this candidate.
  predicate FastPath(pol: Policy, o: Answers, c: Candidate) {
    && pol.switches.actMode && pol.switches.isRoot && !Guarded(pol, o, c) && Cached(o, c) && Confirmed(o, c)
  }

  lemma LowestDecides(pol: Policy, o: Answers, c: Candidate)
    requires c.livePids != []
    ensures Protected(pol, o, c) <==> Guarded(pol, o, c)
    ensures MinAdj(o, c.livePids) >= SIGKILL_MIN_ADJ <==> Cached(o, c)
    ensures (forall p | p in c.livePids :: Revalidates(o, p)) <==> Confirmed(o, c)
    ensures AllSignalled(o, c.livePids) <==> AllReached(o, c)
  {
    hide MinAdj;
    DrainLaws.MinAdjIs(o, c.livePids);
  }

  // The attempts made: none, the signals, or the framework kill behind whatever was signalled.
  lemma AttemptsAre(pol: Policy, o: Answers, c: Candidate)
    requires c.livePids != []
    ensures CarriedOut(pol, o, c).attempts ==
            if !pol.switches.actMode || Guarded(pol, o, c) then []
            else if !FastPath(pol, o, c) then [SpawnKill(c.pkg)]
            else if AllReached(o, c) then SignalRun(o, c.livePids)
            else SignalRun(o, c.livePids) + [SpawnKill(c.pkg)]
  {
    hide MinAdj, SignalRun, Revalidates, AllSignalled, Guarded, Cached, Confirmed, AllReached, Protected;
    LowestDecides(pol, o, c);
    assert [] + [SpawnKill(c.pkg)] == [SpawnKill(c.pkg)];
  }

  lemma ReachedIsSignalled(o: Answers, c: Candidate)
    requires AllReached(o, c)
    ensures SignalRun(o, c.livePids) == seq(|c.livePids|, n requires 0 <= n < |c.livePids| => Signal(c.livePids[n]))
  {
    SignalsReachAll(o, c.livePids);
  }

  // Nothing is attempted in observe mode or on a guarded package. A signal goes only to a PID
  // of a fully cached package as root, after every one of its PIDs was confirmed; unless all of
  // them were reached the package goes to the framework, once and last.
  lemma AttemptsAreGuarded(pol: Policy, o: Answers, c: Candidate)
    requires c.livePids != []
    ensures var a := CarriedOut(pol, o, c).attempts;
      && (a == [] <==> !pol.switches.actMode || Guarded(pol, o, c))
      && (forall e | e in a :: (e.Signal? && FastPath(pol, o, c) && e.pid in c.livePids) || e == SpawnKill(c.pkg))
      && (FastPath(pol, o, c) && AllReached(o, c) ==>
            a == seq(|c.livePids|, n requires 0 <= n < |c.livePids| => Signal(c.livePids[n])))
      && (a != [] && !(FastPath(pol, o, c) && AllReached(o, c)) ==>
            a[|a| - 1] == SpawnKill(c.pkg) && SpawnKill(c.pkg) !in a[..|a| - 1])
      && (a != [] && !FastPath(pol, o, c) ==> a == [SpawnKill(c.pkg)])
  {
    hide SignalRun, Guarded, Cached, Confirmed, AllReached, CarriedOut;
    AttemptsAre(pol, o, c);
    SignalRunIsSignals(o, c.livePids);
    SignalsStart(o, c.livePids);
    if AllReached(o, c) { ReachedIsSignalled(o, c); }
  }

  // What the record says was done: nothing under observe, declined (-2) for a guarded package,
  // signalled (0) when every PID was reached on the fast path, else the spawner's answer; and
  // the method that was used or, under observe, would be.
  lemma RecordIsTruthful(pol: Policy, o: Answers, c: Candidate, i: PassInfo)
    requires c.livePids != [] && Sound(o)
    ensures var r := RecordOf(pol, o, c, i); var guarded := Guarded(pol, o, c);
      var signalled := FastPath(pol, o, c) && AllReached(o, c);
      && r.spawnErrno == (if !pol.switches.actMode then None else if guarded then Some(-2)
                          else if signalled then Some(0) else Some(o.spawn(c.pkg)))
      && r.event == (if !pol.switches.actMode then SimulatedKill else if guarded then KillSkipped else Kill)
      && (r.how == Sigkill <==> if pol.switches.actMode then signalled
                                else pol.switches.isRoot && !guarded && Cached(o, c))
      && (r.SpawnSkipped() <==> CarriedOut(pol, o, c).attempts == [])
      && (r.amsProtected <==> guarded)
  {
    hide MinAdj, SignalRun, Revalidates, AllSignalled, Guarded, Cached, Confirmed, AllReached, Protected;
    LowestDecides(pol, o, c);
    AttemptsAreGuarded(pol, o, c);
    assert o.spawn(c.pkg) >= -1;
  }

  // Every attempt a step makes belongs to one of its decisions and is recorded as a kill.
  lemma {:induction false} AttemptHasDecision(pol: Policy, o: Answers, cs: seq<Candidate>, i: PassInfo, e: Effect)
    requires e in PassEffects(pol, o, cs, i) && !e.Killed?
    ensures exists c :: c in cs && e in CarriedOut(pol, o, c).attempts
  {
    var n := |cs| - 1;
    if e in PassEffects(pol, o, cs[..n], i) {
      AttemptHasDecision(pol, o, cs[..n], i, e);
      var c :| c in cs[..n] && e in CarriedOut(pol, o, c).attempts;
      assert c in cs;
    } else {
      assert e in CarriedOut(pol, o, cs[n]).attempts;
      assert cs[n] in cs;
    }
  }

  lemma AttemptIsRecorded(pol: Policy, o: Answers, c: Candidate, i: PassInfo, e: Effect)
    requires c.livePids != [] && Sound(o) && e in CarriedOut(pol, o, c).attempts
    ensures var r := RecordOf(pol, o, c, i);
      && pol.switches.actMode && r.event == Kill
      && (e == SpawnKill(r.pkg) || (e.Signal? && e.pid in r.pids && r.oomScoreAdj >= 900))
  {
    hide MinAdj, SignalRun, Revalidates, AllSignalled, Guarded, Cached, Confirmed, AllReached, Protected, CarriedOut;
    AttemptsAreGuarded(pol, o, c);
    RecordIsTruthful(pol, o, c, i);
    LowestDecides(pol, o, c);
  }

  lemma AttemptsBelongToDecisions(s: State, i: Input, o: Answers, e: Effect)
    requires Sound(o) && i.Line? && e in PassAdds(s, i, o) && !e.Killed?
    ensures Prepare(s, i, o).policy.switches.actMode
    ensures exists r :: r in Decisions(s, i, o) && r.event == Kill
              && (e == SpawnKill(r.pkg) || (e.Signal? && e.pid in r.pids && r.oomScoreAdj >= 900))
  {
    hide Prepare, CarriedOut, PassEffects, Candidates, Reaps, RecordOf;
    var p := Prepare(s, i, o);
    var cs, info := Chosen(p, o, i.now), InfoOf(p, o, i.now);
    AttemptHasDecision(p.policy, o, cs, info, e);
    var c :| c in cs && e in CarriedOut(p.policy, o, c).attempts;
    GreedyChoice(p, o, i.now);
    CandidatesAre(p, o, PassGate(p, o, i.now));
    AttemptIsRecorded(p.policy, o, c, info, e);
    var n :| 0 <= n < |cs| && cs[n] == c;
    assert Records(p.policy, o, cs, info)[n] == RecordOf(p.policy, o, c, info);
    assert RecordOf(p.policy, o, c, info) in Decisions(s, i, o);
  }
}
