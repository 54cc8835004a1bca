/** The death table: forgetting old entries never changes a respawn record. */
module DeathLaws {
  import opened Prelude
  import opened Engine
  import opened StepShape
  import opened AgeLaws

  // The table a daemon that never prunes would keep alongside the engine.
  function Remember(full: map<Pkg, nat>, s: State, i: Input): map<Pkg, nat> {
    match i
    case Reload(_, _, _, _) => full
    case Line(now, e) =>
      var jump := ClockJump(s.last, now);
      var f := if jump == 0 then full else ShiftAll(full, jump);
      match e
      case ProcStart(_, pkg, _, _, _) => f - {pkg}
      case ProcDied(pid) => if pid in s.idx.pidToPkg then f[s.idx.pidToPkg[pid] := now] else f
      case _ => f
  }

  // The respawn record it would write.
  function RememberedRespawn(full: map<Pkg, nat>, s: State, i: Input): seq<Effect> {
    if i.Line? && i.event.ProcStart? then
      var jump := ClockJump(s.last, i.now);
      RespawnAdds(if jump == 0 then full else ShiftAll(full, jump), i.event, i.now)
    else []
  }

  predicate Expired(death: nat, now: nat) { SatSub(now, death) > 120_000 }

  // The engine's table is the full one less entries past their time to live.
  ghost predicate Prunes(deaths: map<Pkg, nat>, full: map<Pkg, nat>, now: nat) {
    && (forall k | k in deaths :: k in full && full[k] == deaths[k])
    && forall k | k in full && k !in deaths :: Expired(full[k], now)
  }

  ghost predicate Bounded(full: map<Pkg, nat>, now: nat) { forall k | k in full :: full[k] <= now }

  // A backward step lands beyond the time to live.
  predicate LandsLate(prev: u64, now: u64) { now < prev ==> now > 120_000 }

  // An expired entry stays expired across a clock sample that fits the cast and, if it steps
  // back, lands beyond the time to live.
  lemma ExpiredStaysExpired(prev: u64, now: u64, death: nat)
    requires death <= prev && Expired(death, prev)
    requires ForwardFits(prev, now) && BackwardFits(prev, now) && LandsLate(prev, now)
    ensures Expired(Shift(death, ClockJump(prev, now)), now)
  {
    AgeAfterSample(prev, now, death);
  }

  // For a backward step that bound is exact: landing at or below it revives some entry.
  lemma ExpiryIff(prev: u64, now: u64)
    requires 120_000 < prev && now < prev && BackwardFits(prev, now)
    ensures (forall death: nat | death <= prev && Expired(death, prev) ::
               Expired(Shift(death, ClockJump(prev, now)), now)) <==> now > 120_000
  {
    if now > 120_000 {
      forall death: nat | death <= prev && Expired(death, prev)
        ensures Expired(Shift(death, ClockJump(prev, now)), now)
      {
        ExpiredStaysExpired(prev, now, death);
      }
    } else {
      var death: nat := 0;
      assert Expired(death, prev) && Shift(death, ClockJump(prev, now)) == 0;
    }
  }

  lemma AdvanceKeepsPruning(s: State, full: map<Pkg, nat>, now: u64)
    requires Prunes(s.deaths, full, s.last) && Bounded(full, s.last)
    requires ForwardFits(s.last, now) && BackwardFits(s.last, now) && LandsLate(s.last, now)
    ensures var jump := ClockJump(s.last, now); var f := if jump == 0 then full else ShiftAll(full, jump);
      Prunes(Advance(s, now).deaths, f, now) && Bounded(f, now)
  {
    var jump := ClockJump(s.last, now);
    forall k | k in full ensures Shift(full[k], jump) <= now { AgeAfterSample(s.last, now, full[k]); }
    forall k | k in full && k !in s.deaths ensures Expired(Shift(full[k], jump), now) {
      ExpiredStaysExpired(s.last, now, full[k]);
    }
  }

  lemma PruneForgetsExpired(deaths: map<Pkg, nat>, full: map<Pkg, nat>, now: nat)
    requires Prunes(deaths, full, now)
    ensures Prunes(PruneDeaths(deaths, now), full, now)
    ensures |PruneDeaths(deaths, now)| <= 64
            || forall k | k in PruneDeaths(deaths, now) :: !Expired(PruneDeaths(deaths, now)[k], now)
  {
  }

  ghost function Fresh(deaths: map<Pkg, nat>, now: nat): set<Pkg> {
    set k | k in deaths && !Expired(deaths[k], now)
  }

  // The table is not capped: after a death it fits 64 entries exactly when no more than 64
  // packages died within the time to live.
  lemma CapHoldsIff(deaths: map<Pkg, nat>, now: nat)
    ensures |PruneDeaths(deaths, now)| <= 64 <==> |Fresh(deaths, now)| <= 64
  {
    var t := PruneDeaths(deaths, now);
    SubsetIsSmaller(Fresh(deaths, now), deaths.Keys);
    assert |deaths.Keys| == |deaths| && |t.Keys| == |t|;
    assert |deaths| > 64 ==> t.Keys == Fresh(deaths, now);
  }

  lemma StepDeaths(s: State, i: Input, o: Answers)
    ensures var a := if i.Line? then Advance(s, i.now) else s;
      Step(s, i, o).deaths ==
      if i.Line? && i.event.ProcStart? then a.deaths - {i.event.pkg}
      else if i.Line? && i.event.ProcDied? && i.event.pid in s.idx.pidToPkg
      then PruneDeaths(a.deaths[s.idx.pidToPkg[i.event.pid] := i.now], i.now)
      else a.deaths
    ensures Step(s, i, o).last == if i.Line? then i.now else s.last
  {
    hide Focus, Admit, OnDied, OnScreen, Pass;
    StepIs(s, i, o);
    PrepareKeepsClock(s, i, o);
    if i.Line? {
      var a := Advance(s, i.now);
      match i.event
      case ResumeActivity(pkg, component) => FocusFrame(a, pkg, component, i.now);
      case ProcStart(_, _, _, _, _) => AdmitFrame(a, i.event, o.startRssKb, i.now);
      case ProcDied(pid) => DiedFrame(a, pid, i.now);
      case ScreenToggled(on) => ScreenFrame(a, on, i.now);
      case _ =>
    }
    if Reaps(s, i) { PassIs(Prepare(s, i, o), o, i.now); }
  }

  predicate IsRespawn(e: Effect) { e.Respawn? }

  lemma PrepareRespawns(s: State, i: Input, o: Answers)
    ensures Only(PrepareAdds(s, i, o), IsRespawn) ==
            if i.Line? && i.event.ProcStart? then RespawnAdds(Advance(s, i.now).deaths, i.event, i.now) else []
  {
    if i.Line? && i.event.ProcStart? {
      var a := Advance(s, i.now);
      var x, r := IntrudeAdds(a, i.event, o.startRssKb, i.now), RespawnAdds(a.deaths, i.event, i.now);
      OnlyConcat(x, r, IsRespawn);
      OnlyNone(x, IsRespawn);
      if r != [] { OnlyOne(r[0], IsRespawn); }
    } else {
      OnlyNone(PrepareAdds(s, i, o), IsRespawn);
    }
  }

  lemma PassRespawns(s: State, i: Input, o: Answers)
    ensures Only(PassAdds(s, i, o), IsRespawn) == []
  {
    if Reaps(s, i) {
      var p := Prepare(s, i, o);
      PassOnlyKills(p.policy, o, Chosen(p, o, i.now), InfoOf(p, o, i.now));
    }
    OnlyNone(PassAdds(s, i, o), IsRespawn);
  }

  // The respawn record of a step, as the engine's own (pruned) table yields it.
  lemma StepRespawns(s: State, i: Input, o: Answers)
    ensures Only(Step(s, i, o).out, IsRespawn) == Only(s.out, IsRespawn) +
            (if i.Line? && i.event.ProcStart? then RespawnAdds(Advance(s, i.now).deaths, i.event, i.now) else [])
  {
    StepAppends(s, i, o);
    OnlyConcat(s.out, PrepareAdds(s, i, o), IsRespawn);
    OnlyConcat(s.out + PrepareAdds(s, i, o), PassAdds(s, i, o), IsRespawn);
    PrepareRespawns(s, i, o);
    PassRespawns(s, i, o);
  }

  // The engine, the full table beside it and the respawn records that table yields.
  datatype Beside = Beside(s: State, full: map<Pkg, nat>, respawns: seq<Effect>)

  ghost function BesideRun(s: State, run: seq<Happening>): Beside {
    if run == [] then Beside(s, s.deaths, Only(s.out, IsRespawn))
    else
      var b := BesideRun(s, run[..|run| - 1]);
      var h := run[|run| - 1];
      Beside(Step(b.s, h.input, h.answers), Remember(b.full, b.s, h.input),
             b.respawns + RememberedRespawn(b.full, b.s, h.input))
  }

  // Every sample of the run fits the cast and no backward step lands within the time to live.
  ghost predicate Timely(s: State, run: seq<Happening>) {
    run != [] ==>
      var i := run[|run| - 1].input;
      var prev := Run(s, run[..|run| - 1]).last;
      && Timely(s, run[..|run| - 1])
      && (i.Line? ==> LandsLate(prev, i.now) && ForwardFits(prev, i.now) && BackwardFits(prev, i.now))
  }

  lemma DeathKeepsPruning(deaths: map<Pkg, nat>, full: map<Pkg, nat>, k: Pkg, now: nat)
    requires Prunes(deaths, full, now) && Bounded(full, now)
    ensures Prunes(deaths[k := now], full[k := now], now) && Bounded(full[k := now], now)
    ensures Prunes(deaths - {k}, full - {k}, now) && Bounded(full - {k}, now)
  {
  }

  lemma StepPrunes(s: State, full: map<Pkg, nat>, i: Input, o: Answers)
    requires Prunes(s.deaths, full, s.last) && Bounded(full, s.last) && i.Line?
    requires LandsLate(s.last, i.now) && ForwardFits(s.last, i.now) && BackwardFits(s.last, i.now)
    ensures Prunes(Step(s, i, o).deaths, Remember(full, s, i), i.now) && Bounded(Remember(full, s, i), i.now)
  {
    hide Step, Advance, PruneDeaths, ClockJump, Prunes, Bounded, ShiftAll;
    var jump := ClockJump(s.last, i.now);
    var a, f := Advance(s, i.now).deaths, if jump == 0 then full else ShiftAll(full, jump);
    StepDeaths(s, i, o);
    AdvanceKeepsPruning(s, full, i.now);
    if i.event.ProcStart? {
      DeathKeepsPruning(a, f, i.event.pkg, i.now);
    } else if i.event.ProcDied? && i.event.pid in s.idx.pidToPkg {
      var k := s.idx.pidToPkg[i.event.pid];
      AdvanceFrame(s, i.now);
      DeathKeepsPruning(a, f, k, i.now);
      PruneForgetsExpired(a[k := i.now], f[k := i.now], i.now);
    }
  }

  // Both tables yield the same respawn record: a missing entry is past its time to live.
  lemma SameRespawn(s: State, full: map<Pkg, nat>, i: Input, o: Answers)
    requires Prunes(s.deaths, full, s.last) && Bounded(full, s.last)
    requires i.Line? ==> LandsLate(s.last, i.now) && ForwardFits(s.last, i.now) && BackwardFits(s.last, i.now)
    ensures Only(Step(s, i, o).out, IsRespawn) == Only(s.out, IsRespawn) + RememberedRespawn(full, s, i)
  {
    StepRespawns(s, i, o);
    if i.Line? { AdvanceKeepsPruning(s, full, i.now); }
  }

  // Pruning loses nothing: on every such run the daemon writes exactly the respawn records
  // of a daemon that never forgets a death, across clock rebasing.
  lemma {:induction false} PruningLosesNothing(s: State, run: seq<Happening>)
    requires Bounded(s.deaths, s.last) && Timely(s, run)
    ensures var b := BesideRun(s, run);
      && b.s == Run(s, run) && Only(b.s.out, IsRespawn) == b.respawns
      && Prunes(b.s.deaths, b.full, b.s.last) && Bounded(b.full, b.s.last)
  {
    if run != [] {
      var n := |run| - 1;
      PruningLosesNothing(s, run[..n]);
      var b := BesideRun(s, run[..n]);
      SameRespawn(b.s, b.full, run[n].input, run[n].answers);
      if run[n].input.Line? {
        StepPrunes(b.s, b.full, run[n].input, run[n].answers);
      }
      StepDeaths(b.s, run[n].input, run[n].answers);
    }
  }

  // --- the condition is exact --------------------------------------------------------------------

  function Rebased(m: map<Pkg, nat>, jump: int): map<Pkg, nat> { if jump == 0 then m else ShiftAll(m, jump) }

  // Two death tables yield the same respawn record at the next sample.
  predicate Agree(deaths: map<Pkg, nat>, full: map<Pkg, nat>, e: Event, prev: u64, now: u64)
    requires e.ProcStart?
  {
    var jump := ClockJump(prev, now);
    RespawnAdds(Rebased(deaths, jump), e, now) == RespawnAdds(Rebased(full, jump), e, now)
  }

  ghost predicate AllAgree(prev: u64, now: u64) {
    forall deaths, full, e: Event | Prunes(deaths, full, prev) && Bounded(full, prev) && e.ProcStart? ::
      Agree(deaths, full, e, prev, now)
  }

  lemma TablesAgree(deaths: map<Pkg, nat>, full: map<Pkg, nat>, e: Event, prev: u64, now: u64)
    requires Prunes(deaths, full, prev) && Bounded(full, prev) && e.ProcStart?
    requires ForwardFits(prev, now) && BackwardFits(prev, now) && LandsLate(prev, now)
    ensures Agree(deaths, full, e, prev, now)
  {
    if e.pkg in full {
      AgeAfterSample(prev, now, full[e.pkg]);
      if e.pkg !in deaths {
        ExpiredStaysExpired(prev, now, full[e.pkg]);
        assert Expired(Rebased(full, ClockJump(prev, now))[e.pkg], now);
      }
    }
  }

  // A pruned table and a complete one agree on every respawn record at the next sample exactly
  // when a backward step does not land within the time to live.
  lemma AgreeIff(prev: u64, now: u64)
    requires 120_000 < prev && ForwardFits(prev, now) && BackwardFits(prev, now)
    ensures AllAgree(prev, now) <==> LandsLate(prev, now)
  {
    hide Agree, RespawnAdds;
    if LandsLate(prev, now) {
      forall deaths, full, e: Event | Prunes(deaths, full, prev) && Bounded(full, prev) && e.ProcStart?
        ensures Agree(deaths, full, e, prev, now)
      {
        TablesAgree(deaths, full, e, prev, now);
      }
    } else {
      var none: map<Pkg, nat> := map[];
      var e := ProcStart("app.a", "app.a", "service", 7, APP_UID_MIN);
      RevivedDeath(prev, now, e);
      assert Prunes(none, map["app.a" := 0], prev) && Bounded(map["app.a" := 0], prev);
    }
  }

  // A death at time 0, long expired and forgotten, counts again after such a step.
  lemma RevivedDeath(prev: u64, now: u64, e: Event)
    requires 120_000 < prev && BackwardFits(prev, now) && !LandsLate(prev, now)
    requires e.ProcStart? && e.pkg == "app.a"
    ensures !Agree(map[], map["app.a" := 0], e, prev, now)
  {
    var jump := ClockJump(prev, now);
    assert jump != 0 && Rebased(map["app.a" := 0], jump)["app.a"] == 0;
    assert e.pkg !in Rebased(map[], jump);
  }

  // --- the table has no cap ------------------------------------------------------------------------

  function NameOf(n: nat): Pkg { if n == 0 then "a" else NameOf(n - 1) + "a" }

  lemma {:induction false} NameLength(n: nat)
    ensures |NameOf(n)| == n + 1
  {
    if n > 0 { NameLength(n - 1); }
  }

  ghost function Names(n: nat): set<Pkg> { if n == 0 then {} else Names(n - 1) + {NameOf(n - 1)} }

  lemma {:induction false} NamesAreMany(n: nat)
    ensures |Names(n)| == n && forall k | k in Names(n) :: |k| <= n
  {
    if n > 0 {
      NamesAreMany(n - 1);
      NameLength(n - 1);
    }
  }

  function StartOf(n: nat, now: u64): Input { Line(now, ProcStart(NameOf(n), NameOf(n), "service", n + 1, 1000)) }

  // n packages start and die at one moment.
  function Churn(n: nat, now: u64, o: Answers): seq<Happening> {
    if n == 0 then []
    else Churn(n - 1, now, o) + [Happening(StartOf(n - 1, now), o), Happening(Line(now, ProcDied(n)), o)]
  }

  ghost predicate Churned(s: State, n: nat, now: u64) {
    && s.last == now && s.idx.pidToPkg == map[]
    && (forall k | k in s.deaths :: s.deaths[k] == now)
    && s.deaths.Keys == Names(n)
  }

  lemma StartRuns(s: State, n: nat, now: u64, o: Answers)
    requires Churned(s, n, now)
    ensures var t := Step(s, StartOf(n, now), o);
      t.deaths == s.deaths && t.last == now && t.idx.pidToPkg == map[n + 1 := NameOf(n)]
  {
    hide Admit, Pass, Step, Advance, Names, NameOf;
    var i := StartOf(n, now);
    SameTime(s, now);
    StepIs(s, i, o);
    StepDeaths(s, i, o);
    AdmitFrame(s, i.event, o.startRssKb, now);
    NewName(s.deaths, n);
  }

  lemma SameTime(s: State, now: u64)
    requires s.last == now
    ensures Advance(s, now) == s
  {
  }

  lemma DeathUnmaps(t: State, pid: Pid, k: Pkg, now: u64, o: Answers)
    requires t.last == now && t.idx.pidToPkg == map[pid := k]
    ensures Step(t, Line(now, ProcDied(pid)), o).idx.pidToPkg == map[]
  {
    hide OnDied, Pass, Step, Advance, PruneDeaths;
    var j := Line(now, ProcDied(pid));
    SameTime(t, now);
    StepIs(t, j, o);
    DiedFrame(t, pid, now);
  }

  lemma OneMoreName(deaths: map<Pkg, nat>, n: nat, now: nat)
    requires deaths.Keys == Names(n) && forall k | k in deaths :: deaths[k] == now
    ensures var d := deaths[NameOf(n) := now]; d.Keys == Names(n + 1) && forall k | k in d :: d[k] == now
  {
  }

  lemma DeathRuns(t: State, n: nat, now: u64, o: Answers)
    requires t.last == now && t.idx.pidToPkg == map[n + 1 := NameOf(n)]
    requires (forall k | k in t.deaths :: t.deaths[k] == now) && t.deaths.Keys == Names(n)
    ensures Churned(Step(t, Line(now, ProcDied(n + 1)), o), n + 1, now)
  {
    hide OnDied, Pass, Step, Advance, NameOf, PruneDeaths, Unindex, Names;
    SameTime(t, now);
    StepDeaths(t, Line(now, ProcDied(n + 1)), o);
    DeathUnmaps(t, n + 1, NameOf(n), now, o);
    OneMoreName(t.deaths, n, now);
    NothingExpires(t.deaths[NameOf(n) := now], now);
  }

  lemma StartAndDie(s: State, n: nat, now: u64, o: Answers)
    requires Churned(s, n, now)
    ensures Churned(Step(Step(s, StartOf(n, now), o), Line(now, ProcDied(n + 1)), o), n + 1, now)
  {
    hide Step, StartOf, Names, NameOf;
    StartRuns(s, n, now, o);
    DeathRuns(Step(s, StartOf(n, now), o), n, now, o);
  }

  lemma NewName(deaths: map<Pkg, nat>, n: nat)
    requires deaths.Keys == Names(n)
    ensures NameOf(n) !in deaths && deaths - {NameOf(n)} == deaths
  {
    NamesAreMany(n);
    NameLength(n);
  }

  lemma NothingExpires(deaths: map<Pkg, nat>, now: nat)
    requires forall k | k in deaths :: deaths[k] == now
    ensures PruneDeaths(deaths, now) == deaths
  {
  }

  lemma {:induction false} ChurnRuns(s: State, n: nat, now: u64, o: Answers)
    requires Churned(s, 0, now)
    ensures Churned(Run(s, Churn(n, now, o)), n, now)
  {
    hide Step, Churned;
    if n > 0 {
      var front := Churn(n - 1, now, o);
      var a, b := Happening(StartOf(n - 1, now), o), Happening(Line(now, ProcDied(n)), o);
      ChurnRuns(s, n - 1, now, o);
      assert (front + [a, b])[..|front| + 1] == front + [a] && (front + [a])[..|front|] == front;
      StartAndDie(Run(s, front), n - 1, now, o);
    }
  }

  // From boot, n packages that start and die within the time to live leave n entries, for
  // every n: no capacity of 64, nor any other, bounds the table.
  lemma DeathTableGrows(sw: Switches, config: Config, screenOn: bool, now: u64, o: Answers, n: nat)
    ensures |Run(Boot(sw, config, screenOn, now), Churn(n, now, o)).deaths| == n
  {
    hide Step;
    var s := Boot(sw, config, screenOn, now);
    ChurnRuns(s, n, now, o);
    NamesAreMany(n);
    var t := Run(s, Churn(n, now, o));
    assert |t.deaths| == |t.deaths.Keys|;
  }
}
