/** What each event does to the tables, timers and records, stated on the tables themselves
    and with the figures of the documentation. */
module HandlerLaws {
  import opened Prelude
  import opened Engine
  import opened StepShape
  import opened AgeLaws

  // --- a resume ----------------------------------------------------------------------------------

  // The package that loses the focus was first reported as an app.
  predicate Leaves(a: State, pkg: Pkg) {
    && a.fg.Some? && a.fg.value != pkg
    && a.fg.value in a.idx.pkgToUid && a.idx.pkgToUid[a.fg.value] >= 10_000
  }

  // Time since its anchor.
  function Stayed(a: State, pkg: Pkg, now: nat): nat {
    if Leaves(a, pkg) && a.fg.value in a.alive then Age(a.alive[a.fg.value], now) else 0
  }

  lemma StayedIs(a: State, pkg: Pkg, now: nat)
    ensures PrevDurMs(a, pkg, now) == Stayed(a, pkg, now) && (Departs(a, pkg) <==> Leaves(a, pkg))
  {
  }

  // A package that leaves the foreground is stamped, or entered, with the time it leaves; the
  // resumed one takes its place; nothing else in the tables moves.
  lemma ResumeTables(s: State, now: u64, pkg: Pkg, component: string, o: Answers)
    ensures var a, p := Advance(s, now), Prepare(s, Line(now, ResumeActivity(pkg, component)), o);
      && p.alive == (if Leaves(a, pkg) then a.alive[a.fg.value := now] else a.alive)
      && p.fg == Some(pkg) && p.idx == s.idx && p.deaths == a.deaths && p.screenOn == s.screenOn && p.last == now
      && p.policy == s.policy
  {
    hide Focus, Advance, Departs, Promote, Trampoline, Leaves;
    var a := Advance(s, now);
    AdvanceFrame(s, now);
    FocusFrame(a, pkg, component, now);
    StayedIs(a, pkg, now);
  }

  // One fg_switch record, stating how long the departing package had been anchored; in front
  // of it the pending counts, if there are any, and the edge of a game session.
  lemma ResumeRecords(s: State, now: u64, pkg: Pkg, component: string, o: Answers)
    ensures var a, p := Advance(s, now), Prepare(s, Line(now, ResumeActivity(pkg, component)), o);
      p.out == s.out
        + ((if a.rep.stats == Stats(0, 0, a.rep.stats.spawnRssKb) then []
            else [BgSummary(now, Age(a.timers.sessionStart, now) / 1000, a.rep.stats.bgSpawns, a.rep.stats.bgDeaths,
                            a.rep.stats.spawnRssKb)])
           + (if pkg in a.policy.games && !a.rep.isGaming then [GameStart(now, pkg)]
              else if pkg !in a.policy.games && a.rep.isGaming then
                [GameEnd(now, Age(a.timers.gameStart.GetOr(now), now) / 1000, a.rep.intrusions)]
              else [])
           + [FgSwitch(now, pkg, component, Stayed(a, pkg, now), pkg in a.policy.games)])
  {
    hide Focus, Advance, PrevDurMs, Stayed;
    var a := Advance(s, now);
    AdvanceFrame(s, now);
    FocusAppends(a, pkg, component, now);
    StayedIs(a, pkg, now);
  }

  // The counts start over when there were any, and with them the interval; a game session
  // begins and ends with the focus.
  lemma ResumeReports(s: State, now: u64, pkg: Pkg, component: string, o: Answers)
    ensures var a, p := Advance(s, now), Prepare(s, Line(now, ResumeActivity(pkg, component)), o);
      var pending := a.rep.stats.bgSpawns > 0 || a.rep.stats.bgDeaths > 0;
      && p.rep.stats == (if pending then Stats(0, 0, 0) else a.rep.stats)
      && p.timers.sessionStart == (if pending then now else a.timers.sessionStart)
      && (p.rep.isGaming <==> pkg in s.policy.games)
      && p.rep.intrusions == (if pkg in s.policy.games && !a.rep.isGaming then 0 else a.rep.intrusions)
      && p.timers.gameStart == (if p.rep.isGaming == a.rep.isGaming then a.timers.gameStart
                                else if p.rep.isGaming then Some(now) else None)
      && p.timers.screenOnStart == a.timers.screenOnStart && p.timers.screenOffStart == a.timers.screenOffStart
  {
    hide Advance, FocusTables, GameEdge;
    AdvanceFrame(s, now);
    TablesReport(Advance(s, now), pkg, now);
    SessionEdge(FocusTables(Advance(s, now), pkg, now), pkg, now);
  }

  lemma TablesReport(a: State, pkg: Pkg, now: nat)
    ensures var t := FocusTables(a, pkg, now); var pending := a.rep.stats.bgSpawns > 0 || a.rep.stats.bgDeaths > 0;
      && t.rep == a.rep.(stats := if pending then Stats(0, 0, 0) else a.rep.stats)
      && t.timers == a.timers.(sessionStart := if pending then now else a.timers.sessionStart)
      && t.policy == a.policy
  {
    hide Promote, Trampoline, PrevDurMs, Departs;
  }

  lemma SessionEdge(t: State, pkg: Pkg, now: nat)
    ensures var u := GameEdge(t, pkg, now);
      && u == t.(rep := u.rep, timers := u.timers, out := u.out) && u.rep.stats == t.rep.stats
      && (u.rep.isGaming <==> pkg in t.policy.games)
      && u.rep.intrusions == (if pkg in t.policy.games && !t.rep.isGaming then 0 else t.rep.intrusions)
      && u.timers == t.timers.(gameStart := if u.rep.isGaming == t.rep.isGaming then t.timers.gameStart
                                            else if u.rep.isGaming then Some(now) else None)
  {
  }

  // A package that held the focus for less than half a second is dropped from the history.
  predicate Trampolined(a: State, pkg: Pkg, now: nat) { 0 < Stayed(a, pkg, now) < 500 }

  // The resumed package enters the history, a trampoline leaves it, and no other comes in; the
  // others stay while there is room.
  lemma ResumeHistory(s: State, now: u64, pkg: Pkg, component: string, o: Answers)
    requires NoDup(s.lru)
    ensures var a, p := Advance(s, now), Prepare(s, Line(now, ResumeActivity(pkg, component)), o);
      var gone := k => Trampolined(a, pkg, now) && a.fg == Some(k);
      && (forall k | k in p.lru :: k == pkg || (k in s.lru && !gone(k)))
      && (|s.lru| < s.policy.config.fgLruMaxDepth || pkg in s.lru ==>
            pkg in p.lru && forall k | k in s.lru && k != pkg && !gone(k) :: k in p.lru)
  {
    hide Focus, Advance, PrevDurMs, Stayed;
    var a := Advance(s, now);
    AdvanceFrame(s, now);
    FocusFrame(a, pkg, component, now);
    StayedIs(a, pkg, now);
    var q := Trampoline(a.lru, a.fg, PrevDurMs(a, pkg, now));
    WithoutOne(a.lru, if a.fg.Some? then a.fg.value else pkg);
    StayedNeedsFocus(a, pkg, now);
    PromotedMembers(q, pkg, s.policy.config.fgLruMaxDepth);
  }

  lemma StayedNeedsFocus(a: State, pkg: Pkg, now: nat)
    ensures Stayed(a, pkg, now) > 0 ==> a.fg.Some? && a.fg.value != pkg
  {
  }

  lemma WithoutOne(q: seq<Pkg>, x: Pkg)
    requires NoDup(q)
    ensures forall k :: k in Without(q, x) <==> k in q && k != x
    ensures |Without(q, x)| <= |q|
  {
    if x in q {
      var i := Position(q, x).value;
      assert q == q[..i] + [x] + q[i + 1..];
    }
  }

  lemma PromotedMembers(q: seq<Pkg>, pkg: Pkg, depth: nat)
    ensures forall k | k in Promote(q, pkg, depth) :: k == pkg || k in q
    ensures |q| < depth || pkg in q ==> forall k :: k in Promote(q, pkg, depth) <==> k == pkg || k in q
  {
    if pkg in q {
      var i := Position(q, pkg).value;
      assert q == q[..i] + [pkg] + q[i + 1..];
    }
  }

  // --- a start -----------------------------------------------------------------------------------

  predicate StartsInFront(spawnType: string) { spawnType == "top-activity" || spawnType == "next-top-activity" }

  // A start indexes its PID, keeps the first uid reported for the package, takes its death out
  // of the table, and enters an app that is not aged yet with the current time.
  lemma StartTables(s: State, now: u64, e: Event, o: Answers)
    requires e.ProcStart?
    ensures var a, p := Advance(s, now), Prepare(s, Line(now, e), o);
      && p.idx.pidToPkg == s.idx.pidToPkg[e.pid := e.pkg]
      && p.idx.pkgToPids == s.idx.pkgToPids[
           e.pkg := (if e.pkg in s.idx.pkgToPids then s.idx.pkgToPids[e.pkg] else {}) + {e.pid}]
      && p.idx.pkgToUid == (if e.pkg in s.idx.pkgToUid then s.idx.pkgToUid else s.idx.pkgToUid[e.pkg := e.uid])
      && p.alive == (if e.uid >= 10_000 && e.pkg !in a.alive then a.alive[e.pkg := now] else a.alive)
      && p.deaths == a.deaths - {e.pkg}
      && p.fg == s.fg && p.lru == s.lru && p.screenOn == s.screenOn && p.timers == a.timers && p.last == now
  {
    hide Admit, Advance;
    AdvanceFrame(s, now);
    AdmitFrame(Advance(s, now), e, o.startRssKb, now);
  }

  // It counts unless the package is in front, and during a game as an intrusion unless it is
  // for the foreground.
  lemma StartReports(s: State, now: u64, e: Event, o: Answers)
    requires e.ProcStart?
    ensures var p, st := Prepare(s, Line(now, e), o), s.rep.stats;
      && p.rep.stats == (if s.fg == Some(e.pkg) then st
                         else Stats(st.bgSpawns + 1, st.bgDeaths, st.spawnRssKb + o.startRssKb))
      && p.rep.isGaming == s.rep.isGaming
      && p.rep.intrusions == s.rep.intrusions + if s.rep.isGaming && !StartsInFront(e.spawnType) then 1 else 0
  {
    hide Advance, Admit, Intrude, CountSpawn;
    AdvanceFrame(s, now);
    AdmitRep(Advance(s, now), e, o.startRssKb, now);
    IntrudeRep(Advance(s, now), e, o.startRssKb, now);
  }

  lemma AdmitRep(a: State, e: Event, rssKb: nat, now: nat)
    requires e.ProcStart?
    ensures Admit(a, e, rssKb, now).rep == Intrude(CountSpawn(a, e.pkg, rssKb), e, rssKb, now).rep
  {
    hide Intrude, CountSpawn, PidsOf;
  }

  lemma IntrudeRep(a: State, e: Event, rssKb: nat, now: nat)
    requires e.ProcStart?
    ensures var r := Intrude(CountSpawn(a, e.pkg, rssKb), e, rssKb, now).rep; var st := a.rep.stats;
      && r.stats == (if a.fg == Some(e.pkg) then st else Stats(st.bgSpawns + 1, st.bgDeaths, st.spawnRssKb + rssKb))
      && r.isGaming == a.rep.isGaming
      && r.intrusions == a.rep.intrusions + if a.rep.isGaming && !StartsInFront(e.spawnType) then 1 else 0
  {
    hide IsExcluded;
  }

  // An intrusion is recorded, saying whether its package is protected; a death at most two
  // minutes old makes the start a respawn.
  lemma StartRecords(s: State, now: u64, e: Event, o: Answers)
    requires e.ProcStart?
    ensures var a, p := Advance(s, now), Prepare(s, Line(now, e), o);
      p.out == s.out
        + ((if s.rep.isGaming && !StartsInFront(e.spawnType) then
              [GameIntrusion(now, e.pid, e.uid, e.pkg, e.procName, e.spawnType, o.startRssKb,
                 e.pkg in s.policy.userExclusions || e.pkg in s.policy.dynamicExclusions || s.fg == Some(e.pkg))]
            else [])
           + (if e.pkg in a.deaths && Age(a.deaths[e.pkg], now) <= 120_000 then
                [Respawn(now, e.pkg, Age(a.deaths[e.pkg], now), e.pid, e.uid, e.spawnType)]
              else []))
  {
    hide Advance, Admit;
    AdvanceFrame(s, now);
    AdmitAppends(Advance(s, now), e, o.startRssKb, now);
  }

  // --- a death -----------------------------------------------------------------------------------

  // The PID leaves both indexes, and a package leaves the activity table with its last PID. An
  // unknown PID changes nothing.
  lemma DeathTables(s: State, now: u64, pid: Pid, o: Answers)
    ensures var a, p := Advance(s, now), Prepare(s, Line(now, ProcDied(pid)), o);
      if pid !in s.idx.pidToPkg then p == a
      else
        var k := s.idx.pidToPkg[pid];
        && p.idx.pidToPkg == s.idx.pidToPkg - {pid} && p.idx.pkgToUid == s.idx.pkgToUid
        && p.idx.pkgToPids == (if k in s.idx.pkgToPids then s.idx.pkgToPids[k := s.idx.pkgToPids[k] - {pid}]
                               else s.idx.pkgToPids)
        && p.alive == (if k in s.idx.pkgToPids && s.idx.pkgToPids[k] <= {pid} then a.alive - {k} else a.alive)
        && p.fg == s.fg && p.lru == s.lru && p.timers == a.timers && p.out == s.out && p.screenOn == s.screenOn
  {
    hide Advance, PruneDeaths, OnDied;
    var a := Advance(s, now);
    AdvanceFrame(s, now);
    DiedFrame(a, pid, now);
    if pid in s.idx.pidToPkg { Unindexes(a, pid); }
  }

  lemma Unindexes(a: State, pid: Pid)
    requires pid in a.idx.pidToPkg
    ensures var k, t := a.idx.pidToPkg[pid], Unindex(a, pid);
      && t == a.(idx := t.idx, alive := t.alive)
      && t.idx.pidToPkg == a.idx.pidToPkg - {pid} && t.idx.pkgToUid == a.idx.pkgToUid
      && t.idx.pkgToPids == (if k in a.idx.pkgToPids then a.idx.pkgToPids[k := a.idx.pkgToPids[k] - {pid}]
                             else a.idx.pkgToPids)
      && t.alive == (if k in a.idx.pkgToPids && a.idx.pkgToPids[k] <= {pid} then a.alive - {k} else a.alive)
  {
    var k := a.idx.pidToPkg[pid];
    if k in a.idx.pkgToPids { assert a.idx.pkgToPids[k] - {pid} == {} <==> a.idx.pkgToPids[k] <= {pid}; }
  }

  // The death is remembered, with those of the last two minutes, and outside the foreground it
  // counts.
  lemma DeathReports(s: State, now: u64, pid: Pid, o: Answers)
    requires pid in s.idx.pidToPkg
    ensures var a, p := Advance(s, now), Prepare(s, Line(now, ProcDied(pid)), o);
      var k := s.idx.pidToPkg[pid];
      && k in p.deaths && p.deaths[k] == now
      && (forall d | d in a.deaths && d != k && Age(a.deaths[d], now) <= 120_000 ::
            d in p.deaths && p.deaths[d] == a.deaths[d])
      && p.rep == s.rep.(stats := if s.fg == Some(k) then s.rep.stats
                                  else Stats(s.rep.stats.bgSpawns, s.rep.stats.bgDeaths + 1, s.rep.stats.spawnRssKb))
  {
    hide Advance, Unindex;
    AdvanceFrame(s, now);
  }

  // --- the screen --------------------------------------------------------------------------------

  // A toggle that changes the screen moves its marker to the other side, with the current
  // time, records how long the old state lasted and flushes the counts over that time. Any
  // other toggle changes nothing.
  lemma ScreenTables(s: State, now: u64, on: bool, o: Answers)
    ensures var a, p := Advance(s, now), Prepare(s, Line(now, ScreenToggled(on)), o);
      if on == s.screenOn then p == a
      else
        var since := if on then a.timers.screenOffStart else a.timers.screenOnStart;
        var sec := (if since.Some? then Age(since.value, now) else 0) / 1000;
        var pending := a.rep.stats.bgSpawns > 0 || a.rep.stats.bgDeaths > 0;
        && p.screenOn == on
        && p.timers == Timers(if on then Some(now) else None, if on then None else Some(now), a.timers.gameStart,
                              if pending then now else a.timers.sessionStart)
        && p.out == s.out + ([ScreenState(now, on, sec)] + if pending then
             [BgSummary(now, sec, a.rep.stats.bgSpawns, a.rep.stats.bgDeaths, a.rep.stats.spawnRssKb)] else [])
        && p.rep == a.rep.(stats := if pending then Stats(0, 0, 0) else a.rep.stats)
        && p.alive == a.alive && p.idx == s.idx && p.deaths == a.deaths && p.fg == s.fg && p.lru == s.lru
  {
    hide Advance;
    AdvanceFrame(s, now);
  }

  // --- the correction in front of every handler ------------------------------------------------------

  // Between events every anchor moves by the same amount, up to the ends of the u64 range, and
  // by none unless the classifier sees a step.
  lemma CorrectionIsCommon(s: State, now: u64)
    ensures exists jump: int :: (jump != 0 ==> QuietGap(s.last, now) == 0) && Moved(s, Advance(s, now), jump)
  {
    var jump := ClockJump(s.last, now);
    StepIsNotQuiet(s.last, now);
    assert Moved(s, Advance(s, now), jump);
  }

  lemma StepIsNotQuiet(prev: u64, now: u64)
    ensures ClockJump(prev, now) != 0 ==> QuietGap(prev, now) == 0
  {
  }

  function MovedBy(t: nat, jump: int): nat {
    if jump == 0 then t
    else if t + jump < 0 then 0 else if t + jump > 0xFFFF_FFFF_FFFF_FFFF then 0xFFFF_FFFF_FFFF_FFFF else t + jump
  }

  predicate MovedOption(t: Option<nat>, u: Option<nat>, jump: int) {
    (t.None? <==> u.None?) && (t.Some? ==> u == Some(MovedBy(t.value, jump)))
  }

  ghost predicate Moved(s: State, t: State, jump: int) {
    && t.alive.Keys == s.alive.Keys && (forall k | k in s.alive :: t.alive[k] == MovedBy(s.alive[k], jump))
    && t.deaths.Keys == s.deaths.Keys && (forall k | k in s.deaths :: t.deaths[k] == MovedBy(s.deaths[k], jump))
    && MovedOption(s.timers.screenOnStart, t.timers.screenOnStart, jump)
    && MovedOption(s.timers.screenOffStart, t.timers.screenOffStart, jump)
    && MovedOption(s.timers.gameStart, t.timers.gameStart, jump)
    && t.timers.sessionStart == MovedBy(s.timers.sessionStart, jump)
  }

  // --- when a pass is made ------------------------------------------------------------------------------

  // On a change of focus, on an app start outside the foreground, and on an idle step while
  // harvesting; never otherwise.
  lemma PassesWhen(s: State, now: u64, e: Event, o: Answers)
    ensures Step(s, Line(now, e), o) ==
            var p := Prepare(s, Line(now, e), o);
            var passes := match e
              case ResumeActivity(pkg, _) => s.fg != Some(pkg)
              case ProcStart(_, pkg, kind, _, uid) => uid >= 10_000 && s.fg != Some(pkg) && !StartsInFront(kind)
              case ProcDied(_) => false
              case ScreenToggled(_) => false
              case DeviceIdleLightStep => !s.screenOn && s.policy.config.screenOffHarvest;
            if passes then Pass(p, o, now) else p
  {
    hide Prepare, Pass;
    StepIs(s, Line(now, e), o);
  }
}
