/** Who may be decided about: on every run of parsed events, well-named packages that were
    reported with an app uid, through live PIDs that are never 0. */
module EligibilityLaws {
  import opened Prelude
  import opened Engine
  import opened ScanLaws
  import opened StepShape
  import opened Parser

  // --- what has been reported -------------------------------------------------------------------

  ghost function StartReport(i: Input): set<(Pkg, nat)> {
    if i.Line? && i.event.ProcStart? then {(i.event.pkg, i.event.uid)} else {}
  }

  // Every (package, uid) pair of the cold-start sweep and of the start events of a run.
  ghost function Reported(base: set<(Pkg, nat)>, run: seq<Happening>): set<(Pkg, nat)> {
    if run == [] then base else Reported(base, run[..|run| - 1]) + StartReport(run[|run| - 1].input)
  }

  ghost function Swept(entries: seq<Seeded>): set<(Pkg, nat)> {
    if entries == [] then {}
    else Swept(entries[..|entries| - 1]) + {(entries[|entries| - 1].pkg, entries[|entries| - 1].uid)}
  }

  ghost predicate AppReported(seen: set<(Pkg, nat)>, k: Pkg) {
    exists uid: nat :: uid >= 10_000 && (k, uid) in seen
  }

  ghost predicate AllParsed(run: seq<Happening>) {
    forall h | h in run :: h.input.Line? ==> WellFormed(h.input.event)
  }

  // --- the invariant -------------------------------------------------------------------------------

  ghost predicate AliveVouched(alive: map<Pkg, nat>, seen: set<(Pkg, nat)>) {
    forall k | k in alive :: IsProcName(k) && AppReported(seen, k)
  }

  ghost predicate UidsVouched(x: Index, seen: set<(Pkg, nat)>) {
    forall k | k in x.pkgToUid :: (k, x.pkgToUid[k]) in seen
  }

  ghost predicate NoPidZero(x: Index) { 0 !in x.pidToPkg && forall k | k in x.pkgToPids :: 0 !in x.pkgToPids[k] }

  ghost predicate Vouched(s: State, seen: set<(Pkg, nat)>) {
    && AliveVouched(s.alive, seen) && UidsVouched(s.idx, seen) && NoPidZero(s.idx)
    && (s.fg.Some? ==> IsProcName(s.fg.value))
  }

  lemma MoreReports(s: State, seen: set<(Pkg, nat)>, more: set<(Pkg, nat)>)
    requires Vouched(s, seen)
    ensures Vouched(s, seen + more)
  {
    hide IsProcName;
    forall k | k in s.alive ensures AppReported(seen + more, k) {
      var uid: nat :| uid >= 10_000 && (k, uid) in seen;
      assert (k, uid) in seen + more;
    }
  }

  lemma DepartKeepsVouched(a: State, pkg: Pkg, now: nat, seen: set<(Pkg, nat)>)
    requires Vouched(a, seen)
    ensures AliveVouched(Depart(a, pkg, now).alive, seen)
  {
    hide IsProcName;
    if Departs(a, pkg) { assert (a.fg.value, a.idx.pkgToUid[a.fg.value]) in seen; }
  }

  lemma AdmitKeepsVouched(a: State, e: Event, rssKb: nat, now: nat, seen: set<(Pkg, nat)>)
    requires e.ProcStart? && WellFormed(e) && Vouched(a, seen) && (e.pkg, e.uid) in seen
    ensures Vouched(Admit(a, e, rssKb, now), seen)
  {
    hide IsProcName, Admit;
    AdmitFrame(a, e, rssKb, now);
    var t := Admit(a, e, rssKb, now);
    forall k | k in t.alive ensures IsProcName(k) && AppReported(seen, k) {
      assert k in a.alive || (k == e.pkg && e.uid >= APP_UID_MIN);
    }
  }

  lemma FocusKeepsVouched(a: State, pkg: Pkg, component: string, now: nat, seen: set<(Pkg, nat)>)
    requires Vouched(a, seen) && IsProcName(pkg)
    ensures Vouched(Focus(a, pkg, component, now), seen)
  {
    hide IsProcName, Focus, Depart, Trampoline, Promote;
    FocusFrame(a, pkg, component, now);
    DepartKeepsVouched(a, pkg, now, seen);
  }

  lemma DiedKeepsVouched(a: State, pid: Pid, now: nat, seen: set<(Pkg, nat)>)
    requires Vouched(a, seen)
    ensures Vouched(OnDied(a, pid, now), seen)
  {
    hide IsProcName, AppReported, OnDied, PruneDeaths;
    DiedFrame(a, pid, now);
  }

  lemma SameTablesVouched(a: State, t: State, seen: set<(Pkg, nat)>)
    requires Vouched(a, seen) && t.alive.Keys == a.alive.Keys && t.idx == a.idx && t.fg == a.fg
    ensures Vouched(t, seen)
  {
    hide IsProcName, AppReported;
    assert forall k | k in t.alive :: k in a.alive.Keys;
  }

  lemma PrepareKeepsVouched(s: State, i: Input, o: Answers, seen: set<(Pkg, nat)>)
    requires Vouched(s, seen) && StartReport(i) <= seen && (i.Line? ==> WellFormed(i.event))
    ensures Vouched(Prepare(s, i, o), seen)
  {
    hide IsProcName, Focus, Admit, OnDied, OnScreen, Advance, Vouched;
    if i.Line? {
      var a := Advance(s, i.now);
      AdvanceFrame(s, i.now);
      SameTablesVouched(s, a, seen);
      match i.event
      case ResumeActivity(pkg, component) => FocusKeepsVouched(a, pkg, component, i.now, seen);
      case ProcStart(_, _, _, _, _) => AdmitKeepsVouched(a, i.event, o.startRssKb, i.now, seen);
      case ProcDied(pid) => DiedKeepsVouched(a, pid, i.now, seen);
      case ScreenToggled(on) => ScreenFrame(a, on, i.now); SameTablesVouched(a, OnScreen(a, on, i.now), seen);
      case _ =>
    } else {
      SameTablesVouched(s, Prepare(s, i, o), seen);
    }
  }

  lemma PassKeepsVouched(s: State, o: Answers, now: nat, seen: set<(Pkg, nat)>)
    requires Sound(o) && Vouched(s, seen)
    ensures Vouched(Pass(s, o, now), seen)
  {
    hide IsProcName, AppReported, Pass;
    var t := Pass(s, o, now);
    PassIs(s, o, now);
    forall k | k in t.alive ensures k in s.alive { PassLeaves(s, o, now, k); }
    forall k | k in t.idx.pkgToPids ensures 0 !in t.idx.pkgToPids[k] { PassLeaves(s, o, now, k); }
  }

  lemma StepKeepsVouched(s: State, i: Input, o: Answers, seen: set<(Pkg, nat)>)
    requires Sound(o) && Vouched(s, seen) && (i.Line? ==> WellFormed(i.event))
    ensures Vouched(Step(s, i, o), seen + StartReport(i)) && Vouched(Prepare(s, i, o), seen + StartReport(i))
  {
    hide Vouched, Prepare, Pass, WellFormed;
    var more := seen + StartReport(i);
    MoreReports(s, seen, StartReport(i));
    PrepareKeepsVouched(s, i, o, more);
    StepIs(s, i, o);
    if Reaps(s, i) { PassKeepsVouched(Prepare(s, i, o), o, i.now, more); }
  }

  lemma {:induction false} RunKeepsVouched(s: State, run: seq<Happening>, base: set<(Pkg, nat)>)
    requires Vouched(s, base) && AllSound(run) && AllParsed(run)
    ensures Vouched(Run(s, run), Reported(base, run))
  {
    if run != [] {
      var n := |run| - 1;
      assert run[n] in run;
      RunKeepsVouched(s, run[..n], base);
      StepKeepsVouched(Run(s, run[..n]), run[n].input, run[n].answers, Reported(base, run[..n]));
    }
  }

  lemma {:induction false} SeedIsVouched(entries: seq<Seeded>)
    requires forall e | e in entries :: e.pid > 0
    ensures var x := Seed(Index(map[], map[], map[]), entries); UidsVouched(x, Swept(entries)) && NoPidZero(x)
  {
    if entries != [] {
      var n := |entries| - 1;
      assert entries[n] in entries;
      SeedIsVouched(entries[..n]);
    }
  }

  // The state the daemon enters its event loop with: first configuration and lists loaded,
  // roles, keyboard and wallpaper detected, processes swept.
  function ColdStart(pol: Policy, screenOn: bool, now: u64, entries: seq<Seeded>): State {
    Boot(pol.switches, pol.config, screenOn, now)
    .(policy := pol, idx := Seed(Index(map[], map[], map[]), entries))
  }

  lemma ColdStartIsVouched(pol: Policy, screenOn: bool, now: u64, entries: seq<Seeded>)
    requires forall e | e in entries :: e.pid > 0
    ensures Vouched(ColdStart(pol, screenOn, now, entries), Swept(entries))
  {
    hide Seed, Swept;
    SeedIsVouched(entries);
  }

  // On the user's list, detected at start-up, or in front.
  predicate Forbidden(s: State, k: Pkg) {
    k in s.policy.userExclusions || k in s.policy.dynamicExclusions || s.fg == Some(k)
  }

  lemma DecidedIsVouched(s: State, h: Happening, r: KillRecord, seen: set<(Pkg, nat)>)
    requires Sound(h.answers) && h.input.Line? && Vouched(Prepare(s, h.input, h.answers), seen)
    requires r in Decisions(s, h.input, h.answers)
    ensures var p := Prepare(s, h.input, h.answers);
      && IsProcName(r.pkg) && AppReported(seen, r.pkg) && !Forbidden(p, r.pkg)
      && r.pids != [] && forall pid | pid in r.pids :: pid > 0 && h.answers.rssKb(pid) > 0
  {
    hide IsProcName, AppReported, Prepare, Decisions, LivePids, Chosen, PassGate;
    var p := Prepare(s, h.input, h.answers);
    DecisionFacts(s, h.input, h.answers, r);
    LivePidsFacts(p, h.answers, r.pkg);
  }

  // Every decision of every run names a well-formed package that has been reported at least
  // once with an app uid, is neither excluded, by list or by role, nor in the foreground, and
  // has a live PID; no PID it names is 0, and all of them have resident memory.
  lemma DecidedIsApp(s: State, base: set<(Pkg, nat)>, run: seq<Happening>, h: Happening, r: KillRecord)
    requires Vouched(s, base)
    requires AllSound(run) && Sound(h.answers) && AllParsed(run) && h.input.Line? && WellFormed(h.input.event)
    requires r in Decisions(Run(s, run), h.input, h.answers)
    ensures var p := Prepare(Run(s, run), h.input, h.answers);
      && IsProcName(r.pkg) && AppReported(Reported(base, run + [h]), r.pkg)
      && !Forbidden(p, r.pkg)
      && r.pids != [] && forall pid | pid in r.pids :: pid > 0 && h.answers.rssKb(pid) > 0
  {
    hide IsProcName, AppReported, Prepare, WellFormed, Decisions, Forbidden, Sound, Run, Vouched;
    RunKeepsVouched(s, run, base);
    StepKeepsVouched(Run(s, run), h.input, h.answers, Reported(base, run));
    ReportedLast(base, run, h);
    DecidedIsVouched(Run(s, run), h, r, Reported(base, run + [h]));
  }

  // No step changes what the start-up detected.
  lemma {:induction false} DetectedStayExcluded(s: State, run: seq<Happening>)
    ensures Run(s, run).policy.dynamicExclusions == s.policy.dynamicExclusions
  {
    hide Step;
    if run != [] {
      var n := |run| - 1;
      DetectedStayExcluded(s, run[..n]);
      StepKeepsDetected(Run(s, run[..n]), run[n].input, run[n].answers);
    }
  }

  lemma StepKeepsDetected(s: State, i: Input, o: Answers)
    ensures Step(s, i, o).policy.dynamicExclusions == s.policy.dynamicExclusions
    ensures Prepare(s, i, o).policy.dynamicExclusions == s.policy.dynamicExclusions
  {
    hide Step, Prepare;
    StepPolicy(s, i, o);
  }

  // So no decision of any run names a detected launcher, dialer, keyboard or wallpaper.
  lemma DecidedIsNotDetected(s: State, run: seq<Happening>, h: Happening, r: KillRecord)
    requires Sound(h.answers) && h.input.Line? && r in Decisions(Run(s, run), h.input, h.answers)
    ensures r.pkg !in s.policy.dynamicExclusions
  {
    hide Prepare, Decisions, LivePids, Chosen, PassGate, Run, Sound;
    DetectedStayExcluded(s, run);
    StepKeepsDetected(Run(s, run), h.input, h.answers);
    DecisionFacts(Run(s, run), h.input, h.answers, r);
  }

  lemma ReportedLast(base: set<(Pkg, nat)>, run: seq<Happening>, h: Happening)
    ensures Reported(base, run + [h]) == Reported(base, run) + StartReport(h.input)
  {
    assert (run + [h])[..|run|] == run;
  }

  // --- the documented guard --------------------------------------------------------------------------

  // "Only packages with a verified app uid are in the activity table", read off the uid table.
  ghost predicate Verified(s: State) {
    forall k | k in s.alive :: k in s.idx.pkgToUid && s.idx.pkgToUid[k] >= 10_000
  }

  // A start with an app uid for a package whose first report carried a system uid.
  predicate MixesUids(x: Index, e: Event)
    requires e.ProcStart?
  {
    e.uid >= 10_000 && e.pkg in x.pkgToUid && x.pkgToUid[e.pkg] < 10_000
  }

  // The uid table keeps the first report, so the guard survives a start exactly when the start
  // does not contradict an earlier system uid.
  lemma StartKeepsVerifiedIff(a: State, e: Event, rssKb: nat, now: nat)
    requires e.ProcStart? && Verified(a)
    ensures Verified(Admit(a, e, rssKb, now)) <==> !MixesUids(a.idx, e)
  {
    hide Admit;
    AdmitFrame(a, e, rssKb, now);
    var t := Admit(a, e, rssKb, now);
    assert MixesUids(a.idx, e) ==> e.pkg in t.alive && t.idx.pkgToUid[e.pkg] == a.idx.pkgToUid[e.pkg];
  }

  lemma PassKeepsVerified(p: State, o: Answers, now: nat)
    requires Sound(o) && Verified(p)
    ensures Verified(Pass(p, o, now))
  {
    hide Pass;
    PassIs(p, o, now);
    forall k | k in Pass(p, o, now).alive ensures k in p.alive { PassLeaves(p, o, now, k); }
  }

  lemma PrepareKeepsVerified(s: State, i: Input, o: Answers)
    requires Verified(s) && (i.Line? && i.event.ProcStart? ==> !MixesUids(s.idx, i.event))
    ensures Verified(Prepare(s, i, o))
  {
    hide Focus, Admit, OnDied, OnScreen, Advance, PruneDeaths, Promote, Trampoline;
    if i.Line? {
      var a := Advance(s, i.now);
      AdvanceFrame(s, i.now);
      match i.event
      case ResumeActivity(pkg, component) => FocusFrame(a, pkg, component, i.now);
      case ProcStart(_, _, _, _, _) => StartKeepsVerifiedIff(a, i.event, o.startRssKb, i.now);
      case ProcDied(pid) => DiedFrame(a, pid, i.now);
      case ScreenToggled(on) => ScreenFrame(a, on, i.now);
      case _ =>
    }
  }

  lemma StepKeepsVerified(s: State, i: Input, o: Answers)
    requires Sound(o) && Verified(s) && (i.Line? && i.event.ProcStart? ==> !MixesUids(s.idx, i.event))
    ensures Verified(Step(s, i, o))
  {
    hide Step, Prepare, Pass, Verified;
    PrepareKeepsVerified(s, i, o);
    StepIs(s, i, o);
    if Reaps(s, i) { PassKeepsVerified(Prepare(s, i, o), o, i.now); }
  }

  ghost predicate NeverMixes(s: State, run: seq<Happening>) {
    run != [] ==>
      var n := |run| - 1; var i := run[n].input;
      NeverMixes(s, run[..n]) && (i.Line? && i.event.ProcStart? ==> !MixesUids(Run(s, run[..n]).idx, i.event))
  }

  lemma {:induction false} GuardHolds(s: State, run: seq<Happening>)
    requires Verified(s) && AllSound(run) && NeverMixes(s, run)
    ensures Verified(Run(s, run))
  {
    if run != [] {
      var n := |run| - 1;
      assert run[n] in run;
      GuardHolds(s, run[..n]);
      StepKeepsVerified(Run(s, run[..n]), run[n].input, run[n].answers);
    }
  }

  // Two starts of one package, first as uid 1000, then as uid 10050, break the guard.
  lemma GuardFails(sw: Switches, config: Config, now: u64)
    ensures var e := ProcStart("a.b", "a.b", "service", 7, 1000);
      var f := ProcStart("a.b", "a.b", "service", 8, 10050);
      var s := Admit(Boot(sw, config, true, now), e, 0, now);
      Verified(s) && !Verified(Admit(s, f, 0, now))
  {
    var e := ProcStart("a.b", "a.b", "service", 7, 1000);
    var f := ProcStart("a.b", "a.b", "service", 8, 10050);
    var b := Boot(sw, config, true, now);
    StartKeepsVerifiedIff(b, e, 0, now);
    var s := Admit(b, e, 0, now);
    AdmitFrame(b, e, 0, now);
    assert s.idx.pkgToUid == map["a.b" := 1000];
    StartKeepsVerifiedIff(s, f, 0, now);
  }
}
