/** Escalation levels against the candidate set: what each of them may tighten. */
module EscalationLaws {
  import opened Prelude
  import opened Engine
  import opened ScanLaws
  import opened StepShape

  datatype Level = Normal | LongSession | ScreenOffBrief | ScreenOffLong | Emergency

  // What one pass looks at: the tables, the clock and the readings.
  datatype Moment = Moment(s: State, now: nat, o: Answers) {
    function Gates(): Gate { PassGate(s, o, now) }

    predicate Harvesting() { !s.screenOn && s.policy.config.screenOffHarvest }

    function LevelOf(): Level {
      if IsGameFg(s) || LowMem(s, o) then Emergency
      else if Harvesting() then
        if SecondsSince(s.timers.screenOffStart, now) > 60 then ScreenOffLong else ScreenOffBrief
      else if SecondsSince(FgAnchor(s), now) > 300 then LongSession
      else Normal
    }

    ghost predicate Exposes(k: Pkg) { Eligible(s, o, Gates(), k) }
  }

  function Rank(l: Level): nat {
    match l
    case Normal => 0
    case LongSession => 1
    case ScreenOffBrief => 2
    case ScreenOffLong => 3
    case Emergency => 4
  }

  // The same tables, clock, memory figures and policy. Screen state, pressure, the games list
  // and the anchor of the foreground package (which is never a candidate) may differ.
  ghost predicate SameTables(a: Moment, b: Moment) {
    && a.now == b.now && a.s.policy.(games := b.s.policy.games) == b.s.policy
    && a.s.lru == b.s.lru && a.s.idx == b.s.idx && a.s.fg == b.s.fg && SameRss(a.o, b.o)
    && (forall k | Some(k) != a.s.fg :: k in a.s.alive <==> k in b.s.alive)
    && forall k | Some(k) != a.s.fg && k in a.s.alive :: a.s.alive[k] == b.s.alive[k]
  }

  // No level loosens what the user configured, for any configuration.
  lemma NeverLooser(m: Moment)
    ensures m.Gates().idleSec <= m.s.policy.config.tIdleSec
    ensures m.Gates().depth <= m.s.policy.config.lruProtectDepth
  {
  }

  lemma IdleTightens(a: Moment, b: Moment)
    requires SameTables(a, b) && Rank(a.LevelOf()) <= Rank(b.LevelOf())
    ensures b.Gates().idleSec <= a.Gates().idleSec
  {
  }

  // A higher level keeps every candidate, unless it turns a screen-off harvest into a
  // screen-on emergency.
  lemma EscalationKeepsCandidates(a: Moment, b: Moment, k: Pkg)
    requires SameTables(a, b) && Rank(a.LevelOf()) <= Rank(b.LevelOf())
    requires a.Harvesting() ==> b.Harvesting()
    requires a.Exposes(k)
    ensures b.Exposes(k)
  {
    IdleTightens(a, b);
    var p :| p in PidsOf(a.s, k) && a.o.rssKb(p) > 0;
    assert p in PidsOf(b.s, k) && b.o.rssKb(p) > 0;
  }

  // Below the emergency level a higher level never ends a harvest, so the chain is unconditional.
  lemma ChainKeepsCandidates(a: Moment, b: Moment, k: Pkg)
    requires SameTables(a, b) && Rank(a.LevelOf()) <= Rank(b.LevelOf()) < Rank(Emergency)
    requires a.Exposes(k)
    ensures b.Exposes(k)
  {
    EscalationKeepsCandidates(a, b, k);
  }

  // A harvest candidate that a screen-on emergency over the same tables drops.
  ghost predicate Drops(a: Moment, b: Moment, k: Pkg) {
    && SameTables(a, b) && a.Harvesting() && b.s.screenOn && b.LevelOf() == Emergency
    && Rank(a.LevelOf()) < Rank(Emergency) && a.Exposes(k) && !b.Exposes(k)
  }

  // --- reached from boot ------------------------------------------------------------------------

  // A moment at which the daemon makes a pass on some run from boot.
  ghost predicate PassesAt(m: Moment, sw: Switches, first: Config, t0: u64, run: seq<Happening>, h: Happening) {
    && AllSound(run) && Sound(h.answers) && h.input.Line? && Reaps(Run(Boot(sw, first, true, t0), run), h.input)
    && m == Moment(Prepare(Run(Boot(sw, first, true, t0), run), h.input, h.answers), h.input.now, h.answers)
  }

  ghost predicate Reached(m: Moment) { exists sw, first, t0, run, h :: PassesAt(m, sw, first, t0, run, h) }

  ghost predicate EmergencyNeverDrops(c: Config) {
    forall a, b, k | Reached(a) && Reached(b) && a.s.policy.config == c :: !Drops(a, b, k)
  }

  const T0: u64 := 1_700_000_000_000
  const T1: u64 := 1_700_000_100_000

  // Two apps come to the foreground; the first of them is then second in the history.
  function Opening(): seq<Input> {
    [Line(T0, ProcStart("app.b", "app.b", "top-activity", 7, APP_UID_MIN)),
     Line(T0, ResumeActivity("app.b", "app.b/.M")),
     Line(T0, ResumeActivity("app.a", "app.a/.M"))]
  }

  // The configuration is loaded with this games list; a background start follows 100 s later.
  function Loading(c: Config, games: set<Pkg>): Input { Reload(T0, c, {}, games) }

  const LATER: Input := Line(T1, ProcStart("app.c", "app.c", "service", 8, APP_UID_MIN))

  function Under(inputs: seq<Input>, o: Answers): seq<Happening> {
    seq(|inputs|, n requires 0 <= n < |inputs| => Happening(inputs[n], o))
  }

  // A pass that finds nobody past its gates changes nothing.
  lemma IdlePass(s: State, o: Answers, now: nat)
    requires Sound(o) && forall k :: !PassesGates(s, PassGate(s, o, now), k)
    ensures Pass(s, o, now) == s
  {
    hide PassGate, PassesGates;
    var g := PassGate(s, o, now);
    PassIs(s, o, now);
    CandidatesAre(s, o, g);
    GreedyChoice(s, o, now);
    NoneChosen(s, o, now);
    assert Reconcile(s, o, g) == s;
    assert s.out + [] == s.out;
  }

  lemma NoneChosen(s: State, o: Answers, now: nat)
    requires Sound(o) && forall k :: !PassesGates(s, PassGate(s, o, now), k)
    ensures Chosen(s, o, now) == []
  {
    CandidatesAre(s, o, PassGate(s, o, now));
    HeadIsIn(Candidates(s, o, PassGate(s, o, now)));
  }

  lemma HeadIsIn(cs: seq<Candidate>)
    ensures cs == [] || cs[0] in cs
  {
  }

  // --- the opening -------------------------------------------------------------------------------

  const INDEX: Index := Index(map[7 := "app.b"], map["app.b" := {7}], map["app.b" := APP_UID_MIN])

  // The tables with app.b started at T0, whatever the records written on the way.
  ghost predicate Staged(s: State, pol: Policy, lru: seq<Pkg>, fg: Option<Pkg>) {
    && s.policy == pol && s.alive == map["app.b" := T0] && s.idx == INDEX
    && s.lru == lru && s.fg == fg && s.screenOn && s.last == T0
  }

  lemma AdvanceAt(s: State, now: u64)
    requires s.last == T0 && now >= T0
    ensures Advance(s, now) == s.(last := now)
  {
  }

  lemma AppStarts(pol: Policy, o: Answers)
    ensures Staged(Step(Boot(pol.switches, pol.config, true, T0), Opening()[0], o),
                   Policy(pol.switches, pol.config, {}, {}, {}), [], None)
  {
    hide Admit, Pass, Advance;
    var s := Boot(pol.switches, pol.config, true, T0);
    AdvanceAt(s, T0);
    StepIs(s, Opening()[0], o);
    AdmitFrame(s, Opening()[0].event, o.startRssKb, T0);
    assert PidsOf(s, "app.b") + {7} == {7} && Step(s, Opening()[0], o).idx == INDEX;
  }

  lemma AppResumes(s: State, pol: Policy, o: Answers)
    requires Sound(o) && Staged(s, pol, [], None) && pol.config.fgLruMaxDepth == 2
    ensures Staged(Step(s, Opening()[1], o), pol, ["app.b"], Some("app.b"))
  {
    hide Focus, Pass, Advance, GateOf;
    AdvanceAt(s, T0);
    StepIs(s, Opening()[1], o);
    FocusFrame(s, "app.b", "app.b/.M", T0);
    assert Position<Pkg>([], "app.b") == None;
    IdlePass(Focus(s, "app.b", "app.b/.M", T0), o, T0);
  }

  lemma OtherResumes(s: State, pol: Policy, o: Answers)
    requires Sound(o) && Staged(s, pol, ["app.b"], Some("app.b"))
    requires pol.config.fgLruMaxDepth == 2 && pol.config.lruProtectDepth >= 2
    ensures Staged(Step(s, Opening()[2], o), pol, ["app.a", "app.b"], Some("app.a"))
  {
    hide Focus, Pass, Advance, EffectiveIdle;
    AdvanceAt(s, T0);
    StepIs(s, Opening()[2], o);
    FocusFrame(s, "app.a", "app.a/.M", T0);
    assert Position<Pkg>(["app.b"], "app.a") == None;
    SecondPlace();
    IdlePass(Focus(s, "app.a", "app.a/.M", T0), o, T0);
  }

  lemma SecondPlace()
    ensures LruPos(["app.a", "app.b"], "app.b") == 1
  {
    assert ["app.a", "app.b"][1..] == ["app.b"];
  }

  lemma OpeningRuns(sw: Switches, first: Config, o: Answers)
    requires Sound(o) && first.fgLruMaxDepth == 2 && first.lruProtectDepth >= 2
    ensures Staged(Run(Boot(sw, first, true, T0), Under(Opening(), o)),
                   Policy(sw, first, {}, {}, {}), ["app.a", "app.b"], Some("app.a"))
  {
    hide Step, Staged;
    var s, pol, run := Boot(sw, first, true, T0), Policy(sw, first, {}, {}, {}), Under(Opening(), o);
    AppStarts(pol, o);
    AppResumes(Step(s, Opening()[0], o), pol, o);
    OtherResumes(Step(Step(s, Opening()[0], o), Opening()[1], o), pol, o);
    RunThree(s, Opening(), o);
  }

  lemma RunThree(s: State, i: seq<Input>, o: Answers)
    requires |i| == 3
    ensures Run(s, Under(i, o)) == Step(Step(Step(s, i[0], o), i[1], o), i[2], o)
  {
    hide Step;
    var run := Under(i, o);
    assert run[..2][..1] == run[..1] && run[..1][..0] == [];
    assert Run(s, run[..1]) == Step(s, i[0], o);
    assert Run(s, run[..2]) == Step(Run(s, run[..1]), i[1], o);
  }

  // --- two moments over the same tables ------------------------------------------------------------

  // The start that makes the pass finds these tables.
  ghost predicate Later(p: State, pol: Policy) {
    && p.policy == pol && p.alive == map["app.b" := T0, "app.c" := T1]
    && p.idx == Index(map[7 := "app.b", 8 := "app.c"], map["app.b" := {7}, "app.c" := {8}],
                      map["app.b" := APP_UID_MIN, "app.c" := APP_UID_MIN])
    && p.lru == ["app.a", "app.b"] && p.fg == Some("app.a")
  }

  lemma LaterStart(s: State, pol: Policy, o: Answers)
    requires s.policy == pol && s.alive == map["app.b" := T0] && s.idx == INDEX
    requires s.lru == ["app.a", "app.b"] && s.fg == Some("app.a") && s.last == T0
    ensures var p := Prepare(s, LATER, o);
      Later(p, pol) && p.screenOn == s.screenOn && p.timers == s.timers && Reaps(s, LATER)
  {
    hide Admit, Advance;
    AdvanceAt(s, T1);
    AdmitFrame(s.(last := T1), LATER.event, o.startRssKb, T1);
    var p := Prepare(s, LATER, o);
    assert PidsOf(s, "app.c") + {8} == {8};
    assert p.alive == map["app.b" := T0, "app.c" := T1];
    assert p.idx.pidToPkg == map[7 := "app.b", 8 := "app.c"];
    assert p.idx.pkgToPids == map["app.b" := {7}, "app.c" := {8}];
    assert p.idx.pkgToUid == map["app.b" := APP_UID_MIN, "app.c" := APP_UID_MIN];
  }

  // Reloaded with a games list.
  lemma ReloadStages(s: State, sw: Switches, first: Config, c: Config, games: set<Pkg>, o: Answers)
    requires Staged(s, Policy(sw, first, {}, {}, {}), ["app.a", "app.b"], Some("app.a"))
    ensures Staged(Step(s, Loading(c, games), o), Policy(sw, c, {}, {}, games), ["app.a", "app.b"], Some("app.a"))
  {
  }

  lemma ScreenGoesOff(s: State, o: Answers)
    requires s.screenOn && s.last == T0
    ensures var t := Step(s, Line(T0, ScreenToggled(false)), o);
      && t == s.(screenOn := false, timers := t.timers, rep := t.rep, out := t.out)
      && t.timers.screenOffStart == Some(T0)
  {
    hide Advance, Summarise;
    AdvanceAt(s, T0);
    SummariseFrame(Emit(s, ScreenState(T0, false, SecondsSince(s.timers.screenOnStart, T0))), T0,
                   SecondsSince(s.timers.screenOnStart, T0));
  }

  function GameRun(c: Config, o: Answers): seq<Happening> {
    Under(Opening(), o) + [Happening(Loading(c, {"app.a"}), o)]
  }

  function HarvestRun(c: Config, o: Answers): seq<Happening> {
    Under(Opening(), o) + [Happening(Loading(c, {}), o)] + [Happening(Line(T0, ScreenToggled(false)), o)]
  }

  // The configuration the opening runs under.
  function First(c: Config): Config { c.(fgLruMaxDepth := 2) }

  lemma GameMoment(sw: Switches, c: Config, o: Answers)
    requires Sound(o) && c.lruProtectDepth >= 2
    ensures var s := Run(Boot(sw, First(c), true, T0), GameRun(c, o)); var p := Prepare(s, LATER, o);
      Later(p, Policy(sw, c, {}, {}, {"app.a"})) && p.screenOn && Reaps(s, LATER)
  {
    hide Step, Prepare, Later, Reaps;
    var b := Boot(sw, First(c), true, T0);
    OpeningRuns(sw, First(c), o);
    RunLast(b, Under(Opening(), o), Happening(Loading(c, {"app.a"}), o));
    ReloadStages(Run(b, Under(Opening(), o)), sw, First(c), c, {"app.a"}, o);
    LaterStart(Run(b, GameRun(c, o)), Policy(sw, c, {}, {}, {"app.a"}), o);
  }

  lemma HarvestMoment(sw: Switches, c: Config, o: Answers)
    requires Sound(o) && c.lruProtectDepth >= 2
    ensures var s := Run(Boot(sw, First(c), true, T0), HarvestRun(c, o)); var p := Prepare(s, LATER, o);
      && Later(p, Policy(sw, c, {}, {}, {})) && !p.screenOn && p.timers.screenOffStart == Some(T0) && Reaps(s, LATER)
  {
    hide Step, Prepare, Later, Reaps;
    var b := Boot(sw, First(c), true, T0);
    var start := Under(Opening(), o);
    var load, off := Happening(Loading(c, {}), o), Happening(Line(T0, ScreenToggled(false)), o);
    OpeningRuns(sw, First(c), o);
    RunLast(b, start, load);
    RunLast(b, start + [load], off);
    ReloadStages(Run(b, start), sw, First(c), c, {}, o);
    ScreenGoesOff(Run(b, start + [load]), o);
    LaterStart(Run(b, HarvestRun(c, o)), Policy(sw, c, {}, {}, {}), o);
  }

  lemma MomentsDrop(a: Moment, b: Moment, sw: Switches, c: Config)
    requires c.screenOffHarvest && c.lruProtectDepth >= 2
    requires Later(a.s, Policy(sw, c, {}, {}, {})) && !a.s.screenOn && a.s.timers.screenOffStart == Some(T0)
    requires Later(b.s, Policy(sw, c, {}, {}, {"app.a"})) && b.s.screenOn
    requires a.now == b.now == T1 && SameRss(a.o, b.o) && a.o.rssKb(7) > 0 && forall pct :: !a.o.memCritical(pct)
    ensures Drops(a, b, "app.b")
  {
    SecondPlace();
    assert 7 in PidsOf(a.s, "app.b") && a.o.rssKb(7) > 0;
    assert IdleSec(a.s, a.Gates(), "app.b") == 100;
    assert !PassesGates(b.s, b.Gates(), "app.b");
  }

  function AllResident(): Answers {
    Answers(0, (p: Pid) => 1, (p: Pid) => None, (p: Pid) => None, (p: Pid) => None, (p: Pid) => true,
            (k: Pkg) => 0, (n: nat) => false, (ks: set<Pkg>) => [], (ps: set<Pid>) => [])
  }

  // Two runs from boot that share their tables: the one with the screen off would evict app.b,
  // the one with the screen on and a game in front keeps it.
  lemma DropIsReached(sw: Switches, c: Config, o: Answers)
    requires c.screenOffHarvest && c.lruProtectDepth >= 2
    requires Sound(o) && o.rssKb(7) > 0 && forall pct :: !o.memCritical(pct)
    ensures var b := Boot(sw, First(c), true, T0); var h := Happening(LATER, o);
      var off := Moment(Prepare(Run(b, HarvestRun(c, o)), LATER, o), T1, o);
      var on := Moment(Prepare(Run(b, GameRun(c, o)), LATER, o), T1, o);
      && PassesAt(off, sw, First(c), T0, HarvestRun(c, o), h) && PassesAt(on, sw, First(c), T0, GameRun(c, o), h)
      && off.s.policy.config == c && Drops(off, on, "app.b")
  {
    hide Run, Prepare, Reaps, Sound;
    var b := Boot(sw, First(c), true, T0);
    HarvestMoment(sw, c, o);
    GameMoment(sw, c, o);
    MomentsDrop(Moment(Prepare(Run(b, HarvestRun(c, o)), LATER, o), T1, o),
                Moment(Prepare(Run(b, GameRun(c, o)), LATER, o), T1, o), sw, c);
  }

  lemma DropRefutes(a: Moment, b: Moment, k: Pkg)
    requires Reached(a) && Reached(b) && Drops(a, b, k)
    ensures !EmergencyNeverDrops(a.s.policy.config)
  {
    hide Reached, Drops;
  }

  lemma DeepDrops(c: Config)
    requires c.screenOffHarvest && c.lruProtectDepth >= 2
    ensures !EmergencyNeverDrops(c)
  {
    hide PassesAt, Drops, Run, Prepare, EmergencyNeverDrops, Sound;
    SoundWorldExists(AllResident());
    var o: Answers :| Sound(o) && o == AllResident().(pkgOrder := o.pkgOrder, pidOrder := o.pidOrder);
    var sw := Switches(true, false, false);
    DropIsReached(sw, c, o);
    DropRefutes(Moment(Prepare(Run(Boot(sw, First(c), true, T0), HarvestRun(c, o)), LATER, o), T1, o),
                Moment(Prepare(Run(Boot(sw, First(c), true, T0), GameRun(c, o)), LATER, o), T1, o), "app.b");
  }

  // Entering an emergency with the screen back on keeps every harvest candidate, at all moments
  // runs from boot can reach, exactly when harvesting is off or the configured depth is at most
  // the one a harvest uses.
  lemma EmergencyNeverDropsIff(c: Config)
    ensures EmergencyNeverDrops(c) <==> !c.screenOffHarvest || c.lruProtectDepth <= 1
  {
    hide Drops, Reached;
    if c.screenOffHarvest && c.lruProtectDepth >= 2 {
      DeepDrops(c);
    } else {
      forall a, b, k | Reached(a) && Reached(b) && a.s.policy.config == c ensures !Drops(a, b, k) {
        ShallowNeverDrops(a, b, k);
      }
    }
  }

  lemma ShallowNeverDrops(a: Moment, b: Moment, k: Pkg)
    requires !a.s.policy.config.screenOffHarvest || a.s.policy.config.lruProtectDepth <= 1
    ensures !Drops(a, b, k)
  {
    if SameTables(a, b) && a.Harvesting() && b.s.screenOn && b.LevelOf() == Emergency && a.Exposes(k) {
      IdleTightens(a, b);
      var p :| p in PidsOf(a.s, k) && a.o.rssKb(p) > 0;
      assert p in PidsOf(b.s, k) && b.o.rssKb(p) > 0;
    }
  }
}
