/** Parsing inverts printing: events out of log lines in the layouts Android prints. */
module ParserLaws {
  import opened Prelude
  import opened Text
  import opened Engine
  import opened Parser
  import opened FieldLaws
  import opened ComponentLaws

  // --- the header ----------------------------------------------------------------------------------

  function EpochText(ts: nat): string {
    var ms := ts % 1000;
    Dec(ts / 1000) + ['.'] + [Digit(ms / 100), Digit(ms / 10 % 10), Digit(ms % 10)]
  }

  lemma DecSpells(n: nat)
    ensures Spells(Dec(n), n)
  {
    assert Zeros("") && Dec(n) == "" + Dec(n);
  }

  lemma EpochOf(ts: u64)
    ensures EpochMs(EpochText(ts)) == Some(ts)
    ensures IsWord(EpochText(ts)) && ':' !in EpochText(ts) && IsDigit(EpochText(ts)[0])
  {
    hide EpochMs, Spells;
    var secs, ms := Dec(ts / 1000), ts % 1000;
    var a, b, c := ms / 100, ms / 10 % 10, ms % 10;
    DecSpells(ts / 1000);
    EpochReads(secs, ts / 1000, [Digit(a), Digit(b), Digit(c)]);
    DigitsAddUp(ms);
    EpochIsWord(secs, a, b, c);
  }

  lemma DigitsAddUp(ms: nat)
    requires ms < 1000
    ensures ms == 100 * (ms / 100) + 10 * (ms / 10 % 10) + ms % 10
  {
  }

  lemma EpochIsWord(secs: string, a: nat, b: nat, c: nat)
    requires secs != "" && AllDigits(secs) && a < 10 && b < 10 && c < 10
    ensures var t := secs + ['.'] + [Digit(a), Digit(b), Digit(c)];
      IsWord(t) && ':' !in t && IsDigit(t[0])
  {
    assert secs[0] in secs;
  }

  // White space between two columns.
  predicate IsGap(g: string) { g != "" && forall c | c in g :: IsSpace(c) }

  // Columns in front of the tag, each a gap and a word, and what follows them.
  function Columns(cols: seq<(string, string)>, rest: string): string {
    if cols == [] then rest else cols[0].0 + (cols[0].1 + Columns(cols[1..], rest))
  }

  function ColumnWords(cols: seq<(string, string)>): seq<string> {
    seq(|cols|, i requires 0 <= i < |cols| => cols[i].1)
  }

  predicate ColumnsText(cols: seq<(string, string)>) {
    forall col | col in cols :: IsGap(col.0) && IsWord(col.1) && ':' !in col.1
  }

  function Header(ts: nat, cols: seq<(string, string)>, gap: string, tag: string): string {
    EpochText(ts) + Columns(cols, gap + tag)
  }

  lemma {:induction false} GapThen(g: string, rest: string)
    requires forall c | c in g :: IsSpace(c)
    ensures Words(g + rest) == Words(rest)
  {
    hide Words, IsSpace;
    if g == "" {
      assert g + rest == rest;
    } else {
      assert g[0] in g && forall c | c in g[1..] :: c in g;
      GapThen(g[1..], rest);
      SpaceThen(g[0], g[1..] + rest);
      assert g + rest == [g[0]] + (g[1..] + rest);
    }
  }

  lemma OneWord(w: string)
    requires IsWord(w)
    ensures Words(w) == [w]
  {
    WordThenSpace(w, "");
    assert w + "" == w;
  }

  predicate TagText(tag: string) { IsWord(tag) && ':' !in tag }

  lemma GapStarts(g: string, rest: string)
    requires IsGap(g)
    ensures g + rest != "" && IsSpace((g + rest)[0]) && (g + rest)[0] != ':'
    ensures ':' in g + rest ==> ':' in rest
  {
    assert g[0] in g;
  }

  // Words of the columns and the tag behind them; no colon comes in.
  lemma {:induction false} ColumnsSplit(cols: seq<(string, string)>, gap: string, tag: string)
    requires ColumnsText(cols) && IsGap(gap) && TagText(tag)
    ensures var t := Columns(cols, gap + tag);
      && t != "" && IsSpace(t[0]) && ':' !in t && Words(t) == ColumnWords(cols) + [tag]
  {
    hide Words, IsSpace, IsWord, IsGap;
    if cols == [] {
      GapStarts(gap, tag);
      GapWords(gap, tag);
      OneWord(tag);
    } else {
      var col, rest := cols[0], Columns(cols[1..], gap + tag);
      assert col in cols && forall other | other in cols[1..] :: other in cols;
      ColumnsSplit(cols[1..], gap, tag);
      GapStarts(col.0, col.1 + rest);
      GapWords(col.0, col.1 + rest);
      WordThenSpace(col.1, rest);
      assert ColumnWords(cols) == [col.1] + ColumnWords(cols[1..]);
    }
  }

  lemma GapWords(g: string, rest: string)
    requires IsGap(g)
    ensures Words(g + rest) == Words(rest)
  {
    GapThen(g, rest);
  }

  lemma HeaderSplits(ts: u64, cols: seq<(string, string)>, gap: string, tag: string)
    requires ColumnsText(cols) && IsGap(gap) && TagText(tag)
    ensures var h := Header(ts, cols, gap, tag);
      && Words(h) == [EpochText(ts)] + (ColumnWords(cols) + [tag]) && ':' !in h
      && h != "" && IsDigit(h[0])
  {
    hide Words, EpochText, EpochMs, IsWord, Columns, ColumnsText, IsGap;
    EpochOf(ts);
    ColumnsSplit(cols, gap, tag);
    WordThenSpace(EpochText(ts), Columns(cols, gap + tag));
    WordStarts(EpochText(ts));
  }

  lemma WordStarts(w: string)
    requires IsWord(w)
    ensures w != ""
  {
  }

  function LineText(header: string, payload: string): string { header + [':'] + payload }

  // A printed line comes apart into its time stamp, tag and payload, whatever the columns
  // between them.
  lemma LineSplits(ts: u64, cols: seq<(string, string)>, gap: string, tag: string, payload: string, alpha: char -> bool)
    requires ColumnsText(cols) && IsGap(gap) && TagText(tag) && payload != "" && !IsSpace(payload[|payload| - 1])
    ensures ParseLine(LineText(Header(ts, cols, gap, tag), payload), alpha) ==
            match ParseEvent(tag, payload, alpha) case Some(e) => Some((ts, e)) case None => None
  {
    hide Words, EpochMs, ParseEvent, Header, ColumnsText, IsGap, ColumnWords;
    var header := Header(ts, cols, gap, tag);
    var line := LineText(header, payload);
    HeaderSplits(ts, cols, gap, tag);
    EpochOf(ts);
    assert line[0] == header[0] && line[|line| - 1] == payload[|payload| - 1];
    BareStays(line, IsSpace);
    FirstAt(header, ':', payload);
  }

  // --- events --------------------------------------------------------------------------------------

  // The name in front of a colon, if there is one.
  predicate BaseName(pkg: Pkg, procName: string) {
    && ':' !in pkg && |pkg| <= |procName| && procName[..|pkg|] == pkg
    && (|pkg| < |procName| ==> procName[|pkg|] == ':')
  }

  // The parts of a printed line that are not part of the event: the columns in front of the
  // tag, the fields around those of the event, white space and brackets around all of them.
  datatype Surroundings = Surroundings(
    columns: seq<(string, string)>, gap: string, tag: string, frame: Frame, pads: seq<(string, string)>,
    before: seq<string>, after: seq<string>, procName: string, wrap: Wrap)

  function EventFields(e: Event, x: Surroundings): seq<string>
    requires !e.ScreenToggled? && !e.DeviceIdleLightStep?
  {
    match e
    case ResumeActivity(_, component) => x.before + ([Wrapped(component, x.wrap)] + x.after)
    case ProcStart(procName, _, _, pid, uid) => x.before + ([Dec(pid), Dec(uid), procName] + x.after)
    case ProcDied(pid) => x.before + ([Dec(pid), x.procName] + x.after)
  }

  function TagOf(e: Event, x: Surroundings): string {
    match e
    case ResumeActivity(_, _) => x.tag
    case ProcStart(_, _, _, _, _) => "am_proc_start"
    case ProcDied(_) => "am_proc_died"
    case ScreenToggled(_) => "screen_toggled"
    case DeviceIdleLightStep => "device_idle_light_step"
  }

  function BodyOf(e: Event, x: Surroundings): string {
    match e
    case ScreenToggled(on) => if on then "1" else "0"
    case DeviceIdleLightStep => ""
    case _ => if |EventFields(e, x)| == |x.pads| then Join(EventFields(e, x), x.pads) else ""
  }

  function PayloadOf(e: Event, x: Surroundings): string { InFrame(BodyOf(e, x), x.frame) }

  function Print(ts: nat, e: Event, x: Surroundings): string {
    LineText(Header(ts, x.columns, x.gap, TagOf(e, x)), PayloadOf(e, x))
  }

  // A positive number directly in front of a name.
  ghost predicate DeadPair(fs: seq<string>, n: nat)
    requires n + 1 < |fs|
  {
    NameText(fs[n + 1]) && exists p :: 0 < p <= 0xFFFF_FFFF && Spells(fs[n], p)
  }

  // The layouts the parsers document. A start has one field in front of its PID and its type,
  // if any, behind its name; a death's PID is the first of the first eight fields that stands in
  // front of a name; a component is the first of them with a slash, or without one the fourth.
  ghost predicate Printable(e: Event, x: Surroundings) {
    && ColumnsText(x.columns) && IsGap(x.gap) && FrameText(x.frame)
    && match e
       case ResumeActivity(pkg, component) =>
         var raw := Wrapped(component, x.wrap);
         && (x.tag == "wm_resume_activity" || x.tag == "am_resume_activity")
         && ComponentText(pkg, component) && WrapText(component, x.wrap)
         && |x.before| < 8 && (forall f | f in x.before :: '/' !in f)
         && ('/' in raw || (|x.before| == 3 && forall f | f in x.after :: '/' !in f))
         && FieldList(EventFields(e, x), x.pads)
       case ProcStart(procName, pkg, spawnType, pid, uid) =>
         && NameText(procName) && BaseName(pkg, procName) && NameText(pkg)
         && spawnType == (if x.after == [] then "" else x.after[0]) && 0 < pid <= 0xFFFF_FFFF && uid <= 0xFFFF_FFFF
         && |x.before| == 1 && FieldList(EventFields(e, x), x.pads)
       case ProcDied(pid) =>
         var fs := EventFields(e, x);
         && 0 < pid <= 0xFFFF_FFFF && NameText(x.procName) && |x.before| + 2 <= 8 && FieldList(fs, x.pads)
         && forall n | 0 <= n < |x.before| :: !DeadPair(fs, n)
       case DeviceIdleLightStep => x.frame.opening != ""
       case _ => true
  }

  lemma NameIsBare(s: string)
    requires NameText(s)
    ensures s != "" && Bare(s, IsSpace) && IsProcName(s) && Trim(s) == s
  {
    hide IsProcName, StripLeft, StripRight;
    assert s[0] in s && s[|s| - 1] in s;
    BareStays(s, IsSpace);
    BareNameIff(s);
  }

  lemma BaseOf(pkg: Pkg, procName: string)
    requires NameText(procName) && BaseName(pkg, procName)
    ensures BasePkg(procName) == Trim(pkg) && (IsProcName(BasePkg(procName)) <==> NameText(pkg))
    ensures NameText(pkg) ==> BasePkg(procName) == pkg
  {
    hide StripLeft, StripRight, IsProcName, NameText;
    if |pkg| < |procName| {
      assert procName == pkg + [':'] + procName[|pkg| + 1..];
      FirstAt(pkg, ':', procName[|pkg| + 1..]);
    } else {
      assert procName == pkg;
    }
    PartIsBare(pkg, procName);
    BareStays(pkg, IsSpace);
    BareNameIff(pkg);
  }

  lemma PartIsBare(pkg: Pkg, procName: string)
    requires NameText(procName) && |pkg| <= |procName| && procName[..|pkg|] == pkg
    ensures Bare(pkg, IsSpace)
  {
    if pkg != "" {
      assert pkg[0] == procName[0] && procName[0] in procName;
      assert pkg[|pkg| - 1] == procName[|pkg| - 1] && procName[|pkg| - 1] in procName;
    }
  }

  // --- starts --------------------------------------------------------------------------------------

  // A start is read off the second to fifth fields when the second and third are numbers; its
  // names must be acceptable and its PID positive.
  lemma StartIs(fs: seq<string>, pads: seq<(string, string)>, fr: Frame, pid: nat, uid: nat, pkg: Pkg,
                alpha: char -> bool)
    requires FieldList(fs, pads) && FrameText(fr) && |fs| >= 4
    requires pid <= 0xFFFF_FFFF && Spells(fs[1], pid) && uid <= 0xFFFF_FFFF && Spells(fs[2], uid)
    requires BaseName(pkg, fs[3])
    ensures ParseProcStart(InFrame(Join(fs, pads), fr), alpha) ==
            if pid > 0 && NameText(fs[3]) && NameText(pkg)
            then Some(ProcStart(fs[3], pkg, if |fs| > 4 then fs[4] else "", pid, uid)) else None
  {
    hide Fields, ParseUnsigned, IsProcName, FieldList, Join, InFrame, FrameText, BasePkg, BaseName, Spells, NameText;
    var toks := FirstEight(fs);
    FieldsOf(fs, pads, fr);
    FieldIsBare(fs, pads, 3);
    BareNameIff(fs[3]);
    UnsignedIff(fs[1], 0xFFFF_FFFF, pid);
    UnsignedIff(fs[2], 0xFFFF_FFFF, uid);
    assert toks[1] == fs[1] && toks[2] == fs[2] && toks[3] == fs[3] && (|fs| > 4 ==> toks[4] == fs[4]);
    assert |toks| > 4 <==> |fs| > 4;
    if NameText(fs[3]) { BaseOf(pkg, fs[3]); }
  }

  lemma FieldIsBare(fs: seq<string>, pads: seq<(string, string)>, n: nat)
    requires FieldList(fs, pads) && n < |fs|
    ensures Bare(fs[n], IsSpace)
  {
    assert fs[n] in fs;
  }

  lemma StartParses(e: Event, x: Surroundings, alpha: char -> bool)
    requires e.ProcStart? && Printable(e, x)
    ensures ParseProcStart(PayloadOf(e, x), alpha) == Some(e)
  {
    hide ParseProcStart, FieldList, Join, InFrame, FrameText, BaseName, NameText, Spells, ColumnsText, IsGap;
    var fs := EventFields(e, x);
    SameLength(fs, x.pads);
    DecSpells(e.pid);
    DecSpells(e.uid);
    assert fs[1] == Dec(e.pid) && fs[2] == Dec(e.uid) && fs[3] == e.procName;
    assert |fs| > 4 <==> x.after != [];
    assert x.after != [] ==> fs[4] == x.after[0];
    StartIs(fs, x.pads, x.frame, e.pid, e.uid, e.pkg, alpha);
  }

  lemma SameLength(fs: seq<string>, pads: seq<(string, string)>)
    requires FieldList(fs, pads)
    ensures |fs| == |pads|
  {
  }

  // --- starts in another schema ----------------------------------------------------------------------

  function NumberIn(f: string): nat { ParseUnsigned(f, 0xFFFF_FFFF).GetOr(0) }

  // Place of the first positive number from i on, else the length.
  function NextPositive(fs: seq<string>, i: nat): (n: nat)
    ensures n >= i || n == |fs|
    decreases |fs| - i
  {
    if i >= |fs| then |fs| else if NumberIn(fs[i]) > 0 then i else NextPositive(fs, i + 1)
  }

  function NumberAt(fs: seq<string>, i: nat): nat { if i < |fs| then NumberIn(fs[i]) else 0 }

  // Not a number, not an option, not a dump, and a dot, a colon or a letter in it.
  predicate Wordlike(f: string, alpha: char -> bool) {
    && ParseUnsigned(f, 0xFFFF_FFFF) == None && f != "" && f[0] != '{' && f[0] != '-'
    && exists c :: c in f && (c == '.' || c == ':' || alpha(c))
  }

  lemma {:induction false} NextSnoc(fs: seq<string>, f: string, i: nat)
    requires i <= |fs|
    ensures NextPositive(fs + [f], i) ==
            if NextPositive(fs, i) < |fs| then NextPositive(fs, i) else if NumberIn(f) > 0 then |fs| else |fs| + 1
    decreases |fs| - i
  {
    hide NumberIn;
    if i < |fs| {
      NextSnoc(fs, f, i + 1);
    } else {
      assert NextPositive(fs + [f], i + 1) == |fs| + 1;
    }
  }

  lemma WordlikeIs(f: string, alpha: char -> bool)
    ensures Wordlike(f, alpha) <==> ParseUnsigned(f, U32_MAX) == None && NameLike(f, alpha)
  {
    hide ParseUnsigned;
  }

  lemma NextPast(fs: seq<string>, i: nat)
    requires i >= |fs|
    ensures NextPositive(fs, i) == |fs| && NumberAt(fs, NextPositive(fs, i)) == 0
  {
  }

  predicate NumbersAre(pid: nat, uid: nat, fs: seq<string>) {
    var at := NextPositive(fs, 1);
    pid == NumberAt(fs, at) && uid == NumberAt(fs, NextPositive(fs, at + 1))
  }

  // Another field changes the PID only while there is none, then the uid while there is none.
  lemma NumbersSnoc(pid: nat, uid: nat, front: seq<string>, f: string)
    requires NumbersAre(pid, uid, front)
    ensures var first := pid == 0 && front != [];
      NumbersAre(if first then NumberIn(f) else pid, if pid > 0 && uid == 0 then NumberIn(f) else uid, front + [f])
  {
    hide NextPositive, NumberIn;
    var fs := front + [f];
    assert forall n | 0 <= n < |front| :: fs[n] == front[n];
    NextPast(fs, |fs|);
    NextPast(fs, |fs| + 1);
    if front == [] {
      NextPast(front, 1);
    } else {
      var at := NextPositive(front, 1);
      NextSnoc(front, f, 1);
      NextPast(front, |front|);
      NextPast(front, |front| + 1);
      PositiveThere(front, 1);
      if at < |front| {
        NextSnoc(front, f, at + 1);
        PositiveThere(front, at + 1);
      }
    }
  }

  lemma {:induction false} PositiveThere(fs: seq<string>, i: nat)
    ensures NextPositive(fs, i) <= |fs|
    ensures NextPositive(fs, i) < |fs| <==> NumberAt(fs, NextPositive(fs, i)) > 0
    decreases |fs| - i
  {
    hide NumberIn;
    if i < |fs| { PositiveThere(fs, i + 1); }
  }

  predicate NameIs(at: Option<nat>, fs: seq<string>, alpha: char -> bool) {
    match at
    case None => forall n | 0 <= n < |fs| :: !Wordlike(fs[n], alpha)
    case Some(k) => k < |fs| && Wordlike(fs[k], alpha) && forall n | 0 <= n < k :: !Wordlike(fs[n], alpha)
  }

  lemma NameSnoc(at: Option<nat>, front: seq<string>, f: string, alpha: char -> bool)
    requires NameIs(at, front, alpha)
    ensures NameIs(if at == None && Wordlike(f, alpha) then Some(|front|) else at, front + [f], alpha)
  {
    hide Wordlike;
    var fs := front + [f];
    assert forall n | 0 <= n < |front| :: fs[n] == front[n];
  }

  // The scan takes the first positive number past the first field for the PID, the next one for
  // the uid, and the first word-like field for the process.
  lemma {:induction false} ShiftedIs(fs: seq<string>, alpha: char -> bool)
    ensures var sc := ShiftedScan(fs, alpha); NumbersAre(sc.pid, sc.uid, fs) && NameIs(sc.procAt, fs, alpha)
  {
    hide Wordlike, NumberIn, NumbersAre, NameIs, ShiftedScan;
    if fs == [] {
      NothingShifted(alpha);
    } else {
      var front, f := fs[..|fs| - 1], fs[|fs| - 1];
      var sc := ShiftedScan(front, alpha);
      ShiftedIs(front, alpha);
      ShiftedStep(fs, alpha);
      NumbersSnoc(sc.pid, sc.uid, front, f);
      NameSnoc(sc.procAt, front, f, alpha);
      assert fs == front + [f];
    }
  }

  lemma ShiftedStep(fs: seq<string>, alpha: char -> bool)
    requires fs != []
    ensures var i, f := |fs| - 1, fs[|fs| - 1];
      var was, sc := ShiftedScan(fs[..i], alpha), ShiftedScan(fs, alpha);
      && sc.pid == (if was.pid == 0 && i > 0 then NumberIn(f) else was.pid)
      && sc.uid == (if was.pid > 0 && was.uid == 0 then NumberIn(f) else was.uid)
      && sc.procAt == if was.procAt == None && Wordlike(f, alpha) then Some(i) else was.procAt
  {
    hide ParseUnsigned, Wordlike, NameLike;
    WordlikeIs(fs[|fs| - 1], alpha);
  }

  lemma NothingShifted(alpha: char -> bool)
    ensures ShiftedScan([], alpha) == Shifted(0, 0, None) && NumbersAre(0, 0, []) && NameIs(None, [], alpha)
  {
  }

  // In any other list of at least four fields the start is read off those places.
  lemma StartShifted(fs: seq<string>, pads: seq<(string, string)>, fr: Frame, at: nat, pkg: Pkg, alpha: char -> bool)
    requires FieldList(fs, pads) && FrameText(fr) && |fs| >= 4
    requires ParseUnsigned(fs[1], 0xFFFF_FFFF) == None || ParseUnsigned(fs[2], 0xFFFF_FFFF) == None
    requires var toks := FirstEight(fs);
      && at < |toks| && Wordlike(toks[at], alpha) && (forall n | 0 <= n < at :: !Wordlike(toks[n], alpha))
      && BaseName(pkg, toks[at])
    ensures var toks := FirstEight(fs); var pidAt := NextPositive(toks, 1);
      var pid, uid := NumberAt(toks, pidAt), NumberAt(toks, NextPositive(toks, pidAt + 1));
      var kind := if at + 1 < |toks| && (toks[at + 1] == "" || toks[at + 1][0] != '{') then toks[at + 1] else "";
      ParseProcStart(InFrame(Join(fs, pads), fr), alpha) ==
      if pid > 0 && NameText(toks[at]) && NameText(pkg) then Some(ProcStart(toks[at], pkg, kind, pid, uid)) else None
  {
    hide Fields, ParseUnsigned, IsProcName, FieldList, Join, InFrame, FrameText, BasePkg, BaseName, NameText, Wordlike,
         ShiftedScan, NextPositive, NumberAt, NumberIn;
    var toks := FirstEight(fs);
    FieldsOf(fs, pads, fr);
    ShiftedIs(toks, alpha);
    assert toks[1] == fs[1] && toks[2] == fs[2] && toks[at] == fs[at];
    FieldIsBare(fs, pads, at);
    BareNameIff(toks[at]);
    if NameText(toks[at]) { BaseOf(pkg, toks[at]); }
  }

  // --- deaths --------------------------------------------------------------------------------------

  lemma DeadPairIs(fs: seq<string>, n: nat)
    requires n + 1 < |fs| && Bare(fs[n + 1], IsSpace)
    ensures DeadPair(fs, n) <==> DeadAt(fs, n)
  {
    hide ParseUnsigned, IsProcName, NameText, Spells;
    BareNameIff(fs[n + 1]);
    var pid := ParseUnsigned(fs[n], U32_MAX);
    if pid.Some? { UnsignedIff(fs[n], U32_MAX, pid.value); }
    if DeadPair(fs, n) {
      var p :| 0 < p <= 0xFFFF_FFFF && Spells(fs[n], p);
      UnsignedIff(fs[n], U32_MAX, p);
    }
  }

  lemma {:induction false} FirstDeadIs(toks: seq<string>, k: nat, i: nat)
    requires i <= k && k + 1 < |toks| && DeadAt(toks, k)
    requires forall n | i <= n < k :: !DeadAt(toks, n)
    ensures FirstDead(toks, i) == Some(ProcDied(ParseUnsigned(toks[k], U32_MAX).value))
    decreases k - i
  {
    hide ParseUnsigned, IsProcName;
    if i < k {
      assert !DeadAt(toks, i);
      FirstDeadIs(toks, k, i + 1);
    }
  }

  lemma {:induction false} NoneDead(toks: seq<string>, i: nat)
    requires i < |toks| && forall n | i <= n && n + 1 < |toks| :: !DeadAt(toks, n)
    ensures FirstDead(toks, i) == None
    decreases |toks| - i
  {
    hide DeadAt;
    if i + 1 < |toks| { NoneDead(toks, i + 1); }
  }

  // A death is read off the first positive number that stands directly in front of a name.
  lemma DiedIs(fs: seq<string>, pads: seq<(string, string)>, fr: Frame, k: nat, pid: nat)
    requires FieldList(fs, pads) && FrameText(fr)
    requires var toks := FirstEight(fs);
      && k + 1 < |toks| && DeadPair(toks, k) && Spells(toks[k], pid) && forall n | 0 <= n < k :: !DeadPair(toks, n)
    ensures ParseProcDied(InFrame(Join(fs, pads), fr)) == Some(ProcDied(pid))
  {
    hide Fields, ParseUnsigned, IsProcName, FieldList, Join, InFrame, FrameText, NameText, Spells, DeadPair;
    var toks := FirstEight(fs);
    FieldsOf(fs, pads, fr);
    forall n | 0 <= n <= k ensures DeadPair(toks, n) <==> DeadAt(toks, n) {
      assert toks[n + 1] == fs[n + 1];
      FieldIsBare(fs, pads, n + 1);
      DeadPairIs(toks, n);
    }
    FirstDeadIs(toks, k, 0);
    SpellsOnce(toks[k], pid);
  }

  lemma SpellsOnce(f: string, pid: nat)
    requires Spells(f, pid) && ParseUnsigned(f, U32_MAX).Some?
    ensures ParseUnsigned(f, U32_MAX).value == pid
  {
    UnsignedIff(f, if pid > U32_MAX then pid else U32_MAX, pid);
  }

  // Without such a pair nothing is read.
  lemma DiedIsNone(fs: seq<string>, pads: seq<(string, string)>, fr: Frame)
    requires FieldList(fs, pads) && FrameText(fr)
    requires var toks := FirstEight(fs); forall n | 0 <= n && n + 1 < |toks| :: !DeadPair(toks, n)
    ensures ParseProcDied(InFrame(Join(fs, pads), fr)) == None
  {
    hide Fields, FieldList, Join, InFrame, FrameText, DeadAt, DeadPair;
    var toks := FirstEight(fs);
    FieldsOf(fs, pads, fr);
    forall n | 0 <= n && n + 1 < |toks| ensures !DeadAt(toks, n) {
      assert toks[n + 1] == fs[n + 1];
      FieldIsBare(fs, pads, n + 1);
      DeadPairIs(toks, n);
    }
    if |toks| >= 2 { NoneDead(toks, 0); }
  }

  lemma DiedParses(e: Event, x: Surroundings)
    requires e.ProcDied? && Printable(e, x)
    ensures ParseProcDied(PayloadOf(e, x)) == Some(e)
  {
    hide ParseProcDied, FieldList, Join, InFrame, FrameText, NameText, Spells, ColumnsText, IsGap;
    var fs, k := EventFields(e, x), |x.before|;
    var toks := FirstEight(fs);
    SameLength(fs, x.pads);
    DecSpells(e.pid);
    assert toks[k] == Dec(e.pid) && toks[k + 1] == x.procName;
    forall n | 0 <= n < k ensures !DeadPair(toks, n) {
      assert toks[n] == fs[n] && toks[n + 1] == fs[n + 1] && !DeadPair(fs, n);
    }
    DiedIs(fs, x.pads, x.frame, k, e.pid);
  }

  // --- resumes -------------------------------------------------------------------------------------

  lemma ResumeParses(e: Event, x: Surroundings)
    requires e.ResumeActivity? && Printable(e, x)
    ensures ParseResume(PayloadOf(e, x)) == Some(e)
  {
    hide Fields, IsProcName, FieldList, Join, InFrame, FrameText, Unwrap, Wrapped, WrapText, ComponentText, NameText,
         ColumnsText, IsGap, ComponentField;
    var fs, k := EventFields(e, x), |x.before|;
    SameLength(fs, x.pads);
    WrappedUnwraps(e.pkg, e.component, x.wrap);
    NameIsBare(e.pkg);
    FieldsOf(fs, x.pads, x.frame);
    assert fs[k] == Wrapped(e.component, x.wrap);
    forall n | 0 <= n < k ensures '/' !in fs[n] { assert fs[n] == x.before[n]; }
    if '/' !in fs[k] {
      forall n | 3 < n < |fs| ensures '/' !in fs[n] { assert fs[n] == x.after[n - 4]; }
    }
    ComponentFieldIs(fs, k);
  }

  // --- whole lines ---------------------------------------------------------------------------------

  // A screen payload is 0 or 1 and an idle step's is empty, in any brackets; nothing else is.
  lemma ScreenIs(body: string, fr: Frame)
    requires FrameText(fr) && Bare(body, IsSpace) && NoBracketEnds(body)
    ensures ParseScreen(InFrame(body, fr)) ==
            if body == "0" then Some(ScreenToggled(false)) else if body == "1" then Some(ScreenToggled(true)) else None
    ensures ParseIdleStep(InFrame(body, fr)) == if body == "" then Some(DeviceIdleLightStep) else None
  {
    hide FrameText, InFrame, Inner;
    InnerOf(body, fr);
  }

  lemma PlainTag(tag: string)
    requires tag != "" && forall i | 0 <= i < |tag| :: 'a' <= tag[i] <= 'z' || tag[i] == '_'
    ensures TagText(tag)
  {
  }

  lemma StartTag()
    ensures TagText("am_proc_start") && TagText("am_proc_died")
  {
    hide TagText;
    PlainTag("am_proc_start");
    PlainTag("am_proc_died");
  }

  lemma ResumeTag()
    ensures TagText("wm_resume_activity") && TagText("am_resume_activity")
  {
    hide TagText;
    PlainTag("wm_resume_activity");
    PlainTag("am_resume_activity");
  }

  lemma OtherTag()
    ensures TagText("screen_toggled") && TagText("device_idle_light_step")
  {
    hide TagText;
    PlainTag("screen_toggled");
    PlainTag("device_idle_light_step");
  }

  lemma TagsAreText(e: Event, x: Surroundings)
    requires Printable(e, x)
    ensures TagText(TagOf(e, x))
  {
    hide NameText, ComponentText, FieldList, WrapText, Wrapped, ColumnsText, IsGap, DeadPair, FrameText, TagText,
         EventFields;
    StartTag();
    ResumeTag();
    OtherTag();
  }

  lemma FramedEnds(body: string, fr: Frame)
    requires FrameText(fr) && Bare(body, IsSpace) && (body != "" || fr.opening != "")
    ensures var p := InFrame(body, fr); p != "" && !IsSpace(p[|p| - 1])
  {
    var p := InFrame(body, fr);
    if fr.opening == "" {
      assert p == fr.gap + body;
    } else {
      assert fr.closing[|fr.closing| - 1] in fr.closing && p[|p| - 1] == fr.closing[|fr.closing| - 1];
    }
  }

  lemma BodyIsBare(e: Event, x: Surroundings)
    requires Printable(e, x)
    ensures Bare(BodyOf(e, x), IsSpace) && (BodyOf(e, x) != "" || x.frame.opening != "")
  {
    hide NameText, ComponentText, FieldText, WrapText, Wrapped, ColumnsText, IsGap, DeadPair, FrameText, EventFields,
         Join;
    if !e.ScreenToggled? && !e.DeviceIdleLightStep? {
      var fs := EventFields(e, x);
      JoinFirst(fs, x.pads);
      JoinLast(fs, x.pads);
      EdgesAreBare(fs[0], fs[|fs| - 1]);
    }
  }

  lemma PrintedShape(e: Event, x: Surroundings)
    requires Printable(e, x)
    ensures var p := PayloadOf(e, x); p != "" && !IsSpace(p[|p| - 1])
  {
    hide BodyOf, InFrame, FrameText;
    BodyIsBare(e, x);
    FrameOf(e, x);
    FramedEnds(BodyOf(e, x), x.frame);
  }

  lemma FrameOf(e: Event, x: Surroundings)
    requires Printable(e, x)
    ensures FrameText(x.frame)
  {
  }

  lemma EventParses(e: Event, x: Surroundings, alpha: char -> bool)
    requires Printable(e, x)
    ensures ParseEvent(TagOf(e, x), PayloadOf(e, x), alpha) == Some(e)
  {
    hide ParseProcStart, ParseProcDied, ParseResume, ParseScreen, ParseIdleStep, InFrame, EventFields, FrameText;
    match e
    case ResumeActivity(_, _) => ResumeParses(e, x);
    case ProcStart(_, _, _, _, _) => StartParses(e, x, alpha);
    case ProcDied(_) => DiedParses(e, x);
    case ScreenToggled(on) => ScreenIs(if on then "1" else "0", x.frame);
    case DeviceIdleLightStep => ScreenIs("", x.frame);
  }

  // A full line printed from any well-formed event and any u64 time stamp, in any columns,
  // parses back to exactly that time stamp and that event.
  lemma ParseInvertsPrint(ts: u64, e: Event, x: Surroundings, alpha: char -> bool)
    requires Printable(e, x)
    ensures ParseLine(Print(ts, e, x), alpha) == Some((ts, e))
  {
    hide ParseEvent, ParseLine, LineText, Header, PayloadOf, TagOf, ColumnsText, IsGap;
    TagsAreText(e, x);
    PrintedShape(e, x);
    LineSplits(ts, x.columns, x.gap, TagOf(e, x), PayloadOf(e, x), alpha);
    EventParses(e, x, alpha);
  }

  // White space around a line is nothing to the parser.
  lemma SpaceAroundLine(g: string, line: string, h: string, alpha: char -> bool)
    requires AllSpace(g) && AllSpace(h) && Bare(line, IsSpace)
    ensures ParseLine(g + (line + h), alpha) == ParseLine(line, alpha)
  {
    hide SplitOnce, Words, EpochMs, ParseEvent, StripLeft, StripRight;
    PadsTrim(g, line, h);
    BareStays(line, IsSpace);
  }

  function TagsFor(e: Event): set<string> {
    match e
    case ProcStart(_, _, _, _, _) => {"am_proc_start"}
    case ProcDied(_) => {"am_proc_died"}
    case ResumeActivity(_, _) => {"wm_resume_activity", "am_resume_activity"}
    case ScreenToggled(_) => {"screen_toggled"}
    case DeviceIdleLightStep => {"device_idle_light_step"}
  }

  ghost predicate HasShape(line: string, ts: u64, e: Event, header: string, payload: string) {
    && line == header + ([':'] + payload) && ':' !in header && |Words(header)| >= 2
    && EpochMs(Words(header)[0]) == Some(ts) && Words(header)[|Words(header)| - 1] in TagsFor(e)
  }

  lemma EventHasTag(tag: string, payload: string, alpha: char -> bool)
    ensures var e := ParseEvent(tag, payload, alpha); e.Some? ==> tag in TagsFor(e.value)
  {
    hide Fields, FirstDead, IsProcName, ShiftedScan, ParseUnsigned, Unwrap;
    var toks := Fields(payload);
    if |toks| >= 2 { FirstDeadIsPositive(toks, 0); }
  }

  // What a line must look like to be an event: no section mark, its first word in front of the
  // first colon a time, the last one the tag of such events.
  lemma ParsedHasShape(line: string, alpha: char -> bool)
    requires Bare(line, IsSpace) && ParseLine(line, alpha).Some?
    ensures !("---" <= line)
    ensures var (ts, e) := ParseLine(line, alpha).value;
      exists header, payload :: HasShape(line, ts, e, header, payload)
  {
    hide Words, EpochMs, StripLeft, StripRight, ParseEvent, TagsFor;
    BareStays(line, IsSpace);
    var i := Position(line, ':').value;
    var header, payload := line[..i], line[i + 1..];
    var (ts, e) := ParseLine(line, alpha).value;
    EventHasTag(Words(header)[|Words(header)| - 1], payload, alpha);
    assert HasShape(line, ts, e, header, payload);
  }
}
