/** The event parser: a brace-aware tokenizer, the four payload parsers and the line
    dispatcher. Each function says what is parsed; the methods scan as the daemon does. */
module Parser {
  import opened Prelude
  import opened Text
  import opened Engine

  const MAX_TOKENS: nat := 8

  // --- the tokenizer ------------------------------------------------------------------------

  // Brace depth after one character; closing below zero stays at zero.
  function Nest(depth: nat, c: char): nat {
    if c == '{' then depth + 1 else if c == '}' then SatSub(depth, 1) else depth
  }

  // Offset of the first comma outside braces, or the length.
  function TopComma(s: string, depth: nat): (k: nat)
    ensures k <= |s|
  {
    if s == "" || (s[0] == ',' && depth == 0) then 0 else 1 + TopComma(s[1..], Nest(depth, s[0]))
  }

  function Tokens(s: string, limit: nat): seq<string>
    decreases limit
  {
    if limit == 0 then []
    else
      var k := TopComma(s, 0);
      if k == |s| then [Trim(s)] else [Trim(s[..k])] + Tokens(s[k + 1..], limit - 1)
  }

  lemma CutAtComma(s: string, start: nat, i: nat, limit: nat)
    requires start <= i < |s| && TopComma(s[start..], 0) == i - start && limit > 0
    ensures Tokens(s[start..], limit) == [Trim(s[start..i])] + Tokens(s[i + 1..], limit - 1)
  {
    assert s[start..][..i - start] == s[start..i] && s[start..][i - start + 1..] == s[i + 1..];
  }

  lemma EndOfText(s: string, start: nat, i: nat, depth: nat, limit: nat)
    requires start <= i <= |s| && TopComma(s[start..], 0) == i - start + TopComma(s[i..], depth)
    ensures limit == 0 ==> Tokens(s[start..], limit) == []
    ensures i == |s| && limit > 0 ==> Tokens(s[start..], limit) == [Trim(s[start..])]
  {
  }

  lemma PastComma(s: string, i: nat, depth: nat)
    requires i < |s|
    ensures TopComma(s[i..], depth) == if s[i] == ',' && depth == 0 then 0
                                       else 1 + TopComma(s[i + 1..], Nest(depth, s[i]))
  {
    assert s[i..][1..] == s[i + 1..];
  }

  lemma TakeOne(goal: seq<string>, done: seq<string>, left: seq<string>, token: string, rest: seq<string>)
    requires done + left == goal && left == [token] + rest
    ensures (done + [token]) + rest == goal
  {
  }

  method TokenizeInto(inner: string, out: array<string>) returns (count: nat)
    modifies out
    ensures count <= out.Length && out[..count] == Tokens(inner, out.Length)
    ensures out[count..] == old(out[..])[count..]
  {
    hide Tokens, Trim, TopComma;
    count := 0;
    var start, i := 0, 0;
    var depth: nat := 0;
    ghost var goal := Tokens(inner, out.Length);
    ghost var done: seq<string>, left := [], goal;
    assert inner[0..] == inner;
    while i < |inner| && count < out.Length
      invariant start <= i <= |inner| && count <= out.Length
      invariant out[..] == done + old(out[..])[count..] && |done| == count
      invariant done + left == goal && left == Tokens(inner[start..], out.Length - count)
      invariant TopComma(inner[start..], 0) == i - start + TopComma(inner[i..], depth)
    {
      PastComma(inner, i, depth);
      if inner[i] == ',' && depth == 0 {
        CutAtComma(inner, start, i, out.Length - count);
        var token := Trim(inner[start..i]);
        Put(out, count, token, done, old(out[..]));
        TakeOne(goal, done, left, token, Tokens(inner[i + 1..], out.Length - count - 1));
        left := Tokens(inner[i + 1..], out.Length - count - 1);
        done := done + [token];
        count := count + 1;
        start := i + 1;
      } else {
        depth := Nest(depth, inner[i]);
      }
      i := i + 1;
    }
    EndOfText(inner, start, i, depth, out.Length - count);
    if count < out.Length {
      Put(out, count, Trim(inner[start..]), done, old(out[..]));
      count := count + 1;
    }
  }

  method Put(out: array<string>, n: nat, token: string, ghost done: seq<string>, ghost was: seq<string>)
    requires |done| == n < out.Length == |was| && out[..] == done + was[n..]
    modifies out
    ensures out[..] == (done + [token]) + was[n + 1..]
  {
    out[n] := token;
  }

  // --- names and times ----------------------------------------------------------------------

  predicate IsNameChar(c: char) { IsAsciiAlpha(c) || IsDigit(c) || c == '.' || c == '_' || c == ':' }

  // A process identifier: name characters only, at least one of them a letter.
  predicate IsProcName(s: string) {
    var t := Trim(s);
    (forall c | c in t :: IsNameChar(c)) && exists c :: c in t && IsAsciiAlpha(c)
  }

  method CheckProcName(s: string) returns (ok: bool)
    ensures ok == IsProcName(s)
  {
    hide Trim;
    var t := Trim(s);
    var hasAlpha := false;
    for i := 0 to |t|
      invariant forall c | c in t[..i] :: IsNameChar(c)
      invariant hasAlpha <==> exists c :: c in t[..i] && IsAsciiAlpha(c)
    {
      assert t[..i + 1] == t[..i] + [t[i]];
      if IsAsciiAlpha(t[i]) {
        hasAlpha := true;
      } else if !IsNameChar(t[i]) {
        assert t[i] in t;
        return false;
      }
    }
    assert t[..|t|] == t;
    ok := hasAlpha;
  }

  // Milliseconds written by up to three fraction digits; longer fractions are cut.
  function FractionMs(frac: string): Option<nat> {
    var f := frac[..Min(3, |frac|)];
    if !AllDigits(f) then None
    else if |f| == 3 then Some(Value(f))
    else if |f| == 2 then Some(10 * Value(f))
    else Some(100 * Value(f))
  }

  function EpochMs(s: string): Option<u64> {
    var (secs, frac) := SplitOnce(s, '.').GetOr((s, ""));
    match ParseUnsigned(secs, U64_MAX)
    case None => None
    case Some(sec) =>
      match FractionMs(frac)
      case None => None
      case Some(ms) => if sec * 1000 + ms <= U64_MAX then Some(sec * 1000 + ms) else None
  }

  method SumFraction(frac: string) returns (r: Option<nat>)
    ensures r == FractionMs(frac)
  {
    var f := frac[..Min(3, |frac|)];
    var ms, mult := 0, 100;
    for i := 0 to |f|
      invariant AllDigits(f[..i])
      invariant i == 0 ==> ms == 0 && mult == 100
      invariant i == 1 ==> ms == 100 * Value(f[..1]) && mult == 10
      invariant i == 2 ==> ms == 10 * Value(f[..2]) && mult == 1
      invariant i == 3 ==> ms == Value(f[..3])
    {
      assert f[..i + 1][..i] == f[..i] && f[..i + 1] == f[..i] + [f[i]];
      if !IsDigit(f[i]) {
        assert f[i] in f;
        return None;
      }
      ms := ms + DigitValue(f[i]) * mult;
      mult := mult / 10;
      assert Value(f[..i + 1]) == 10 * Value(f[..i]) + DigitValue(f[i]);
    }
    assert f[..|f|] == f;
    r := Some(ms);
  }

  method ReadEpochMs(s: string) returns (r: Option<u64>)
    ensures r == EpochMs(s)
  {
    var (secs, frac) := SplitOnce(s, '.').GetOr((s, ""));
    var sec := ParseUnsigned(secs, U64_MAX);
    if sec == None { return None; }
    var ms := SumFraction(frac);
    if ms == None || sec.value * 1000 > U64_MAX || sec.value * 1000 + ms.value > U64_MAX { return None; }
    r := Some(sec.value * 1000 + ms.value);
  }

  // --- payloads ---------------------------------------------------------------------------------

  // The bracketed part of a payload.
  function Inner(payload: string): string { Trim(Strip(Trim(payload), IsBracket)) }

  function Fields(payload: string): seq<string> { Tokens(Inner(payload), MAX_TOKENS) }

  function BasePkg(procName: string): Pkg { Trim(Before(procName, ':')) }

  // A start event, provided its names are acceptable and its PID is not 0.
  function Started(procName: string, spawnType: string, pid: nat, uid: nat): Option<Event> {
    if pid == 0 || !IsProcName(procName) || !IsProcName(BasePkg(procName)) then None
    else Some(ProcStart(procName, BasePkg(procName), spawnType, pid, uid))
  }

  // Schema-free reading of a start payload: first number past the first field is the PID, the
  // next one after a positive PID the uid, the first name-like field the process.
  datatype Shifted = Shifted(pid: nat, uid: nat, procAt: Option<nat>)

  predicate NameLike(tok: string, alpha: char -> bool) {
    && tok != "" && tok[0] != '{' && tok[0] != '-'
    && ('.' in tok || ':' in tok || exists c :: c in tok && alpha(c))
  }

  function ShiftedScan(toks: seq<string>, alpha: char -> bool): (sc: Shifted)
    ensures sc.procAt.Some? ==> sc.procAt.value < |toks|
  {
    if toks == [] then Shifted(0, 0, None)
    else
      var i, tok := |toks| - 1, toks[|toks| - 1];
      var sc := ShiftedScan(toks[..i], alpha);
      match ParseUnsigned(tok, U32_MAX)
      case Some(v) =>
        if sc.pid == 0 && i > 0 then sc.(pid := v)
        else if sc.pid > 0 && sc.uid == 0 then sc.(uid := v)
        else sc
      case None => if sc.procAt == None && NameLike(tok, alpha) then sc.(procAt := Some(i)) else sc
  }

  function ParseProcStart(payload: string, alpha: char -> bool): Option<Event> {
    var toks := Fields(payload);
    if |toks| < 4 then None
    else
      var pid, uid := ParseUnsigned(toks[1], U32_MAX), ParseUnsigned(toks[2], U32_MAX);
      if pid.Some? && uid.Some? then
        Started(toks[3], if |toks| > 4 then toks[4] else "", pid.value, uid.value)
      else
        var sc := ShiftedScan(toks, alpha);
        if sc.procAt == None then None
        else
          var at := sc.procAt.value;
          var spawnType := if at + 1 < |toks| && !(toks[at + 1] != "" && toks[at + 1][0] == '{') then toks[at + 1]
                           else "";
          Started(toks[at], spawnType, sc.pid, sc.uid)
  }

  method ScanShifted(toks: seq<string>, alpha: char -> bool) returns (sc: Shifted)
    ensures sc == ShiftedScan(toks, alpha)
  {
    hide ParseUnsigned, NameLike;
    sc := Shifted(0, 0, None);
    for i := 0 to |toks|
      invariant sc == ShiftedScan(toks[..i], alpha)
    {
      assert toks[..i + 1][..i] == toks[..i];
      var v := ParseUnsigned(toks[i], U32_MAX);
      if v.Some? {
        if sc.pid == 0 && i > 0 {
          sc := sc.(pid := v.value);
        } else if sc.pid > 0 && sc.uid == 0 {
          sc := sc.(uid := v.value);
        }
      } else if sc.procAt == None && NameLike(toks[i], alpha) {
        sc := sc.(procAt := Some(i));
      }
    }
    assert toks[..|toks|] == toks;
  }

  // A positive number directly followed by a process name.
  predicate DeadAt(toks: seq<string>, i: nat)
    requires i + 1 < |toks|
  {
    var pid := ParseUnsigned(toks[i], U32_MAX);
    pid.Some? && pid.value > 0 && IsProcName(toks[i + 1])
  }

  function FirstDead(toks: seq<string>, i: nat): Option<Event>
    requires i < |toks|
    decreases |toks| - i
  {
    if i + 1 == |toks| then None
    else if DeadAt(toks, i) then Some(ProcDied(ParseUnsigned(toks[i], U32_MAX).value))
    else FirstDead(toks, i + 1)
  }

  function ParseProcDied(payload: string): Option<Event> {
    var toks := Fields(payload);
    if |toks| < 2 then None else FirstDead(toks, 0)
  }

  method FindDead(toks: seq<string>) returns (r: Option<Event>)
    requires toks != []
    ensures r == FirstDead(toks, 0)
  {
    hide ParseUnsigned, IsProcName;
    var i := 0;
    while i + 1 < |toks|
      invariant i < |toks| && FirstDead(toks, 0) == FirstDead(toks, i)
    {
      var pid := ParseUnsigned(toks[i], U32_MAX);
      if pid.Some? && pid.value > 0 {
        var isName := CheckProcName(toks[i + 1]);
        if isName { return Some(ProcDied(pid.value)); }
      }
      i := i + 1;
    }
    r := None;
  }

  // The first field with a slash, else the fourth.
  function ComponentField(toks: seq<string>): string {
    var slashed := FirstSlashed(toks);
    if slashed != "" then slashed else if |toks| >= 4 then toks[3] else ""
  }

  function FirstSlashed(toks: seq<string>): string {
    if toks == [] then "" else if '/' in toks[0] then toks[0] else FirstSlashed(toks[1..])
  }

  function Find(s: string, pat: string): (r: Option<nat>)
    ensures r.Some? ==> r.value + |pat| <= |s| && s[r.value..r.value + |pat|] == pat
  {
    if |s| < |pat| then None
    else if s[..|pat|] == pat then Some(0)
    else if s == "" then None
    else match Find(s[1..], pat)
      case Some(i) => Some(i + 1)
      case None => None
  }

  // Up to the first white space, closing brace or bracket.
  function UntilEnd(s: string): string {
    if s == "" || IsSpace(s[0]) || s[0] == '}' || s[0] == ']' then "" else [s[0]] + UntilEnd(s[1..])
  }

  function SlashedWord(words: seq<string>): Option<string> {
    if words == [] then None else if '/' in words[0] then Some(words[0]) else SlashedWord(words[1..])
  }

  predicate IsWrap(c: char) { IsBrace(c) || c == '"' || c == '\'' }

  // The component inside an Intent dump, a quoted word, or the field itself.
  function Unwrap(raw: string): string {
    var c := Trim(Strip(Trim(raw), IsBrace));
    var at := Find(c, "cmp=");
    var inner :=
      if at.Some? then UntilEnd(Trim(c[at.value + 4..]))
      else if ' ' in c && SlashedWord(Words(c)).Some? then Strip(SlashedWord(Words(c)).value, IsWrap)
      else c;
    Strip(inner, (d: char) => IsWrap(d) || d == ' ')
  }

  function ParseResume(payload: string): Option<Event> {
    var raw := ComponentField(Fields(payload));
    var component := if raw == "" then "" else Unwrap(raw);
    var pkg := Trim(Before(component, '/'));
    if component == "" || !IsProcName(pkg) then None else Some(ResumeActivity(pkg, component))
  }

  function ParseScreen(payload: string): Option<Event> {
    var p := Inner(payload);
    if p == "0" then Some(ScreenToggled(false)) else if p == "1" then Some(ScreenToggled(true)) else None
  }

  function ParseIdleStep(payload: string): Option<Event> {
    if Inner(payload) == "" then Some(DeviceIdleLightStep) else None
  }

  // --- the line ------------------------------------------------------------------------------------

  function ParseEvent(tag: string, payload: string, alpha: char -> bool): Option<Event> {
    if tag == "am_proc_start" then ParseProcStart(payload, alpha)
    else if tag == "am_proc_died" then ParseProcDied(payload)
    else if tag == "wm_resume_activity" || tag == "am_resume_activity" then ParseResume(payload)
    else if tag == "screen_toggled" then ParseScreen(payload)
    else if tag == "device_idle_light_step" then ParseIdleStep(payload)
    else None
  }

  // alpha is char::is_alphabetic.
  function ParseLine(line: string, alpha: char -> bool): Option<(u64, Event)> {
    var s := Trim(line);
    var halves := SplitOnce(s, ':');
    if s == "" || "---" <= s || halves == None then None
    else
      var header, payload := Words(halves.value.0), halves.value.1;
      if |header| < 2 then None
      else
        var ts := EpochMs(header[0]);
        if ts == None then None
        else match ParseEvent(header[|header| - 1], payload, alpha)
          case Some(e) => Some((ts.value, e))
          case None => None
  }

  // --- the scanning form ---------------------------------------------------------------------------

  method ReadFields(payload: string) returns (toks: seq<string>)
    ensures toks == Fields(payload)
  {
    var tokens := new string[MAX_TOKENS](_ => "");
    var count := TokenizeInto(Inner(payload), tokens);
    toks := tokens[..count];
  }

  method ReadStart(payload: string, alpha: char -> bool) returns (r: Option<Event>)
    ensures r == ParseProcStart(payload, alpha)
  {
    hide Fields, ParseUnsigned, ShiftedScan, BasePkg, IsProcName;
    var toks := ReadFields(payload);
    if |toks| < 4 { return None; }
    var pid, uid := ParseUnsigned(toks[1], U32_MAX), ParseUnsigned(toks[2], U32_MAX);
    var at, spawnType := 3, if |toks| > 4 then toks[4] else "";
    var found: Shifted;
    if pid.Some? && uid.Some? {
      found := Shifted(pid.value, uid.value, Some(3));
    } else {
      found := ScanShifted(toks, alpha);
      if found.procAt == None { return None; }
      at := found.procAt.value;
      spawnType := if at + 1 < |toks| && !(toks[at + 1] != "" && toks[at + 1][0] == '{') then toks[at + 1] else "";
    }
    var pkg := BasePkg(toks[at]);
    var nameOk := CheckProcName(toks[at]);
    var pkgOk := CheckProcName(pkg);
    if found.pid == 0 || !nameOk || !pkgOk { return None; }
    r := Some(ProcStart(toks[at], pkg, spawnType, found.pid, found.uid));
  }

  method ReadDied(payload: string) returns (r: Option<Event>)
    ensures r == ParseProcDied(payload)
  {
    hide Fields, FirstDead;
    var toks := ReadFields(payload);
    if |toks| < 2 { return None; }
    r := FindDead(toks);
  }

  method ReadResume(payload: string) returns (r: Option<Event>)
    ensures r == ParseResume(payload)
  {
    hide Fields, Unwrap, IsProcName, Trim, Before;
    var toks := ReadFields(payload);
    var raw, i := "", 0;
    while i < |toks| && raw == ""
      invariant i <= |toks|
      invariant FirstSlashed(toks) == if raw == "" then FirstSlashed(toks[i..]) else raw
    {
      if '/' in toks[i] { raw := toks[i]; }
      i := i + 1;
    }
    if raw == "" && |toks| >= 4 { raw := toks[3]; }
    if raw == "" { return None; }
    var component := Unwrap(raw);
    if component == "" { return None; }
    var pkg := Trim(Before(component, '/'));
    var ok := CheckProcName(pkg);
    r := if ok then Some(ResumeActivity(pkg, component)) else None;
  }

  method ReadLine(line: string, alpha: char -> bool) returns (r: Option<(u64, Event)>)
    ensures r == ParseLine(line, alpha)
  {
    hide Trim, SplitOnce, Words, EpochMs, ParseProcStart, ParseProcDied, ParseResume, ParseScreen, ParseIdleStep;
    var s := Trim(line);
    if s == "" || "---" <= s { return None; }
    var halves := SplitOnce(s, ':');
    if halves == None { return None; }
    var (header, payload) := halves.value;
    var words := Words(header);
    if |words| < 2 { return None; }
    var ts := ReadEpochMs(words[0]);
    if ts == None { return None; }
    var tag := words[|words| - 1];
    var e: Option<Event>;
    if tag == "am_proc_start" {
      e := ReadStart(payload, alpha);
    } else if tag == "am_proc_died" {
      e := ReadDied(payload);
    } else if tag == "wm_resume_activity" || tag == "am_resume_activity" {
      e := ReadResume(payload);
    } else if tag == "screen_toggled" {
      e := ParseScreen(payload);
    } else if tag == "device_idle_light_step" {
      e := ParseIdleStep(payload);
    } else {
      e := None;
    }
    r := if e.Some? then Some((ts.value, e.value)) else None;
  }

  // Whatever the text, an event that comes out has a well-formed package and a positive PID.
  predicate WellFormed(e: Event) {
    match e
    case ResumeActivity(pkg, _) => IsProcName(pkg)
    case ProcStart(procName, pkg, _, pid, _) => IsProcName(procName) && IsProcName(pkg) && pid > 0
    case ProcDied(pid) => pid > 0
    case _ => true
  }

  lemma {:induction false} FirstDeadIsPositive(toks: seq<string>, i: nat)
    requires i < |toks|
    ensures FirstDead(toks, i).Some? ==> FirstDead(toks, i).value.ProcDied? && FirstDead(toks, i).value.pid > 0
    decreases |toks| - i
  {
    if i + 1 < |toks| && !DeadAt(toks, i) { FirstDeadIsPositive(toks, i + 1); }
  }

  lemma ParsedIsWellFormed(line: string, alpha: char -> bool)
    ensures var r := ParseLine(line, alpha); r.Some? ==> WellFormed(r.value.1)
  {
    hide Trim, SplitOnce, Words, EpochMs, Fields, Unwrap, IsProcName, ShiftedScan, ParseUnsigned, BasePkg, Inner;
    var halves := SplitOnce(Trim(line), ':');
    if halves.Some? {
      var toks := Fields(halves.value.1);
      if |toks| >= 2 { FirstDeadIsPositive(toks, 0); }
    }
  }

  // A field of digits never passes as a process name.
  lemma NumbersAreNotNames(s: string)
    requires ParseUnsigned(s, U64_MAX).Some? || AllDigits(s)
    ensures !IsProcName(s)
  {
    TrimIsBare(s, IsSpace);
    var t := Trim(s);
    forall c | c in t ensures !IsAsciiAlpha(c) {
      assert c in s;
      assert s == [s[0]] + s[1..];
    }
  }
}
