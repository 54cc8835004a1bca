/** Configuration parsing as a fold: every key is its own last valid assignment. */
module ConfigLaws {
  import opened Prelude
  import opened Text
  import opened Engine
  import opened StepShape
  import opened ConfigFile
  import LruLaws

  // --- the reference: keys and their values ------------------------------------------------------

  datatype Key =
    | TIdleSec | LruProtectDepth | MemCriticalPercent | FgLruMaxDepth
    | ScreenOffHarvest | MaxKillsPerPass | MinOomScoreAdj | LogEnabled

  datatype Setting = Number(n: int) | Flag(b: bool)

  function NameOf(k: Key): string {
    match k
    case TIdleSec => "t_idle_sec"
    case LruProtectDepth => "lru_protect_depth"
    case MemCriticalPercent => "mem_critical_percent"
    case FgLruMaxDepth => "fg_lru_max_depth"
    case ScreenOffHarvest => "screen_off_harvest"
    case MaxKillsPerPass => "max_kills_per_pass"
    case MinOomScoreAdj => "min_oom_score_adj"
    case LogEnabled => "log_enabled"
  }

  function Get(c: Config, k: Key): Setting {
    match k
    case TIdleSec => Number(c.tIdleSec)
    case LruProtectDepth => Number(c.lruProtectDepth)
    case MemCriticalPercent => Number(c.memCriticalPercent)
    case FgLruMaxDepth => Number(c.fgLruMaxDepth)
    case ScreenOffHarvest => Flag(c.screenOffHarvest)
    case MaxKillsPerPass => Number(c.maxKillsPerPass)
    case MinOomScoreAdj => Number(c.minOomScoreAdj)
    case LogEnabled => Flag(c.logEnabled)
  }

  function AsNumber(n: Option<int>): Option<Setting> {
    match n case Some(v) => Some(Number(v)) case None => None
  }

  // What a value text means for a key; None when it does not parse.
  function Meaning(k: Key, val: string): Option<Setting> {
    match k
    case TIdleSec => AsNumber(ParseUnsigned(val, U64_MAX))
    case MemCriticalPercent => AsNumber(ParseUnsigned(val, U64_MAX))
    case LruProtectDepth => AsNumber(ParseUnsigned(val, USIZE_MAX))
    case FgLruMaxDepth => AsNumber(ParseUnsigned(val, USIZE_MAX))
    case MaxKillsPerPass =>
      (match ParseUnsigned(val, USIZE_MAX) case Some(n) => Some(Number(if n < 1 then 1 else n)) case None => None)
    case MinOomScoreAdj =>
      (match ParseSigned(val, I32_MIN, I32_MAX)
       case Some(n) => Some(Number(Clamp(n, ADJ_FLOOR, ADJ_CEILING)))
       case None => None)
    case _ => match ParseBool(val) case Some(b) => Some(Flag(b)) case None => None
  }

  // The valid assignment a line makes to a key, if any.
  function Assigned(line: string, k: Key): Option<Setting> {
    match KeyValue(line)
    case Some((name, val)) => if name == NameOf(k) then Meaning(k, val) else None
    case None => None
  }

  function LastValid(lines: seq<string>, k: Key): Option<Setting> {
    if lines == [] then None
    else
      var a := Assigned(lines[|lines| - 1], k);
      if a.Some? then a else LastValid(lines[..|lines| - 1], k)
  }

  // --- the fold meets the reference ---------------------------------------------------------------

  lemma AssignIs(c: Config, key: string, val: string, k: Key)
    ensures Get(Assign(c, key, val), k) ==
            if key == NameOf(k) then Meaning(k, val).GetOr(Get(c, k)) else Get(c, k)
  {
    hide ParseUnsigned, ParseSigned, ParseBool;
  }

  lemma {:induction false} LinesByLastValid(c: Config, lines: seq<string>, k: Key)
    ensures Get(ParseLines(c, lines), k) == LastValid(lines, k).GetOr(Get(c, k))
  {
    hide Get, NameOf, Meaning, Assign, KeyValue;
    if lines != [] {
      var n := |lines| - 1;
      LinesByLastValid(c, lines[..n], k);
      var kv := KeyValue(lines[n]);
      if kv.Some? { AssignIs(ParseLines(c, lines[..n]), kv.value.0, kv.value.1, k); }
    }
  }

  // Every key ends as its own last valid assignment, clamped, or as it was before.
  lemma KeysByLastValid(c: Config, text: string, k: Key)
    ensures Get(ParseText(c, text), k) == LastValid(TextLines(text), k).GetOr(Get(c, k))
  {
    LinesByLastValid(c, TextLines(text), k);
  }

  lemma SameKeys(c: Config, d: Config)
    requires forall k :: Get(c, k) == Get(d, k)
    ensures c == d
  {
    assert Get(c, TIdleSec) == Get(d, TIdleSec) && Get(c, LruProtectDepth) == Get(d, LruProtectDepth);
    assert Get(c, MemCriticalPercent) == Get(d, MemCriticalPercent) && Get(c, FgLruMaxDepth) == Get(d, FgLruMaxDepth);
    assert Get(c, ScreenOffHarvest) == Get(d, ScreenOffHarvest) && Get(c, MaxKillsPerPass) == Get(d, MaxKillsPerPass);
    assert Get(c, MinOomScoreAdj) == Get(d, MinOomScoreAdj) && Get(c, LogEnabled) == Get(d, LogEnabled);
  }

  // Loading the same file twice changes nothing the second time.
  lemma ParsingIsIdempotent(c: Config, text: string)
    ensures ParseText(ParseText(c, text), text) == ParseText(c, text)
  {
    hide Get, ParseText, LastValid;
    var d := ParseText(c, text);
    forall k ensures Get(ParseText(d, text), k) == Get(d, k) {
      KeysByLastValid(c, text, k);
      KeysByLastValid(d, text, k);
    }
    SameKeys(ParseText(d, text), d);
  }

  // A key never depends on the other keys' prior values: the preload that decides whether to
  // open the log and the authoritative load agree on it, whatever their burst caps.
  lemma KeysAreIndependent(c: Config, d: Config, text: string, k: Key)
    requires Get(c, k) == Get(d, k)
    ensures Get(ParseText(c, text), k) == Get(ParseText(d, text), k)
  {
    hide Get, ParseText, LastValid;
    KeysByLastValid(c, text, k);
    KeysByLastValid(d, text, k);
  }

  lemma PreloadAgrees(text: string, detectedKills: nat)
    ensures ParseText(DefaultConfig(), text).logEnabled
         == ParseText(DefaultConfig().(maxKillsPerPass := detectedKills), text).logEnabled
  {
    hide ParseText;
    KeysAreIndependent(DefaultConfig(), DefaultConfig().(maxKillsPerPass := detectedKills), text, LogEnabled);
  }

  // --- concatenation is composition -----------------------------------------------------------------

  // The first line of a text that has one, alone and in front of more text.
  lemma FirstLine(line: string, rest: string)
    requires '\n' !in line
    ensures TextLines(line + ['\n'] + rest) ==
            [if line != "" && line[|line| - 1] == '\r' then line[..|line| - 1] else line] + TextLines(rest)
  {
    FirstAt(line, '\n', rest);
  }

  lemma CutAtNewline(a: string, b: string, i: nat)
    requires i < |a| && a[i] == '\n'
    ensures a == a[..i] + ['\n'] + a[i + 1..] && a + b == a[..i] + ['\n'] + (a[i + 1..] + b)
    ensures a[i + 1..] == "" || a[i + 1..][|a| - i - 2] == a[|a| - 1]
  {
  }

  lemma {:induction false} LinesOfConcat(a: string, b: string)
    requires a == "" || a[|a| - 1] == '\n'
    ensures TextLines(a + b) == TextLines(a) + TextLines(b)
    decreases |a|
  {
    hide TextLines;
    if a == "" {
      NoLines();
      assert a + b == b;
    } else {
      var i := Position(a, '\n').value;
      CutAtNewline(a, b, i);
      FirstLine(a[..i], a[i + 1..]);
      FirstLine(a[..i], a[i + 1..] + b);
      LinesOfConcat(a[i + 1..], b);
    }
  }

  lemma NoLines()
    ensures TextLines("") == []
  {
  }

  lemma {:induction false} FoldConcat(c: Config, a: seq<string>, b: seq<string>)
    ensures ParseLines(c, a + b) == ParseLines(ParseLines(c, a), b)
  {
    hide Assign, KeyValue;
    if b == [] {
      assert a + b == a;
    } else {
      var n := |b| - 1;
      FoldConcat(c, a, b[..n]);
      assert (a + b)[..|a + b| - 1] == a + b[..n];
    }
  }

  // Parsing one text after another is parsing their concatenation.
  lemma ConcatIsComposition(c: Config, a: string, b: string)
    requires a == "" || a[|a| - 1] == '\n'
    ensures ParseText(c, a + b) == ParseText(ParseText(c, a), b)
  {
    hide TextLines, ParseLines;
    LinesOfConcat(a, b);
    FoldConcat(c, TextLines(a), TextLines(b));
  }

  // --- bounds ----------------------------------------------------------------------------------------------

  predicate Bounded(c: Config) { 500 <= c.minOomScoreAdj <= 900 && c.maxKillsPerPass >= 1 }

  lemma {:induction false} LastValidIsBounded(lines: seq<string>)
    ensures var m := LastValid(lines, MinOomScoreAdj);
      m.Some? ==> m.value.Number? && 500 <= m.value.n <= 900
    ensures var m := LastValid(lines, MaxKillsPerPass); m.Some? ==> m.value.Number? && m.value.n >= 1
  {
    hide KeyValue, NameOf, ParseUnsigned, ParseSigned;
    if lines != [] { LastValidIsBounded(lines[..|lines| - 1]); }
  }

  // No text can push the adj threshold or the burst cap out of bounds.
  lemma ParsingKeepsBounds(c: Config, text: string)
    requires Bounded(c)
    ensures Bounded(ParseText(c, text))
  {
    hide ParseText, LastValid, TextLines;
    LastValidIsBounded(TextLines(text));
    KeysByLastValid(c, text, MinOomScoreAdj);
    KeysByLastValid(c, text, MaxKillsPerPass);
  }

  // Every reload of the run parsed some file over the running configuration.
  ghost predicate FromFiles(s: State, run: seq<Happening>) {
    run != [] ==>
      var n := |run| - 1; var i := run[n].input;
      && FromFiles(s, run[..n])
      && (i.Reload? ==> exists text :: i.config == ParseText(Run(s, run[..n]).policy.config, text))
  }

  // So on every run the burst cap is at least 1, which is what draining needs to make progress.
  lemma {:induction false} RunKeepsBounds(s: State, run: seq<Happening>)
    requires Bounded(s.policy.config) && FromFiles(s, run)
    ensures Bounded(Run(s, run).policy.config)
  {
    if run != [] {
      var n := |run| - 1;
      var t, i := Run(s, run[..n]), run[n].input;
      RunKeepsBounds(s, run[..n]);
      LruLaws.StepConfig(t, i, run[n].answers);
      if i.Reload? {
        var text :| i.config == ParseText(t.policy.config, text);
        ParsingKeepsBounds(t.policy.config, text);
      }
    }
  }
}
