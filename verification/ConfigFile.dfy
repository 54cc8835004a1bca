/** daemon.conf: one body of text folded, line by line, into the running configuration. */
module ConfigFile {
  import opened Prelude
  import opened Text
  import opened Engine

  const I32_MIN: int := -0x8000_0000
  const I32_MAX: int := 0x7FFF_FFFF
  const ADJ_FLOOR: int := 500
  const ADJ_CEILING: int := 900

  function DefaultConfig(): Config { Config(180, 3, 10, 10, true, 2, 900, true) }

  // str::lines: split at newlines, a carriage return before one belongs to it.
  function TextLines(s: string): seq<string>
    decreases |s|
  {
    match SplitOnce(s, '\n')
    case None => if s == "" then [] else [s]
    case Some((line, rest)) =>
      [if line != "" && line[|line| - 1] == '\r' then line[..|line| - 1] else line] + TextLines(rest)
  }

  function ParseBool(s: string): Option<bool> {
    if s == "true" then Some(true) else if s == "false" then Some(false) else None
  }

  function Clamp(x: int, lo: int, hi: int): int { if x < lo then lo else if x > hi then hi else x }

  // Key and value of a line, comments cut, both trimmed.
  function KeyValue(line: string): Option<(string, string)> {
    var l := Trim(line);
    if l == "" || l[0] == '#' then None
    else match SplitOnce(l, '=')
      case None => None
      case Some((k, v)) => Some((Trim(k), Trim(Before(v, '#'))))
  }

  function Assign(c: Config, key: string, val: string): Config {
    match key
    case "t_idle_sec" => c.(tIdleSec := ParseUnsigned(val, U64_MAX).GetOr(c.tIdleSec))
    case "lru_protect_depth" => c.(lruProtectDepth := ParseUnsigned(val, USIZE_MAX).GetOr(c.lruProtectDepth))
    case "mem_critical_percent" => c.(memCriticalPercent := ParseUnsigned(val, U64_MAX).GetOr(c.memCriticalPercent))
    case "fg_lru_max_depth" => c.(fgLruMaxDepth := ParseUnsigned(val, USIZE_MAX).GetOr(c.fgLruMaxDepth))
    case "screen_off_harvest" => c.(screenOffHarvest := ParseBool(val).GetOr(c.screenOffHarvest))
    case "max_kills_per_pass" =>
      (match ParseUnsigned(val, USIZE_MAX)
       case Some(n) => c.(maxKillsPerPass := if n == 0 then 1 else n)
       case None => c)
    case "min_oom_score_adj" =>
      (match ParseSigned(val, I32_MIN, I32_MAX)
       case Some(n) => c.(minOomScoreAdj := Clamp(n, ADJ_FLOOR, ADJ_CEILING))
       case None => c)
    case "log_enabled" => c.(logEnabled := ParseBool(val).GetOr(c.logEnabled))
    case _ => c
  }

  function ParseLines(c: Config, lines: seq<string>): Config {
    if lines == [] then c
    else
      var d := ParseLines(c, lines[..|lines| - 1]);
      match KeyValue(lines[|lines| - 1])
      case Some((k, v)) => Assign(d, k, v)
      case None => d
  }

  function ParseText(c: Config, text: string): Config { ParseLines(c, TextLines(text)) }

  class RuntimeConfig {
    var tIdleSec: nat
    var lruProtectDepth: nat
    var memCriticalPercent: nat
    var fgLruMaxDepth: nat
    var screenOffHarvest: bool
    var maxKillsPerPass: nat
    var minOomScoreAdj: int
    var logEnabled: bool

    ghost function View(): Config
      reads this
    {
      Config(tIdleSec, lruProtectDepth, memCriticalPercent, fgLruMaxDepth, screenOffHarvest, maxKillsPerPass,
             minOomScoreAdj, logEnabled)
    }

    constructor ()
      ensures View() == DefaultConfig()
    {
      tIdleSec, lruProtectDepth, memCriticalPercent, fgLruMaxDepth := 180, 3, 10, 10;
      screenOffHarvest, maxKillsPerPass, minOomScoreAdj, logEnabled := true, 2, 900, true;
    }

    method ParseStr(text: string)
      modifies this
      ensures View() == ParseText(old(View()), text)
    {
      hide Assign, KeyValue, TextLines;
      var lines := TextLines(text);
      for i := 0 to |lines|
        invariant View() == ParseLines(old(View()), lines[..i])
      {
        assert lines[..i + 1][..i] == lines[..i];
        var kv := KeyValue(lines[i]);
        if kv.Some? { Set(kv.value.0, kv.value.1); }
      }
      assert lines[..|lines|] == lines;
    }

    method Set(key: string, val: string)
      modifies this
      ensures View() == Assign(old(View()), key, val)
    {
      hide ParseUnsigned, ParseSigned;
      if key == "t_idle_sec" {
        tIdleSec := ParseUnsigned(val, U64_MAX).GetOr(tIdleSec);
      } else if key == "lru_protect_depth" {
        lruProtectDepth := ParseUnsigned(val, USIZE_MAX).GetOr(lruProtectDepth);
      } else if key == "mem_critical_percent" {
        memCriticalPercent := ParseUnsigned(val, U64_MAX).GetOr(memCriticalPercent);
      } else if key == "fg_lru_max_depth" {
        fgLruMaxDepth := ParseUnsigned(val, USIZE_MAX).GetOr(fgLruMaxDepth);
      } else if key == "screen_off_harvest" {
        screenOffHarvest := ParseBool(val).GetOr(screenOffHarvest);
      } else if key == "max_kills_per_pass" {
        var n := ParseUnsigned(val, USIZE_MAX);
        if n.Some? { maxKillsPerPass := if n.value == 0 then 1 else n.value; }
      } else if key == "min_oom_score_adj" {
        var n := ParseSigned(val, I32_MIN, I32_MAX);
        if n.Some? { minOomScoreAdj := Clamp(n.value, ADJ_FLOOR, ADJ_CEILING); }
      } else if key == "log_enabled" {
        logEnabled := ParseBool(val).GetOr(logEnabled);
      }
    }
  }
}
