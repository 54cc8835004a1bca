/** Configuration files as people write them: what every printed line means, and that parsing
    a printed file yields the last value written for each key. */
module ConfigPrint {
  import opened Prelude
  import opened Text
  import opened Engine
  import opened ConfigFile
  import opened ConfigLaws

  // --- lines -------------------------------------------------------------------------------------

  datatype Written = Natural(n: nat) | Negative(n: nat) | Switch(b: bool) | Word(text: string)

  // A key and its value with white space around both and an optional comment; a comment; white
  // space; or text without an assignment.
  datatype ConfLine =
    | Assignment(key: Key, value: Written, gaps: (string, string, string, string), comment: Option<string>)
    | Remark(gap: string, text: string)
    | Blank(gap: string)
    | Stray(text: string)

  function Spelled(v: Written): string {
    match v
    case Natural(n) => Dec(n)
    case Negative(n) => ['-'] + Dec(n)
    case Switch(b) => if b then "true" else "false"
    case Word(text) => text
  }

  function Commented(comment: Option<string>): string {
    match comment
    case None => ""
    case Some(c) => ['#'] + c
  }

  function AfterSign(l: ConfLine): string
    requires l.Assignment?
  {
    l.gaps.2 + (Spelled(l.value) + (l.gaps.3 + Commented(l.comment)))
  }

  function LineText(l: ConfLine): string {
    match l
    case Assignment(key, _, gaps, _) => gaps.0 + (NameOf(key) + (gaps.1 + (['='] + AfterSign(l))))
    case Remark(gap, text) => gap + (['#'] + text)
    case Blank(gap) => gap
    case Stray(text) => text
  }

  // A word that is neither a number nor a truth value, or nothing at all.
  predicate IsJunk(w: string) {
    && Bare(w, IsSpace) && '#' !in w && w != "true" && w != "false"
    && (w == "" || exists c :: c in w && !IsDigit(c) && c != '+' && c != '-')
  }

  predicate OneLine(t: string) { '\n' !in t && (t == "" || t[|t| - 1] != '\r') }

  predicate LineFits(l: ConfLine) {
    && OneLine(LineText(l))
    && match l
       case Assignment(_, value, gaps, _) =>
         && AllSpace(gaps.0) && AllSpace(gaps.1) && AllSpace(gaps.2) && AllSpace(gaps.3)
         && (value.Word? ==> IsJunk(value.text))
       case Remark(gap, _) => AllSpace(gap)
       case Blank(gap) => AllSpace(gap)
       case Stray(text) => '=' !in text
  }

  // --- their meaning -----------------------------------------------------------------------------

  function Nearest(n: int): int { if n < 500 then 500 else if n > 900 then 900 else n }

  // What a value does to a key that stood at the prior setting.
  function Outcome(k: Key, v: Written, prior: Setting): Setting {
    match k
    case ScreenOffHarvest => if v.Switch? then Flag(v.b) else prior
    case LogEnabled => if v.Switch? then Flag(v.b) else prior
    case MinOomScoreAdj =>
      if v.Natural? && v.n <= 2_147_483_647 then Number(Nearest(v.n))
      else if v.Negative? && v.n <= 2_147_483_648 then Number(Nearest(-(v.n as int)))
      else prior
    case MaxKillsPerPass =>
      if v.Natural? && v.n <= 0xFFFF_FFFF_FFFF_FFFF then Number(if v.n == 0 then 1 else v.n) else prior
    case _ => if v.Natural? && v.n <= 0xFFFF_FFFF_FFFF_FFFF then Number(v.n) else prior
  }

  // What a file leaves of a key.
  function Final(ls: seq<ConfLine>, k: Key, prior: Setting): Setting {
    if ls == [] then prior
    else
      var l := ls[|ls| - 1];
      var before := Final(ls[..|ls| - 1], k, prior);
      if l.Assignment? && l.key == k then Outcome(k, l.value, before) else before
  }

  // --- values --------------------------------------------------------------------------------------

  lemma DecReads(n: nat)
    ensures AllDigits(Dec(n)) && Dec(n) != "" && Dec(n)[0] != '+' && Dec(n)[0] != '-' && Value(Dec(n)) == n
  {
    ValueOfDec(n);
    assert Dec(n)[0] in Dec(n);
  }

  lemma NaturalReads(n: nat, max: nat, lo: int, hi: int)
    ensures ParseUnsigned(Dec(n), max) == (if n <= max then Some(n) else None)
    ensures ParseSigned(Dec(n), lo, hi) == (if lo <= n <= hi then Some(n) else None)
    ensures ParseBool(Dec(n)) == None
  {
    DecReads(n);
  }

  lemma NegativeReads(n: nat, max: nat, lo: int, hi: int)
    ensures ParseUnsigned(['-'] + Dec(n), max) == None && ParseBool(['-'] + Dec(n)) == None
    ensures ParseSigned(['-'] + Dec(n), lo, hi) == if lo <= -(n as int) <= hi then Some(-(n as int)) else None
  {
    DecReads(n);
    var s := ['-'] + Dec(n);
    assert s[0] == '-' && s[0] in s && s[1..] == Dec(n);
  }

  lemma WordReads(w: string, max: nat, lo: int, hi: int)
    requires w == "" || exists c :: c in w && !IsDigit(c) && c != '+' && c != '-'
    ensures ParseUnsigned(w, max) == None && ParseSigned(w, lo, hi) == None
  {
    if w != "" {
      var c :| c in w && !IsDigit(c) && c != '+' && c != '-';
      Leftover(w, c);
    }
  }

  lemma Leftover(w: string, c: char)
    requires c in w && !IsDigit(c) && c != '+' && c != '-'
    ensures !AllDigits(w) && (w[0] == '+' || w[0] == '-' ==> !AllDigits(w[1..]))
  {
    assert w == [w[0]] + w[1..];
  }

  lemma MeaningIs(k: Key, v: Written)
    requires v.Word? ==> IsJunk(v.text)
    ensures forall prior :: Meaning(k, Spelled(v)).GetOr(prior) == Outcome(k, v, prior)
  {
    hide ParseUnsigned, ParseSigned, IsDigit, Bare, Dec;
    match v
    case Natural(n) =>
      NaturalReads(n, 0xFFFF_FFFF_FFFF_FFFF, -2_147_483_648, 2_147_483_647);
    case Negative(n) =>
      NegativeReads(n, 0xFFFF_FFFF_FFFF_FFFF, -2_147_483_648, 2_147_483_647);
    case Switch(b) =>
      SwitchIsOdd(b);
      WordReads(Spelled(v), 0xFFFF_FFFF_FFFF_FFFF, -2_147_483_648, 2_147_483_647);
    case Word(text) =>
      WordReads(text, 0xFFFF_FFFF_FFFF_FFFF, -2_147_483_648, 2_147_483_647);
  }

  lemma SwitchIsOdd(b: bool)
    ensures var w := if b then "true" else "false";
      ParseBool(w) == Some(b) && exists c :: c in w && !IsDigit(c) && c != '+' && c != '-'
  {
    var w := if b then "true" else "false";
    assert w[1] in w && !IsDigit(w[1]);
  }

  // --- reading one line ----------------------------------------------------------------------------

  lemma BareParts(v: Written)
    requires v.Word? ==> IsJunk(v.text)
    ensures Bare(Spelled(v), IsSpace) && '#' !in Spelled(v)
  {
    match v
    case Natural(n) => ParseDec(n, n);
    case Negative(n) => ParseDec(n, n);
    case Switch(_) =>
    case Word(_) =>
  }

  lemma SpaceIsPlain(g: string)
    requires AllSpace(g)
    ensures '#' !in g && '=' !in g
  {
  }

  // What stands behind the sign, cut at a comment and trimmed, is the value.
  lemma ValuePart(l: ConfLine)
    requires l.Assignment? && LineFits(l)
    ensures Trim(Before(StripRight(AfterSign(l), IsSpace), '#')) == Spelled(l.value)
  {
    hide StripLeft, StripRight, Spelled, IsSpace, IsJunk, Bare, OneLine;
    var g, v, h := l.gaps.2, Spelled(l.value), l.gaps.3;
    BareParts(l.value);
    SpaceIsPlain(g);
    SpaceIsPlain(h);
    match l.comment
    case Some(c) =>
      var kept := g + (v + h) + ['#'];
      assert AfterSign(l) == kept + c;
      HashStops(kept, c);
      FirstAt(g + (v + h), '#', StripRight(c, IsSpace));
      PadsTrim(g, v, h);
    case None =>
      assert AfterSign(l) == g + (v + h);
      StripsToValue(g, v, h);
  }

  lemma HashStops(kept: string, c: string)
    requires kept != "" && kept[|kept| - 1] == '#'
    ensures StripRight(kept + c, IsSpace) == kept + StripRight(c, IsSpace)
  {
    StripRightStops(kept, c);
  }

  lemma StripsToValue(g: string, v: string, h: string)
    requires AllSpace(g) && AllSpace(h) && Bare(v, IsSpace) && '#' !in g && '#' !in v
    ensures Trim(Before(StripRight(g + (v + h), IsSpace), '#')) == v
  {
    if v == "" {
      assert g + (v + h) == "" + (g + h);
      RightDrops("", g + h, IsSpace);
    } else {
      assert g + (v + h) == (g + v) + h;
      RightDrops(g + v, h, IsSpace);
      assert (g + v)[|g + v| - 1] == v[|v| - 1];
      assert v + "" == v;
      PadsTrim(g, v, "");
    }
  }

  lemma NameIsPlain(k: Key)
    ensures var n := NameOf(k); n != "" && !IsSpace(n[0]) && !IsSpace(n[|n| - 1]) && n[0] != '#'
  {
  }

  lemma NameHasNoSign(k: Key)
    ensures '=' !in NameOf(k)
  {
    assert forall i | 0 <= i < |NameOf(k)| :: NameOf(k)[i] != '=';
  }

  lemma AssignmentReads(l: ConfLine)
    requires l.Assignment? && LineFits(l)
    ensures KeyValue(LineText(l)) == Some((NameOf(l.key), Spelled(l.value)))
  {
    hide StripLeft, StripRight, Spelled, IsSpace, IsJunk, AfterSign, NameOf, OneLine, Before;
    var name, t := NameOf(l.key), AfterSign(l);
    NameIsPlain(l.key);
    NameHasNoSign(l.key);
    var front := name + l.gaps.1;
    var body := front + ['='] + t;
    assert LineText(l) == l.gaps.0 + body by {
      assert name + (l.gaps.1 + (['='] + t)) == body;
    }
    LeftDrops(l.gaps.0, body, IsSpace);
    StartsBare(name, l.gaps.1 + (['='] + t));
    assert name + (l.gaps.1 + (['='] + t)) == body;
    SignStops(front + ['='], t);
    var rest := StripRight(t, IsSpace);
    assert Trim(LineText(l)) == front + ['='] + rest;
    SpaceIsPlain(l.gaps.1);
    FirstAt(front, '=', rest);
    PadsTrim("", name, l.gaps.1);
    assert "" + (name + l.gaps.1) == front;
    ValuePart(l);
    assert (front + ['='] + rest)[0] == name[0];
  }

  lemma StartsBare(name: string, rest: string)
    requires name != "" && !IsSpace(name[0])
    ensures StripLeft(name + rest, IsSpace) == name + rest
  {
  }

  lemma SignStops(kept: string, t: string)
    requires kept != "" && kept[|kept| - 1] == '='
    ensures StripRight(kept + t, IsSpace) == kept + StripRight(t, IsSpace)
  {
    StripRightStops(kept, t);
  }

  // Comments, white space and text without a sign assign nothing.
  lemma OthersAssignNothing(l: ConfLine)
    requires !l.Assignment? && LineFits(l)
    ensures KeyValue(LineText(l)) == None
  {
    hide IsSpace, OneLine;
    match l
    case Remark(gap, text) => RemarkIsDropped(gap, text);
    case Blank(gap) =>
      assert gap == gap + ("" + "");
      EmptyIsBare();
      PadsTrim(gap, "", "");
    case Stray(text) => TrimIsBare(text, IsSpace);
  }

  lemma RemarkIsDropped(gap: string, text: string)
    requires AllSpace(gap)
    ensures KeyValue(gap + (['#'] + text)) == None
  {
    var r := ['#'] + text;
    LeftDrops(gap, r, IsSpace);
    assert StripLeft(r, IsSpace) == r;
    HashStops(['#'], text);
    assert Trim(gap + r) == ['#'] + StripRight(text, IsSpace);
  }

  // --- files ---------------------------------------------------------------------------------------

  lemma OneLineParses(c: Config, lines: seq<string>, l: ConfLine, k: Key)
    requires LineFits(l)
    ensures Get(ParseLines(c, lines + [LineText(l)]), k) ==
            var before := Get(ParseLines(c, lines), k);
            if l.Assignment? && l.key == k then Outcome(k, l.value, before) else before
  {
    hide KeyValue, LineText, Assign, Get, Outcome, Meaning, Spelled, IsJunk, AllSpace, OneLine;
    var all := lines + [LineText(l)];
    assert all[..|all| - 1] == lines && all[|all| - 1] == LineText(l);
    var d := ParseLines(c, lines);
    if l.Assignment? {
      AssignmentReads(l);
      MeaningIs(l.key, l.value);
      AssignIs(d, NameOf(l.key), Spelled(l.value), k);
      NamesDiffer(l.key, k);
    } else {
      OthersAssignNothing(l);
    }
  }

  lemma NamesDiffer(j: Key, k: Key)
    ensures NameOf(j) == NameOf(k) <==> j == k
  {
    assert j != k ==> |NameOf(j)| != |NameOf(k)| || NameOf(j)[0] != NameOf(k)[0];
  }

  // Lines end in a newline, with or without a carriage return.
  function FileText(ls: seq<(ConfLine, bool)>): string {
    if ls == [] then ""
    else
      var (l, cr) := ls[|ls| - 1];
      FileText(ls[..|ls| - 1]) + (LineText(l) + if cr then ['\r', '\n'] else ['\n'])
  }

  function LinesOf(ls: seq<(ConfLine, bool)>): seq<ConfLine> {
    if ls == [] then [] else LinesOf(ls[..|ls| - 1]) + [ls[|ls| - 1].0]
  }

  function TextsOf(ls: seq<(ConfLine, bool)>): seq<string> {
    if ls == [] then [] else TextsOf(ls[..|ls| - 1]) + [LineText(ls[|ls| - 1].0)]
  }

  lemma EndedLine(t: string, cr: bool)
    requires OneLine(t)
    ensures TextLines(t + if cr then ['\r', '\n'] else ['\n']) == [t]
  {
    var line := if cr then t + ['\r'] else t;
    assert t + (if cr then ['\r', '\n'] else ['\n']) == line + ['\n'] + "";
    FirstLine(line, "");
    NoLines();
    assert cr ==> line[..|line| - 1] == t;
  }

  lemma {:induction false} FileSplits(ls: seq<(ConfLine, bool)>)
    requires forall l | l in ls :: LineFits(l.0)
    ensures TextLines(FileText(ls)) == TextsOf(ls)
    ensures var t := FileText(ls); t == "" || t[|t| - 1] == '\n'
  {
    hide TextLines, LineText;
    if ls == [] {
      NoLines();
    } else {
      var n := |ls| - 1;
      assert ls[n] in ls;
      FileSplits(ls[..n]);
      var last := LineText(ls[n].0) + if ls[n].1 then ['\r', '\n'] else ['\n'];
      EndedLine(LineText(ls[n].0), ls[n].1);
      ConfigLaws.LinesOfConcat(FileText(ls[..n]), last);
    }
  }

  lemma {:induction false} LinesParse(c: Config, ls: seq<(ConfLine, bool)>, k: Key)
    requires forall l | l in ls :: LineFits(l.0)
    ensures Get(ParseLines(c, TextsOf(ls)), k) == Final(LinesOf(ls), k, Get(c, k))
  {
    hide LineText, Get, Outcome, LineFits, ParseLines;
    if ls == [] {
      NothingParses(c);
    } else {
      var n := |ls| - 1;
      assert ls[n] in ls;
      LinesParse(c, ls[..n], k);
      OneLineParses(c, TextsOf(ls[..n]), ls[n].0, k);
      assert LinesOf(ls)[..|LinesOf(ls)| - 1] == LinesOf(ls[..n]);
    }
  }

  lemma NothingParses(c: Config)
    ensures ParseLines(c, []) == c
  {
  }

  // Parsing a printed file gives every key the value last written for it, cut or lifted into
  // its range, and leaves the keys it does not mention, or mentions with junk, as they were.
  lemma PrintedFileParses(c: Config, ls: seq<(ConfLine, bool)>, k: Key)
    requires forall l | l in ls :: LineFits(l.0)
    ensures Get(ParseText(c, FileText(ls)), k) == Final(LinesOf(ls), k, Get(c, k))
  {
    hide FileText, TextLines, Get, Final, ParseLines, LineFits;
    FileSplits(ls);
    LinesParse(c, ls, k);
  }

  // --- the shipped template ------------------------------------------------------------------------

  // The value the template the daemon writes on first start states for a key; the burst cap it
  // states in a comment only.
  function Shipped(k: Key): Written {
    match k
    case TIdleSec => Natural(180)
    case LruProtectDepth => Natural(3)
    case MemCriticalPercent => Natural(10)
    case FgLruMaxDepth => Natural(10)
    case ScreenOffHarvest => Switch(true)
    case MaxKillsPerPass => Natural(2)
    case MinOomScoreAdj => Natural(900)
    case LogEnabled => Switch(true)
  }

  predicate Gives(ls: seq<ConfLine>, k: Key) { exists l :: l in ls && l.Assignment? && l.key == k }

  lemma {:induction false} FinalIsShipped(ls: seq<ConfLine>, k: Key, prior: Setting)
    requires forall l | l in ls :: l.Assignment? ==> l.value == Shipped(l.key)
    ensures Final(ls, k, prior) == if Gives(ls, k) then Outcome(k, Shipped(k), prior) else prior
  {
    hide Outcome, Shipped;
    if ls != [] {
      var n := |ls| - 1;
      FinalIsShipped(ls[..n], k, prior);
      assert ls == ls[..n] + [ls[n]];
      ShippedIsDefault(k, prior);
      assert Gives(ls, k) <==> Gives(ls[..n], k) || (ls[n].Assignment? && ls[n].key == k);
    }
  }

  lemma ShippedIsDefault(k: Key, prior: Setting)
    ensures Outcome(k, Shipped(k), prior) == Get(DefaultConfig(), k)
    ensures forall other :: Outcome(k, Shipped(k), other) == Get(DefaultConfig(), k)
  {
  }

  lemma {:induction false} LinesAre(ls: seq<(ConfLine, bool)>)
    ensures forall l | l in LinesOf(ls) :: exists e :: e in ls && e.0 == l
  {
    if ls != [] {
      var n := |ls| - 1;
      LinesAre(ls[..n]);
      assert ls == ls[..n] + [ls[n]];
      forall l | l in LinesOf(ls) ensures exists e :: e in ls && e.0 == l {
        if l in LinesOf(ls[..n]) {
          var e :| e in ls[..n] && e.0 == l;
          assert e in ls;
        } else {
          assert ls[n] in ls && ls[n].0 == l;
        }
      }
    }
  }

  // A file that says what the template says, in any layout and order, gives the keys it mentions
  // their built-in defaults and leaves the others: with its burst cap commented out, as
  // shipped, the cap detected from the memory size stands.
  lemma TemplateIsDefault(c: Config, ls: seq<(ConfLine, bool)>, k: Key)
    requires forall l | l in ls :: LineFits(l.0) && (l.0.Assignment? ==> l.0.value == Shipped(l.0.key))
    ensures Get(ParseText(c, FileText(ls)), k) == Get(if Gives(LinesOf(ls), k) then DefaultConfig() else c, k)
  {
    hide FileText, ParseText, Final, LineFits, LinesOf, Shipped, Get, Outcome;
    LinesAre(ls);
    PrintedFileParses(c, ls, k);
    FinalIsShipped(LinesOf(ls), k, Get(c, k));
    ShippedIsDefault(k, Get(c, k));
  }
}
