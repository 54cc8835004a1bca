/** What the parts of the parsers recognise, spelt out character by character: numbers, times,
    names, payloads in brackets and the fields between their commas. */
module FieldLaws {
  import opened Prelude
  import opened Text
  import opened Parser

  // --- numbers -----------------------------------------------------------------------------------

  predicate Zeros(z: string) { forall c | c in z :: c == '0' }

  // Decimal digits of a number, after any zeros and an optional plus.
  ghost predicate Spells(s: string, n: nat) {
    exists z :: Zeros(z) && (s == z + Dec(n) || s == ['+'] + (z + Dec(n)))
  }

  lemma {:induction false} ZerosAddNothing(z: string, n: nat)
    requires Zeros(z)
    ensures AllDigits(z + Dec(n)) && Value(z + Dec(n)) == n
    decreases n, |z|
  {
    var s := z + Dec(n);
    assert forall c | c in s :: c in z || c in Dec(n);
    if n < 10 {
      assert s[..|s| - 1] == z;
      ZerosAreZero(z);
    } else {
      ZerosAddNothing(z, n / 10);
      assert s[..|s| - 1] == z + Dec(n / 10);
    }
  }

  lemma {:induction false} ZerosAreZero(z: string)
    requires Zeros(z)
    ensures AllDigits(z) && Value(z) == 0
  {
    if z != "" {
      var n := |z| - 1;
      assert z[n] in z && forall c | c in z[..n] :: c in z;
      ZerosAreZero(z[..n]);
    }
  }

  lemma DecStep(v: nat, c: char)
    requires IsDigit(c)
    ensures Dec(10 * v + DigitValue(c)) == if v > 0 then Dec(v) + [c] else [c]
  {
    assert Digit(DigitValue(c)) == c;
  }

  lemma FrontDigits(d: string)
    requires d != "" && AllDigits(d)
    ensures AllDigits(d[..|d| - 1]) && IsDigit(d[|d| - 1])
  {
    assert d[|d| - 1] in d;
    forall c | c in d[..|d| - 1] ensures IsDigit(c) { assert c in d; }
  }

  lemma ValueStep(d: string)
    requires d != "" && AllDigits(d)
    ensures var n := |d| - 1;
      IsDigit(d[n]) && AllDigits(d[..n]) && Value(d) == 10 * Value(d[..n]) + DigitValue(d[n])
  {
    hide AllDigits, IsDigit, DigitValue;
    FrontDigits(d);
  }

  lemma Regroup(a: string, b: string, c: char)
    ensures (a + b) + [c] == a + (b + [c]) && (Zeros(a) && b == "0" ==> Zeros(a + b))
  {
  }

  lemma {:induction false} DigitsSpell(d: string) returns (z: string)
    requires d != "" && AllDigits(d)
    ensures Zeros(z) && d == z + Dec(Value(d))
  {
    hide Dec, Value, DigitValue, IsDigit, Zeros;
    var n := |d| - 1;
    var v := Value(d[..n]);
    ValueStep(d);
    DecStep(v, d[n]);
    assert d == d[..n] + [d[n]];
    if n == 0 {
      z := "";
      NoZeros();
    } else {
      z := DigitsSpell(d[..n]);
      Regroup(z, Dec(v), d[n]);
      if v == 0 {
        z := z + Dec(0);
        NoZeros();
      }
    }
  }

  lemma NoZeros()
    ensures Zeros("") && Value("") == 0 && Dec(0) == "0"
  {
  }

  lemma StartsWithDigit(d: string)
    requires d != "" && AllDigits(d)
    ensures d[0] != '+'
  {
    assert d[0] in d;
  }

  // The numbers read are exactly the numbers spelt, up to the largest the width holds.
  lemma UnsignedIff(s: string, max: nat, n: nat)
    ensures ParseUnsigned(s, max) == Some(n) <==> n <= max && Spells(s, n)
  {
    hide Value;
    if n <= max && Spells(s, n) {
      var z :| Zeros(z) && (s == z + Dec(n) || s == ['+'] + (z + Dec(n)));
      ZerosAddNothing(z, n);
      StartsWithDigit(z + Dec(n));
      assert s == z + Dec(n) || s[1..] == z + Dec(n);
    }
    if ParseUnsigned(s, max) == Some(n) {
      var d := if s != "" && s[0] == '+' then s[1..] else s;
      var z := DigitsSpell(d);
      assert s == d || s == ['+'] + d;
    }
  }

  // --- times ---------------------------------------------------------------------------------------

  // The i-th digit of a fraction, 0 past its end.
  function DigitAt(frac: string, i: nat): nat
    requires forall j | 0 <= j < |frac| && j < 3 :: '0' <= frac[j] <= '9'
    requires i < 3
  {
    if i < |frac| then frac[i] as int - '0' as int else 0
  }

  lemma FractionIs(frac: string)
    requires forall j | 0 <= j < |frac| && j < 3 :: '0' <= frac[j] <= '9'
    ensures FractionMs(frac) == Some(100 * DigitAt(frac, 0) + 10 * DigitAt(frac, 1) + DigitAt(frac, 2))
  {
    hide Value;
    var f := frac[..Min(3, |frac|)];
    NoZeros();
    if |f| >= 1 {
      ValueStep(f[..1]);
      assert f[..1][..0] == "";
    }
    if |f| >= 2 {
      ValueStep(f[..2]);
      assert f[..2][..1] == f[..1];
    }
    if |f| >= 3 {
      ValueStep(f[..3]);
      assert f[..3][..2] == f[..2];
    }
    assert f[..|f|] == f;
  }

  // Seconds and a fraction of any length, of which three digits count, make milliseconds that
  // fit 64 bits.
  lemma EpochReads(secs: string, sec: nat, frac: string)
    requires '.' !in secs && Spells(secs, sec)
    requires forall j | 0 <= j < |frac| && j < 3 :: '0' <= frac[j] <= '9'
    ensures var ms := 1000 * sec + 100 * DigitAt(frac, 0) + 10 * DigitAt(frac, 1) + DigitAt(frac, 2);
      EpochMs(secs + ['.'] + frac) == if ms <= 0xFFFF_FFFF_FFFF_FFFF then Some(ms) else None
    ensures EpochMs(secs) == if 1000 * sec <= 0xFFFF_FFFF_FFFF_FFFF then Some(1000 * sec) else None
  {
    hide ParseUnsigned, FractionMs, Spells;
    FirstAt(secs, '.', frac);
    FractionIs(frac);
    FractionIs("");
    UnsignedIff(secs, 0xFFFF_FFFF_FFFF_FFFF, sec);
    if sec > 0xFFFF_FFFF_FFFF_FFFF { NotAbove(secs, sec); }
  }

  lemma NotAbove(secs: string, sec: nat)
    requires Spells(secs, sec) && sec > 0xFFFF_FFFF_FFFF_FFFF
    ensures ParseUnsigned(secs, 0xFFFF_FFFF_FFFF_FFFF) == None
  {
    UnsignedIff(secs, sec, sec);
  }

  // Anything else is no time.
  lemma EpochRejects(secs: string, frac: string)
    requires '.' !in secs
    requires (forall n :: !Spells(secs, n)) || exists j :: 0 <= j < |frac| && j < 3 && !('0' <= frac[j] <= '9')
    ensures EpochMs(secs + ['.'] + frac) == None && ((forall n :: !Spells(secs, n)) ==> EpochMs(secs) == None)
  {
    hide Spells;
    FirstAt(secs, '.', frac);
    var n := ParseUnsigned(secs, 0xFFFF_FFFF_FFFF_FFFF);
    if n.Some? { UnsignedIff(secs, 0xFFFF_FFFF_FFFF_FFFF, n.value); }
    var f := frac[..Min(3, |frac|)];
    assert forall j | 0 <= j < |f| :: frac[j] in f;
  }

  // --- names ---------------------------------------------------------------------------------------

  predicate Letter(c: char) { 'a' <= c <= 'z' || 'A' <= c <= 'Z' }

  // Letters, digits, dots, underscores and colons, a letter among them.
  predicate NameText(s: string) {
    && (forall c | c in s :: Letter(c) || '0' <= c <= '9' || c == '.' || c == '_' || c == ':')
    && exists c :: c in s && Letter(c)
  }

  // Names are recognised within any white space.
  lemma ProcNameIff(g: string, s: string, h: string)
    requires AllSpace(g) && AllSpace(h) && Bare(s, IsSpace)
    ensures IsProcName(g + (s + h)) <==> NameText(s)
  {
    hide Trim;
    PadsTrim(g, s, h);
    assert forall c :: IsAsciiAlpha(c) <==> Letter(c);
  }

  lemma BareNameIff(s: string)
    requires Bare(s, IsSpace)
    ensures IsProcName(s) <==> NameText(s)
  {
    ProcNameIff("", s, "");
    assert "" + (s + "") == s;
  }

  // --- payloads in brackets ----------------------------------------------------------------------

  // What stands around a payload: brackets with white space in front and inside, or white space
  // only.
  datatype Frame = Frame(gap: string, opening: string, before: string, behind: string, closing: string)

  predicate FrameText(fr: Frame) {
    && AllSpace(fr.gap) && AllSpace(fr.before) && AllSpace(fr.behind)
    && (forall c | c in fr.opening :: c == '[' || c == ']') && (forall c | c in fr.closing :: c == '[' || c == ']')
    && ((fr.opening != "" && fr.closing != "") || fr == Frame(fr.gap, "", "", "", ""))
  }

  function InFrame(body: string, fr: Frame): string {
    fr.gap + (fr.opening + ((fr.before + (body + fr.behind)) + fr.closing))
  }

  predicate NoBracketEnds(s: string) { Bare(s, (c: char) => c == '[' || c == ']') }

  lemma InnerOf(body: string, fr: Frame)
    requires FrameText(fr) && Bare(body, IsSpace) && NoBracketEnds(body)
    ensures Inner(InFrame(body, fr)) == body
  {
    hide StripLeft, StripRight, IsSpace;
    var w := fr.before + (body + fr.behind);
    var x := fr.opening + (w + fr.closing);
    BracketsAreInk();
    PadsTrim(fr.before, body, fr.behind);
    if fr.opening == "" {
      assert w == body && x == body && InFrame(body, fr) == fr.gap + (body + "");
      PadsTrim(fr.gap, body, "");
      BareStays(body, IsBracket);
    } else {
      EndsOfRow(fr.opening, w, fr.closing);
      assert InFrame(body, fr) == fr.gap + (x + "");
      PadsTrim(fr.gap, x, "");
      PaddedEnds(fr.before, body, fr.behind);
      PadsStrip(fr.opening, w, fr.closing, IsBracket);
    }
  }

  lemma BracketsAreInk()
    ensures !IsSpace('[') && !IsSpace(']')
  {
  }

  lemma EndsOfRow(a: string, b: string, c: string)
    requires a != "" && c != ""
    ensures var s := a + (b + c); s != "" && s[0] == a[0] && s[|s| - 1] == c[|c| - 1] && a[0] in a && c[|c| - 1] in c
  {
  }

  lemma PaddedEnds(g: string, body: string, h: string)
    requires AllSpace(g) && AllSpace(h) && NoBracketEnds(body)
    ensures Bare(g + (body + h), IsBracket)
  {
    var w := g + (body + h);
    assert (g != "" ==> g[0] in g && g[|g| - 1] in g) && (h != "" ==> h[0] in h && h[|h| - 1] in h);
    if w != "" {
      assert w[0] == if g != "" then g[0] else if body != "" then body[0] else h[0];
      assert w[|w| - 1] == if h != "" then h[|h| - 1] else if body != "" then body[|body| - 1] else g[|g| - 1];
    }
  }

  // --- fields --------------------------------------------------------------------------------------

  // Braces balance and every comma lies inside some.
  predicate Nested(f: string, depth: nat) {
    if f == "" then depth == 0
    else if f[0] == '{' then Nested(f[1..], depth + 1)
    else if f[0] == '}' then depth > 0 && Nested(f[1..], depth - 1)
    else (f[0] == ',' ==> depth > 0) && Nested(f[1..], depth)
  }

  predicate FieldText(f: string) { Bare(f, IsSpace) && Nested(f, 0) }

  function Padded(f: string, pad: (string, string)): string { pad.0 + (f + pad.1) }

  predicate PadText(pad: (string, string)) { AllSpace(pad.0) && AllSpace(pad.1) }

  // Fields between commas, with white space around them.
  function Join(fs: seq<string>, pads: seq<(string, string)>): string
    requires |fs| == |pads|
  {
    if fs == [] then ""
    else if |fs| == 1 then Padded(fs[0], pads[0])
    else Padded(fs[0], pads[0]) + [','] + Join(fs[1..], pads[1..])
  }

  lemma {:induction false} FieldHasNoCut(f: string, depth: nat, rest: string)
    requires Nested(f, depth)
    ensures TopComma(f + [','] + rest, depth) == |f| && TopComma(f, depth) == |f|
  {
    var s := f + [','] + rest;
    if f == "" {
      assert s == [','] + rest;
    } else {
      assert s[0] == f[0] && s[1..] == f[1..] + [','] + rest;
      FieldHasNoCut(f[1..], Nest(depth, f[0]), rest);
    }
  }

  lemma {:induction false} PadLeft(g: string, f: string)
    requires AllSpace(g) && Nested(f, 0)
    ensures Nested(g + f, 0)
  {
    if g == "" {
      assert g + f == f;
    } else {
      assert g[0] in g && forall c | c in g[1..] :: c in g;
      PadLeft(g[1..], f);
      assert (g + f)[1..] == g[1..] + f;
    }
  }

  lemma {:induction false} PadRight(f: string, h: string, depth: nat)
    requires AllSpace(h) && Nested(f, depth)
    ensures Nested(f + h, depth)
  {
    if f == "" {
      PadLeft(h, "");
      assert h + "" == h && f + h == h;
    } else {
      assert (f + h)[1..] == f[1..] + h && (f + h)[0] == f[0];
      PadRight(f[1..], h, Nest(depth, f[0]));
    }
  }

  lemma HeadToken(f: string, pad: (string, string), rest: string, limit: nat)
    requires FieldText(f) && PadText(pad) && limit > 0
    ensures Tokens(Padded(f, pad) + [','] + rest, limit) == [f] + Tokens(rest, limit - 1)
    ensures Tokens(Padded(f, pad), limit) == [f]
  {
    hide StripLeft, StripRight, TopComma, Nested, IsSpace;
    var t := Padded(f, pad);
    var s := t + [','] + rest;
    PadRight(f, pad.1, 0);
    PadLeft(pad.0, f + pad.1);
    FieldHasNoCut(t, 0, rest);
    PadsTrim(pad.0, f, pad.1);
    assert s[..|t|] == t && s[|t| + 1..] == rest;
  }

  // The tokenizer recovers the first min(k, limit) fields of a join of k fields.
  lemma {:induction false} TokensOfJoin(fs: seq<string>, pads: seq<(string, string)>, limit: nat)
    requires fs != [] && |fs| == |pads| && (forall f | f in fs :: FieldText(f)) && (forall p | p in pads :: PadText(p))
    ensures Tokens(Join(fs, pads), limit) == fs[..Min(limit, |fs|)]
  {
    hide FieldText, Tokens, PadText, Padded;
    assert pads[0] in pads && fs[0] in fs;
    if limit == 0 {
      NoTokens(Join(fs, pads));
    } else if |fs| == 1 {
      HeadToken(fs[0], pads[0], "", limit);
      assert fs == [fs[0]];
    } else {
      var rest := Join(fs[1..], pads[1..]);
      HeadToken(fs[0], pads[0], rest, limit);
      assert forall p | p in pads[1..] :: p in pads;
      TokensOfJoin(fs[1..], pads[1..], limit - 1);
      TakeCons(fs, limit);
    }
  }

  lemma NoTokens(s: string)
    ensures Tokens(s, 0) == []
  {
  }

  lemma TakeCons(fs: seq<string>, limit: nat)
    requires |fs| > 1 && limit > 0
    ensures fs[..Min(limit, |fs|)] == [fs[0]] + fs[1..][..Min(limit - 1, |fs| - 1)]
  {
  }

  // --- a list of fields in a payload -----------------------------------------------------------------

  // A field that may stand first or last between the brackets.
  predicate EdgeText(f: string) { f != "" && FieldText(f) && NoBracketEnds(f) }

  predicate FieldList(fs: seq<string>, pads: seq<(string, string)>) {
    && fs != [] && |fs| == |pads| && EdgeText(fs[0]) && EdgeText(fs[|fs| - 1])
    && pads[0].0 == "" && pads[|pads| - 1].1 == ""
    && (forall f | f in fs :: FieldText(f)) && (forall p | p in pads :: PadText(p))
  }

  lemma {:induction false} JoinLast(fs: seq<string>, pads: seq<(string, string)>)
    requires fs != [] && |fs| == |pads| && fs[|fs| - 1] != "" && pads[|pads| - 1].1 == ""
    ensures var s, l := Join(fs, pads), fs[|fs| - 1]; s != "" && s[|s| - 1] == l[|l| - 1]
  {
    if |fs| > 1 {
      JoinLast(fs[1..], pads[1..]);
      assert fs[1..][|fs| - 2] == fs[|fs| - 1];
    }
  }

  lemma JoinFirst(fs: seq<string>, pads: seq<(string, string)>)
    requires fs != [] && |fs| == |pads| && fs[0] != "" && pads[0].0 == ""
    ensures var s := Join(fs, pads); s != "" && s[0] == fs[0][0]
  {
    assert Padded(fs[0], pads[0])[0] == fs[0][0];
  }

  function FirstEight(fs: seq<string>): seq<string> { if |fs| <= 8 then fs else fs[..8] }

  // The fields of a printed payload, of which eight are read.
  lemma FieldsOf(fs: seq<string>, pads: seq<(string, string)>, fr: Frame)
    requires FieldList(fs, pads) && FrameText(fr)
    ensures Fields(InFrame(Join(fs, pads), fr)) == FirstEight(fs)
  {
    hide Tokens, Inner, InFrame, Join, FrameText, FieldText, PadText, IsSpace;
    JoinFirst(fs, pads);
    JoinLast(fs, pads);
    EdgesAreBare(fs[0], fs[|fs| - 1]);
    InnerOf(Join(fs, pads), fr);
    TokensOfJoin(fs, pads, 8);
    assert fs[..|fs|] == fs;
  }

  lemma EdgesAreBare(f: string, l: string)
    requires EdgeText(f) && EdgeText(l)
    ensures !IsSpace(f[0]) && f[0] != '[' && f[0] != ']'
    ensures !IsSpace(l[|l| - 1]) && l[|l| - 1] != '[' && l[|l| - 1] != ']'
  {
  }
}
