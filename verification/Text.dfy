/** The string operations the parsers lean on, and their laws. */
module Text {
  import opened Prelude

  // Unicode White_Space, which trim and split_whitespace use.
  predicate IsSpace(c: char) {
    var u := c as int;
    || 0x09 <= u <= 0x0D || u == 0x20 || u == 0x85 || u == 0xA0 || u == 0x1680
    || 0x2000 <= u <= 0x200A || u == 0x2028 || u == 0x2029 || u == 0x202F || u == 0x205F || u == 0x3000
  }

  predicate IsDigit(c: char) { '0' <= c <= '9' }

  predicate IsAsciiAlpha(c: char) { 'a' <= c <= 'z' || 'A' <= c <= 'Z' }

  predicate IsBracket(c: char) { c == '[' || c == ']' }

  predicate IsBrace(c: char) { c == '{' || c == '}' }

  // --- trimming ---------------------------------------------------------------------------

  function StripLeft(s: string, drop: char -> bool): string {
    if s != "" && drop(s[0]) then StripLeft(s[1..], drop) else s
  }

  function StripRight(s: string, drop: char -> bool): string {
    if s != "" && drop(s[|s| - 1]) then StripRight(s[..|s| - 1], drop) else s
  }

  // str::trim_matches
  function Strip(s: string, drop: char -> bool): string { StripRight(StripLeft(s, drop), drop) }

  function Trim(s: string): string { Strip(s, IsSpace) }

  // Neither end would be stripped.
  predicate Bare(s: string, drop: char -> bool) { s != "" ==> !drop(s[0]) && !drop(s[|s| - 1]) }

  lemma BareStays(s: string, drop: char -> bool)
    requires Bare(s, drop)
    ensures Strip(s, drop) == s
  {
  }

  lemma StripDropsEnds(s: string, c: char, d: char, drop: char -> bool)
    requires drop(c) && drop(d) && Bare(s, drop)
    ensures Strip([c] + s + [d], drop) == s
  {
    var w := [c] + s + [d];
    assert w[0] == c && w[1..] == s + [d];
    if s == "" {
      assert w[1..] == [d] && [d][1..] == "";
      assert StripLeft([d], drop) == StripLeft("", drop);
    } else {
      assert (s + [d])[0] == s[0];
      assert StripLeft(w, drop) == s + [d];
      assert (s + [d])[..|s + [d]| - 1] == s && (s + [d])[|s + [d]| - 1] == d;
      assert StripRight(s + [d], drop) == StripRight(s, drop) == s;
    }
  }

  lemma {:induction false} StripLeftShape(s: string, drop: char -> bool)
    ensures var r := StripLeft(s, drop); |r| <= |s| && r == s[|s| - |r|..] && (r != "" ==> !drop(r[0]))
  {
    if s != "" && drop(s[0]) { StripLeftShape(s[1..], drop); }
  }

  lemma {:induction false} StripRightShape(s: string, drop: char -> bool)
    ensures var r := StripRight(s, drop); |r| <= |s| && r == s[..|r|] && (r != "" ==> !drop(r[|r| - 1]))
  {
    if s != "" && drop(s[|s| - 1]) { StripRightShape(s[..|s| - 1], drop); }
  }

  lemma TrimIsBare(s: string, drop: char -> bool)
    ensures Bare(Strip(s, drop), drop) && forall c | c in Strip(s, drop) :: c in s
  {
    StripLeftShape(s, drop);
    StripRightShape(StripLeft(s, drop), drop);
  }

  // --- padding ---------------------------------------------------------------------------

  predicate AllSpace(g: string) { forall c | c in g :: IsSpace(c) }

  // The 25 characters with the property White_Space in version 15 of the Unicode standard.
  const WHITE_SPACE: seq<int> :=
    [9, 10, 11, 12, 13, 32, 133, 160, 5760, 8192, 8193, 8194, 8195, 8196, 8197, 8198, 8199, 8200, 8201, 8202,
     8232, 8233, 8239, 8287, 12288]

  lemma SpacesAre(c: char)
    ensures IsSpace(c) <==> c as int in WHITE_SPACE
  {
  }

  lemma EmptyIsBare()
    ensures Bare("", IsSpace) && AllSpace("")
  {
  }

  lemma {:induction false} LeftDrops(g: string, x: string, drop: char -> bool)
    requires forall c | c in g :: drop(c)
    ensures StripLeft(g + x, drop) == StripLeft(x, drop)
  {
    if g == "" {
      assert g + x == x;
    } else {
      assert g[0] in g && forall c | c in g[1..] :: c in g;
      LeftDrops(g[1..], x, drop);
      assert (g + x)[1..] == g[1..] + x;
    }
  }

  lemma {:induction false} RightDrops(x: string, h: string, drop: char -> bool)
    requires forall c | c in h :: drop(c)
    ensures StripRight(x + h, drop) == StripRight(x, drop)
  {
    if h == "" {
      assert x + h == x;
    } else {
      var n := |h| - 1;
      assert h[n] in h && forall c | c in h[..n] :: c in h;
      RightDrops(x, h[..n], drop);
      assert (x + h)[..|x + h| - 1] == x + h[..n];
    }
  }

  lemma {:induction false} StripRightStops(a: string, b: string)
    requires a != "" && !IsSpace(a[|a| - 1])
    ensures StripRight(a + b, IsSpace) == a + StripRight(b, IsSpace)
  {
    if b == "" {
      assert a + b == a;
    } else {
      StripRightStops(a, b[..|b| - 1]);
      assert (a + b)[..|a + b| - 1] == a + b[..|b| - 1];
      assert a + b == a + StripRight(b, IsSpace) || IsSpace(b[|b| - 1]);
    }
  }

  // Stripping takes away what surrounds a text with bare ends, and no more.
  lemma PadsStrip(g: string, v: string, h: string, drop: char -> bool)
    requires (forall c | c in g :: drop(c)) && (forall c | c in h :: drop(c)) && Bare(v, drop)
    ensures Strip(g + (v + h), drop) == v
  {
    LeftDrops(g, v + h, drop);
    if v == "" {
      assert v + h == h && h + "" == h;
      LeftDrops(h, "", drop);
    } else {
      assert (v + h)[0] == v[0];
      RightDrops(v, h, drop);
    }
  }

  lemma PadsTrim(g: string, v: string, h: string)
    requires AllSpace(g) && AllSpace(h) && Bare(v, IsSpace)
    ensures Trim(g + (v + h)) == v
  {
    PadsStrip(g, v, h, IsSpace);
  }

  // --- splitting ------------------------------------------------------------------------------

  // str::split_once on a character.
  function SplitOnce(s: string, c: char): Option<(string, string)> {
    match Position(s, c)
    case Some(i) => Some((s[..i], s[i + 1..]))
    case None => None
  }

  // split(c).next()
  function Before(s: string, c: char): string {
    match Position(s, c)
    case Some(i) => s[..i]
    case None => s
  }

  lemma FirstAt(a: string, c: char, b: string)
    requires c !in a
    ensures Position(a + [c] + b, c) == Some(|a|)
    ensures SplitOnce(a + [c] + b, c) == Some((a, b)) && Before(a + [c] + b, c) == a
  {
    var s := a + [c] + b;
    PositionAt(a, c, b);
    assert s[..|a|] == a && s[|a| + 1..] == b;
  }

  // str::split_whitespace
  function Words(s: string): seq<string> {
    if s == "" then []
    else if IsSpace(s[0]) then Words(s[1..])
    else
      var n := WordLength(s);
      [s[..n]] + Words(s[n..])
  }

  function WordLength(s: string): (n: nat)
    ensures n <= |s| && (s != "" && !IsSpace(s[0]) ==> n > 0)
    ensures forall i | 0 <= i < n :: !IsSpace(s[i])
    ensures n < |s| ==> IsSpace(s[n])
  {
    if s == "" || IsSpace(s[0]) then 0 else 1 + WordLength(s[1..])
  }

  predicate IsWord(w: string) { w != "" && forall c | c in w :: !IsSpace(c) }

  lemma WordThenSpace(w: string, rest: string)
    requires IsWord(w) && (rest == "" || IsSpace(rest[0]))
    ensures Words(w + rest) == [w] + Words(rest)
  {
    var s := w + rest;
    var n := WordLength(s);
    assert s[0] == w[0];
    forall i | 0 <= i < |w| ensures !IsSpace(s[i]) { assert s[i] == w[i] && w[i] in w; }
    assert rest != "" ==> s[|w|] == rest[0];
    assert s[..|w|] == w && s[|w|..] == rest;
  }

  lemma SpaceThen(c: char, rest: string)
    requires IsSpace(c)
    ensures Words([c] + rest) == Words(rest)
  {
    assert ([c] + rest)[1..] == rest;
  }

  // --- numbers ----------------------------------------------------------------------------------

  function DigitValue(c: char): nat
    requires IsDigit(c)
  {
    c as int - '0' as int
  }

  function Digit(d: nat): (c: char)
    requires d < 10
    ensures IsDigit(c) && DigitValue(c) == d
  {
    ('0' as int + d) as char
  }

  predicate AllDigits(s: string) { forall c | c in s :: IsDigit(c) }

  function Value(s: string): nat
    requires AllDigits(s)
  {
    if s == "" then 0 else 10 * Value(s[..|s| - 1]) + DigitValue(s[|s| - 1])
  }

  function Dec(n: nat): (s: string)
    ensures s != "" && AllDigits(s)
  {
    if n < 10 then [Digit(n)] else Dec(n / 10) + [Digit(n % 10)]
  }

  lemma {:induction false} ValueOfDec(n: nat)
    ensures Value(Dec(n)) == n
  {
    if n < 10 {
      assert [Digit(n)][..0] == "";
    } else {
      ValueOfDec(n / 10);
      assert Dec(n)[..|Dec(n)| - 1] == Dec(n / 10);
    }
  }

  // str::parse for an unsigned type: an optional plus, then digits within range.
  function ParseUnsigned(s: string, max: nat): Option<nat> {
    var d := if s != "" && s[0] == '+' then s[1..] else s;
    if d == "" || !AllDigits(d) then None
    else if Value(d) <= max then Some(Value(d))
    else None
  }

  // str::parse for a signed type.
  function ParseSigned(s: string, min: int, max: int): Option<int> {
    var negative := s != "" && s[0] == '-';
    var d := if s != "" && (s[0] == '+' || s[0] == '-') then s[1..] else s;
    if d == "" || !AllDigits(d) then None
    else
      var v := if negative then -(Value(d) as int) else Value(d);
      if min <= v <= max then Some(v) else None
  }

  lemma ParseDec(n: nat, max: nat)
    requires n <= max
    ensures ParseUnsigned(Dec(n), max) == Some(n)
    ensures forall c | c in Dec(n) :: IsDigit(c) && !IsSpace(c) && !IsBracket(c) && !IsBrace(c)
    ensures IsWord(Dec(n)) && Bare(Dec(n), IsSpace)
  {
    ValueOfDec(n);
    assert Dec(n)[0] in Dec(n) && Dec(n)[|Dec(n)| - 1] in Dec(n);
  }
}
