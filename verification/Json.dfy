/** The JSON string escaper, against a reader of string literals after section 7 of RFC 8259. */
module Json {
  import opened Prelude

  // --- escaping ---------------------------------------------------------------------------------

  predicate IsControl(c: char) { c as int < 0x20 }

  predicate IsSpecial(c: char) { c == '"' || c == '\\' || IsControl(c) }

  function Hex(d: nat): char
    requires d < 16
  {
    if d < 10 then ('0' as int + d) as char else ('a' as int + d - 10) as char
  }

  // A backslash, u and the code in four lower-case hex digits.
  function UnicodeEscape(n: nat): string
    requires n < 0x10000
  {
    ['\\', 'u', Hex(n / 4096), Hex(n / 256 % 16), Hex(n / 16 % 16), Hex(n % 16)]
  }

  function EscapeChar(c: char): string {
    if c == '"' then ['\\', '"']
    else if c == '\\' then ['\\', '\\']
    else if c == '\n' then ['\\', 'n']
    else if c == '\r' then ['\\', 'r']
    else if c == '\t' then ['\\', 't']
    else if IsControl(c) then UnicodeEscape(c as int)
    else [c]
  }

  function Escape(s: string): string {
    if s == "" then "" else Escape(s[..|s| - 1]) + EscapeChar(s[|s| - 1])
  }

  lemma PlainChar(c: char)
    ensures if IsSpecial(c) then |EscapeChar(c)| > 1 else EscapeChar(c) == [c]
  {
  }

  lemma {:induction false} PlainEscape(s: string)
    ensures |Escape(s)| >= |s|
    ensures (exists c :: c in s && IsSpecial(c)) ==> |Escape(s)| > |s|
    ensures (forall c | c in s :: !IsSpecial(c)) ==> Escape(s) == s
  {
    if s != "" {
      var n := |s| - 1;
      PlainEscape(s[..n]);
      assert s == s[..n] + [s[n]];
      PlainChar(s[n]);
      assert forall c | c in s[..n] :: c in s;
    }
  }

  // Escaping is the identity exactly on strings without quote, backslash and control character.
  lemma EscapeIsIdentityIff(s: string)
    ensures Escape(s) == s <==> forall c | c in s :: c != '"' && c != '\\' && c as int >= 32
  {
    PlainEscape(s);
    assert forall c :: IsSpecial(c) <==> c == '"' || c == '\\' || c as int < 32;
  }

  // The control characters without a letter of their own are spelt by their code, in lower case.
  lemma ControlIsSpelt(c: char)
    requires c as int < 32 && c != '\n' && c != '\r' && c != '\t'
    ensures EscapeChar(c) == "\\u00" + ["01"[c as int / 16], "0123456789abcdef"[c as int % 16]]
  {
    var u := c as int;
    assert u / 4096 == 0 && u / 256 == 0 && u / 16 % 16 == u / 16;
  }

  // The daemon scans first and borrows the input when there is nothing to escape.
  method EscapeJson(s: string) returns (r: string, borrowed: bool)
    ensures r == Escape(s) && (borrowed <==> r == s)
  {
    var special := false;
    for i := 0 to |s|
      invariant special <==> exists c :: c in s[..i] && IsSpecial(c)
    {
      assert s[..i + 1] == s[..i] + [s[i]];
      if IsSpecial(s[i]) { special := true; }
    }
    assert s[..|s|] == s;
    EscapeIsIdentityIff(s);
    borrowed := !special;
    if borrowed {
      r := s;
    } else {
      r := "";
      for i := 0 to |s|
        invariant r == Escape(s[..i])
      {
        assert s[..i + 1][..i] == s[..i];
        r := r + EscapeChar(s[i]);
      }
    }
  }

  // --- reading a string literal ------------------------------------------------------------------

  function HexValue(c: char): Option<nat> {
    if '0' <= c <= '9' then Some(c as int - '0' as int)
    else if 'a' <= c <= 'f' then Some(c as int - 'a' as int + 10)
    else if 'A' <= c <= 'F' then Some(c as int - 'A' as int + 10)
    else None
  }

  // The code unit of four hex digits.
  function CodeUnit(t: string): (r: Option<nat>)
    ensures r.Some? ==> |t| >= 4 && r.value < 0x10000
  {
    if |t| < 4 || HexValue(t[0]).None? || HexValue(t[1]).None? || HexValue(t[2]).None? || HexValue(t[3]).None? then None
    else Some(4096 * HexValue(t[0]).value + 256 * HexValue(t[1]).value + 16 * HexValue(t[2]).value
              + HexValue(t[3]).value)
  }

  function ShortEscape(c: char): Option<char> {
    match c
    case '"' => Some('"')
    case '\\' => Some('\\')
    case '/' => Some('/')
    case 'b' => Some(8 as char)
    case 'f' => Some(12 as char)
    case 'n' => Some('\n')
    case 'r' => Some('\r')
    case 't' => Some('\t')
    case _ => None
  }

  // One character of a literal and how many characters write it. Characters outside the basic
  // plane may be written as a surrogate pair; a lone surrogate is refused.
  function ReadChar(t: string): (r: Option<(char, nat)>)
    ensures r.Some? ==> 0 < r.value.1 <= |t|
  {
    if t == "" || t[0] == '"' || t[0] as int < 32 then None
    else if t[0] != '\\' then Some((t[0], 1))
    else if |t| < 2 then None
    else if t[1] != 'u' then
      match ShortEscape(t[1])
      case Some(c) => Some((c, 2))
      case None => None
    else
      match CodeUnit(t[2..])
      case None => None
      case Some(u) =>
        if u < 0xD800 || u >= 0xE000 then Some((u as char, 6))
        else if u >= 0xDC00 || |t| < 8 || t[6] != '\\' || t[7] != 'u' then None
        else match CodeUnit(t[8..])
          case Some(v) =>
            if 0xDC00 <= v < 0xE000 then Some(((0x10000 + (u - 0xD800) * 0x400 + (v - 0xDC00)) as char, 12)) else None
          case None => None
  }

  // The text after an opening quote: the value of the literal and what follows its closing quote.
  function ReadLiteral(t: string): Option<(string, string)>
    decreases |t|
  {
    if t != "" && t[0] == '"' then Some(("", t[1..]))
    else match ReadChar(t)
      case None => None
      case Some((c, n)) =>
        match ReadLiteral(t[n..])
        case None => None
        case Some((value, rest)) => Some(([c] + value, rest))
  }

  // --- the round trip ---------------------------------------------------------------------------------

  lemma HexReads(d: nat)
    requires d < 16
    ensures HexValue(Hex(d)) == Some(d)
  {
  }

  lemma UnitReads(n: nat, rest: string)
    requires n < 0x20
    ensures CodeUnit((UnicodeEscape(n) + rest)[2..]) == Some(n)
  {
    var t := (UnicodeEscape(n) + rest)[2..];
    assert t[0] == Hex(n / 4096) && t[1] == Hex(n / 256 % 16) && t[2] == Hex(n / 16 % 16) && t[3] == Hex(n % 16);
    HexReads(n / 4096);
    HexReads(n / 256 % 16);
    HexReads(n / 16 % 16);
    HexReads(n % 16);
  }

  lemma CharReads(c: char, rest: string)
    ensures ReadChar(EscapeChar(c) + rest) == Some((c, |EscapeChar(c)|))
  {
    hide CodeUnit;
    if IsControl(c) {
      UnitReads(c as int, rest);
      assert (c as int) as char == c;
    }
    EscapeStarts(c, rest);
  }

  lemma EscapeStarts(c: char, rest: string)
    ensures var t := EscapeChar(c) + rest;
      && t[0] == EscapeChar(c)[0] && (|EscapeChar(c)| > 1 ==> t[1] == EscapeChar(c)[1])
      && EscapeChar(c)[0] != '"' && !IsControl(EscapeChar(c)[0])
      && (IsControl(c) && c != '\n' && c != '\r' && c != '\t' ==> |EscapeChar(c)| == 6 && t[1] == 'u')
  {
  }

  lemma LiteralStep(c: char, rest: string)
    ensures ReadLiteral(EscapeChar(c) + rest) ==
            match ReadLiteral(rest)
            case None => None
            case Some((value, tail)) => Some(([c] + value, tail))
  {
    hide EscapeChar, ReadChar;
    CharReads(c, rest);
    var t := EscapeChar(c) + rest;
    EscapeStarts(c, rest);
    assert t[|EscapeChar(c)|..] == rest;
  }

  lemma {:induction false} LiteralReads(s: string, rest: string)
    ensures ReadLiteral(Escape(s) + rest) ==
            match ReadLiteral(rest)
            case None => None
            case Some((value, tail)) => Some((s + value, tail))
  {
    hide EscapeChar, ReadLiteral;
    if s == "" {
      assert "" + rest == rest;
      assert forall value: string :: "" + value == value;
    } else {
      var n := |s| - 1;
      LiteralReads(s[..n], EscapeChar(s[n]) + rest);
      LiteralStep(s[n], rest);
      assert Escape(s[..n]) + (EscapeChar(s[n]) + rest) == Escape(s) + rest;
      assert forall value: string :: s[..n] + ([s[n]] + value) == s + value;
    }
  }

  // Every string survives: between its quotes, in front of any text, the escaped form reads
  // back as exactly the string and ends exactly at the closing quote.
  lemma EscapeRoundTrips(s: string, tail: string)
    ensures ReadLiteral(Escape(s) + (['"'] + tail)) == Some((s, tail))
  {
    LiteralReads(s, ['"'] + tail);
    assert (['"'] + tail)[1..] == tail && s + "" == s;
  }

  // And it holds no control character, so a record stays on its line.
  lemma {:induction false} EscapeHasNoControl(s: string)
    ensures forall c | c in Escape(s) :: c as int >= 32
  {
    if s != "" {
      var n := |s| - 1;
      EscapeHasNoControl(s[..n]);
      CharHasNoControl(s[n]);
    }
  }

  lemma CharHasNoControl(c: char)
    ensures forall d | d in EscapeChar(c) :: d as int >= 32
  {
  }
}
