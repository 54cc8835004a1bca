/** UTF-8 after section 4 of RFC 3629: what the daemon's line decoder accepts. */
module Utf8 {
  import opened Prelude

  // --- encoding --------------------------------------------------------------------------------

  function EncodeChar(c: char): (b: seq<byte>)
    ensures 0 < |b| <= 4
  {
    var u := c as int;
    if u < 0x80 then [u]
    else if u < 0x800 then [0xC0 + u / 64, 0x80 + u % 64]
    else if u < 0x10000 then [0xE0 + u / 64 / 64, 0x80 + u / 64 % 64, 0x80 + u % 64]
    else [0xF0 + u / 64 / 64 / 64, 0x80 + u / 64 / 64 % 64, 0x80 + u / 64 % 64, 0x80 + u % 64]
  }

  function Encode(s: string): seq<byte> { if s == "" then [] else EncodeChar(s[0]) + Encode(s[1..]) }

  // --- decoding --------------------------------------------------------------------------------

  predicate IsTail(b: byte) { 0x80 <= b < 0xC0 }

  // The second byte a three- or four-byte sequence may have: no overlong form, no surrogate,
  // nothing past the last plane.
  predicate SecondFits(b0: byte, b1: byte) {
    && IsTail(b1)
    && (b0 == 0xE0 ==> b1 >= 0xA0) && (b0 == 0xED ==> b1 < 0xA0)
    && (b0 == 0xF0 ==> b1 >= 0x90) && (b0 == 0xF4 ==> b1 < 0x90)
  }

  // Six more bits.
  function Shifted(high: int, tail: int): int { high * 64 + (tail - 0x80) }

  // The first character of a byte string and the length of its form.
  function DecodeChar(b: seq<byte>): (r: Option<(char, nat)>)
    ensures r.Some? ==> 0 < r.value.1 <= |b|
  {
    if b == [] then None
    else
      var lead: int := b[0];
      if lead < 0x80 then Some((lead as char, 1))
      else if 0xC2 <= lead < 0xE0 then
        if |b| < 2 || !IsTail(b[1]) then None else Some((Shifted(lead - 0xC0, b[1]) as char, 2))
      else if 0xE0 <= lead < 0xF0 then
        if |b| < 3 || !SecondFits(b[0], b[1]) || !IsTail(b[2]) then None
        else Some((Shifted(Shifted(lead - 0xE0, b[1]), b[2]) as char, 3))
      else if 0xF0 <= lead <= 0xF4 then
        if |b| < 4 || !SecondFits(b[0], b[1]) || !IsTail(b[2]) || !IsTail(b[3]) then None
        else Some((Shifted(Shifted(Shifted(lead - 0xF0, b[1]), b[2]), b[3]) as char, 4))
      else None
  }

  // std::str::from_utf8
  function Decode(b: seq<byte>): Option<string>
    decreases |b|
  {
    if b == [] then Some("")
    else match DecodeChar(b)
      case None => None
      case Some((c, n)) =>
        match Decode(b[n..])
        case None => None
        case Some(s) => Some([c] + s)
  }

  // --- the two are inverse ------------------------------------------------------------------------

  lemma ShiftedParts(high: int, tail: int)
    requires 0 <= high && 0x80 <= tail < 0xC0
    ensures Shifted(high, tail) / 64 == high && 0x80 + Shifted(high, tail) % 64 == tail
  {
  }

  lemma PartsShifted(u: int)
    requires 0 <= u
    ensures Shifted(u / 64, 0x80 + u % 64) == u && 0x80 <= 0x80 + u % 64 < 0xC0
  {
  }

  lemma CharDecodes(c: char, rest: seq<byte>)
    ensures DecodeChar(EncodeChar(c) + rest) == Some((c, |EncodeChar(c)|))
  {
    hide Shifted;
    var u, e := c as int, EncodeChar(c);
    assert forall i | 0 <= i < |e| :: (e + rest)[i] == e[i];
    PartsShifted(u);
    PartsShifted(u / 64);
    PartsShifted(u / 64 / 64);
    assert u as char == c;
  }

  lemma CharEncodes(b: seq<byte>)
    requires DecodeChar(b).Some?
    ensures var (c, n) := DecodeChar(b).value; EncodeChar(c) == b[..n]
  {
    var (c, n) := DecodeChar(b).value;
    if n == 2 {
      ShiftedParts(b[0] - 0xC0, b[1]);
    } else if n == 3 {
      ShiftedParts(b[0] as int - 0xE0, b[1]);
      ShiftedParts(Shifted(b[0] as int - 0xE0, b[1]), b[2]);
    } else if n == 4 {
      var x := Shifted(b[0] as int - 0xF0, b[1]);
      ShiftedParts(b[0] as int - 0xF0, b[1]);
      ShiftedParts(x, b[2]);
      ShiftedParts(Shifted(x, b[2]), b[3]);
    }
  }

  lemma {:induction false} EncodedDecodes(s: string)
    ensures Decode(Encode(s)) == Some(s)
  {
    hide EncodeChar, DecodeChar;
    if s != "" {
      var e, rest := EncodeChar(s[0]), Encode(s[1..]);
      EncodedDecodes(s[1..]);
      CharDecodes(s[0], rest);
      assert (e + rest)[|e|..] == rest;
      assert [s[0]] + s[1..] == s;
    }
  }

  lemma {:induction false} DecodedEncodes(b: seq<byte>)
    requires Decode(b).Some?
    ensures Encode(Decode(b).value) == b
    decreases |b|
  {
    hide EncodeChar, DecodeChar;
    if b != [] {
      var (c, n) := DecodeChar(b).value;
      DecodedEncodes(b[n..]);
      CharEncodes(b);
      var s := Decode(b[n..]).value;
      assert ([c] + s)[1..] == s && b[..n] + b[n..] == b;
    }
  }

  // The decoder accepts exactly the encodings, and gives back what was encoded.
  lemma DecodeIff(b: seq<byte>, s: string)
    ensures Decode(b) == Some(s) <==> Encode(s) == b
  {
    EncodedDecodes(s);
    if Decode(b).Some? { DecodedEncodes(b); }
  }

  // --- bytes below 128 are characters of their own -----------------------------------------------

  lemma AsciiBytes(c: char, b: byte)
    requires b in EncodeChar(c) && b < 0x80
    ensures c as int == b
  {
  }

  lemma {:induction false} AsciiInside(s: string, b: byte)
    requires b in Encode(s) && b < 0x80
    ensures b as char in s
  {
    hide EncodeChar;
    var e, rest := EncodeChar(s[0]), Encode(s[1..]);
    if b in e { AsciiBytes(s[0], b); } else { AsciiInside(s[1..], b); }
  }

  lemma {:induction false} Ends(s: string)
    requires s != ""
    ensures var b := Encode(s); var e := EncodeChar(s[|s| - 1]);
      b != [] && b[0] == EncodeChar(s[0])[0] && b[|b| - 1] == e[|e| - 1]
  {
    hide EncodeChar;
    if |s| > 1 {
      Ends(s[1..]);
      assert s[1..][|s| - 2] == s[|s| - 1];
    } else {
      assert Encode(s[1..]) == [] && EncodeChar(s[0]) + [] == EncodeChar(s[0]);
    }
  }
}
