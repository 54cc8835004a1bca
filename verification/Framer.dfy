/** The line framer: bytes arrive in arbitrary reads, complete lines leave in order. */
module Framer {
  import opened Prelude
  import opened Text
  import Utf8

  const NL: byte := 10
  const CR: byte := 13
  const DASH: byte := 45
  const MAX_PARTIAL: nat := 8192

  // --- lines of a byte string ----------------------------------------------------------------

  // What follows the last newline.
  function Tail(s: seq<byte>): seq<byte> {
    if s == [] || s[|s| - 1] == NL then [] else Tail(s[..|s| - 1]) + [s[|s| - 1]]
  }

  // The newline-terminated lines, without their newlines.
  function Lines(s: seq<byte>): seq<seq<byte>> {
    if s == [] then []
    else if s[|s| - 1] == NL then Lines(s[..|s| - 1]) + [Tail(s[..|s| - 1])]
    else Lines(s[..|s| - 1])
  }

  // --- hygiene ---------------------------------------------------------------------------------

  // What is handed on for one line: a trailing CR goes, empty lines, "---" headers and bytes
  // that are not UTF-8 are dropped, the rest is trimmed.
  function Cleaned(line: seq<byte>): Option<string> {
    var l := if line != [] && line[|line| - 1] == CR then line[..|line| - 1] else line;
    if l == [] || [DASH, DASH, DASH] <= l || Utf8.Decode(l).None? || Trim(Utf8.Decode(l).value) == "" then None
    else Some(Trim(Utf8.Decode(l).value))
  }

  lemma CharBytes(c: char)
    ensures var e := Utf8.EncodeChar(c);
      && (c == '-' ==> e == [45]) && (e[0] == 45 ==> c == '-') && (e[|e| - 1] == 13 ==> c == '\r')
      && (c == '\r' ==> e == [13])
  {
  }

  lemma DashBytes(s: string)
    ensures (Utf8.Encode(s) != [] && Utf8.Encode(s)[0] == 45) <==> (s != "" && s[0] == '-')
    ensures s != "" && s[0] == '-' ==> Utf8.Encode(s) == [45] + Utf8.Encode(s[1..])
  {
    hide Utf8.EncodeChar;
    if s != "" { CharBytes(s[0]); }
  }

  lemma MarkBytes(s: string)
    ensures [45, 45, 45] <= Utf8.Encode(s) <==> "---" <= s
  {
    hide Utf8.Encode;
    DashBytes(s);
    assert "---" <= s <==> |s| >= 3 && s[0] == '-' && s[1] == '-' && s[2] == '-';
    var b := Utf8.Encode(s);
    assert [45, 45, 45] <= b <==> |b| >= 3 && b[0] == 45 && b[1] == 45 && b[2] == 45;
    if s != "" && s[0] == '-' {
      DashBytes(s[1..]);
      if |s| > 1 && s[1] == '-' {
        DashBytes(s[1..][1..]);
        assert s[1..][1..] == s[2..] && b == [45] + ([45] + Utf8.Encode(s[2..]));
      }
    }
  }

  // A line of text, with or without a carriage return, is handed on trimmed, unless it is blank
  // or a section mark.
  lemma CleanedIs(gap: string, text: string, behind: string, cr: bool)
    requires AllSpace(gap) && AllSpace(behind) && Bare(text, IsSpace)
    requires var s := gap + (text + behind); cr || s == "" || s[|s| - 1] != '\r'
    ensures var s := gap + (text + behind);
      Cleaned(Utf8.Encode(s) + if cr then [13] else []) == if text == "" || "---" <= s then None else Some(text)
  {
    hide Utf8.EncodeChar, Utf8.Encode, Utf8.Decode, StripLeft, StripRight, IsSpace;
    var s := gap + (text + behind);
    var b := Utf8.Encode(s);
    PadsTrim(gap, text, behind);
    MarkBytes(s);
    Utf8.EncodedDecodes(s);
    NothingEncodes();
    if cr {
      assert (b + [13])[..|b|] == b;
    } else {
      assert b + [] == b;
      if s != "" {
        Utf8.Ends(s);
        CharBytes(s[|s| - 1]);
      }
    }
  }

  lemma NothingEncodes()
    ensures Utf8.Encode("") == [] && Utf8.Decode([]) == Some("")
  {
  }

  // Nothing but text is handed on.
  lemma CleanedIsText(line: seq<byte>)
    requires Cleaned(line).Some?
    ensures exists s :: line == Utf8.Encode(s) || line == Utf8.Encode(s) + [13]
  {
    var l := if line != [] && line[|line| - 1] == CR then line[..|line| - 1] else line;
    Utf8.DecodedEncodes(l);
    assert l != line ==> line == l + [13];
  }

  function Delivered(lines: seq<seq<byte>>): seq<string> {
    if lines == [] then []
    else
      var c := Cleaned(lines[|lines| - 1]);
      Delivered(lines[..|lines| - 1]) + (if c.Some? then [c.value] else [])
  }

  // --- one read -----------------------------------------------------------------------------------

  // The bytes kept for the next read: an unterminated line, unless it has grown too long.
  function Kept(b: seq<byte>): seq<byte> { if NL !in b && |b| > MAX_PARTIAL then [] else Tail(b) }

  lemma SuffixSnoc(s: seq<byte>, k: nat)
    requires s != [] && k < |s|
    ensures s[k..] == s[..|s| - 1][k..] + [s[|s| - 1]]
  {
  }

  lemma NewlineSnoc(s: seq<byte>)
    requires s != []
    ensures NL in s <==> NL in s[..|s| - 1] || s[|s| - 1] == NL
  {
    assert s == s[..|s| - 1] + [s[|s| - 1]];
  }

  lemma {:induction false} TailIs(s: seq<byte>)
    ensures NL !in Tail(s) && |Tail(s)| <= |s| && Tail(s) == s[|s| - |Tail(s)|..]
    ensures (Lines(s) == [] <==> NL !in s) && (NL !in s ==> Tail(s) == s) && (NL in s ==> |Tail(s)| < |s|)
  {
    if s != [] {
      var n := |s| - 1;
      TailIs(s[..n]);
      NewlineSnoc(s);
      SuffixSnoc(s, n - |Tail(s[..n])|);
      if NL !in s { assert s == s[..n] + [s[n]]; }
    }
  }

  lemma NextByte(b: seq<byte>, i: nat)
    requires i < |b|
    ensures Tail(b[..i + 1]) == if b[i] == NL then [] else Tail(b[..i]) + [b[i]]
    ensures Lines(b[..i + 1]) == if b[i] == NL then Lines(b[..i]) + [Tail(b[..i])] else Lines(b[..i])
  {
    assert b[..i + 1][..i] == b[..i];
  }

  lemma DeliveredLast(lines: seq<seq<byte>>, last: seq<byte>)
    ensures Delivered(lines + [last]) ==
            Delivered(lines) + (if Cleaned(last).Some? then [Cleaned(last).value] else [])
  {
    assert (lines + [last])[..|lines|] == lines;
  }

  lemma Nothing()
    ensures Tail([]) == [] && Lines([]) == [] && Delivered([]) == []
  {
  }

  lemma OneMore(b: seq<byte>, from: nat, i: nat)
    requires from <= i < |b|
    ensures NL in b[..i + 1] <==> NL in b[..i] || b[i] == NL
    ensures b[from..i + 1] == b[from..i] + [b[i]] && b[i + 1..i + 1] == []
  {
    assert b[..i + 1] == b[..i] + [b[i]];
  }

  class LineFramer {
    var buf: seq<byte>

    constructor ()
      ensures buf == []
    {
      buf := [];
    }

    // drain_logcat_lines; the lines handed to the callback are returned in order.
    method Drain(incoming: seq<byte>) returns (handed: seq<string>)
      modifies this
      ensures handed == Delivered(Lines(old(buf) + incoming))
      ensures buf == Kept(old(buf) + incoming)
    {
      hide Cleaned, Trim, Tail, Lines, Delivered;
      buf := buf + incoming;
      Nothing();
      var b := buf;
      var lastNewline := 0;
      handed := [];
      for i := 0 to |b|
        invariant lastNewline <= i && buf == b
        invariant b[lastNewline..i] == Tail(b[..i])
        invariant handed == Delivered(Lines(b[..i]))
        invariant lastNewline > 0 <==> NL in b[..i]
      {
        NextByte(b, i);
        OneMore(b, lastNewline, i);
        if b[i] == NL {
          var line := b[lastNewline..i];
          DeliveredLast(Lines(b[..i]), line);
          var text := Clean(line);
          if text.Some? { handed := handed + [text.value]; }
          lastNewline := i + 1;
        }
      }
      assert b[..|b|] == b;
      TailIs(b);
      if lastNewline > 0 {
        buf := buf[lastNewline..];
      } else if |buf| > MAX_PARTIAL {
        buf := [];
      }
    }

    method Clean(line: seq<byte>) returns (r: Option<string>)
      ensures r == Cleaned(line)
    {
      r := None;
      var l := line;
      if l != [] && l[|l| - 1] == CR { l := l[..|l| - 1]; }
      if l != [] && !([DASH, DASH, DASH] <= l) {
        var text := Utf8.Decode(l);
        if text.Some? && Trim(text.value) != "" { r := Some(Trim(text.value)); }
      }
    }
  }

  // --- a sequence of reads -----------------------------------------------------------------------

  function Joined(chunks: seq<seq<byte>>): seq<byte> {
    if chunks == [] then [] else Joined(chunks[..|chunks| - 1]) + chunks[|chunks| - 1]
  }

  // Buffer and raw lines after a sequence of reads.
  function Buffer(chunks: seq<seq<byte>>): seq<byte> {
    if chunks == [] then [] else Kept(Buffer(chunks[..|chunks| - 1]) + chunks[|chunks| - 1])
  }

  function Framed(chunks: seq<seq<byte>>): seq<seq<byte>> {
    if chunks == [] then []
    else
      var n := |chunks| - 1;
      Framed(chunks[..n]) + Lines(Buffer(chunks[..n]) + chunks[n])
  }

  predicate IsSuffix(x: seq<byte>, y: seq<byte>) { |x| <= |y| && x == y[|y| - |x|..] }

  lemma EndsInByte(a: seq<byte>, b: seq<byte>)
    requires b != []
    ensures var n := |b| - 1; var s := a + b[..n];
      && Tail(a + b) == (if b[n] == NL then [] else Tail(s) + [b[n]])
      && Lines(a + b) == if b[n] == NL then Lines(s) + [Tail(s)] else Lines(s)
  {
    assert (a + b)[..|a + b| - 1] == a + b[..|b| - 1];
  }

  // Lines of a whole string, from the tail of its first part on.
  lemma {:induction false} LinesOfConcat(a: seq<byte>, b: seq<byte>)
    ensures Lines(a + b) == Lines(a) + Lines(Tail(a) + b)
    ensures Tail(a + b) == Tail(Tail(a) + b)
  {
    hide Lines, Tail;
    if b == [] {
      TailIs(a);
      TailIs(Tail(a));
      assert a + b == a && Tail(a) + b == Tail(a);
    } else {
      LinesOfConcat(a, b[..|b| - 1]);
      EndsInByte(a, b);
      EndsInByte(Tail(a), b);
    }
  }

  // Line for line the same, but for the first, which may have lost its beginning.
  predicate Shadows(xs: seq<seq<byte>>, ys: seq<seq<byte>>) {
    |xs| == |ys| && (xs != [] ==> IsSuffix(xs[0], ys[0]) && xs[1..] == ys[1..])
  }

  lemma SuffixFacts(x: seq<byte>, y: seq<byte>, c: seq<byte>)
    requires IsSuffix(x, y)
    ensures IsSuffix(x + c, y + c) && IsSuffix([], y + c) && IsSuffix(c, c) && |x| <= |y|
    ensures 10 !in y ==> 10 !in x
  {
    assert forall i | 0 <= i < |x| :: x[i] == y[|y| - |x| + i];
    var w, z := x + c, y + c;
    assert forall i | 0 <= i < |w| :: w[i] == z[|z| - |w| + i];
  }

  lemma ShadowsGrow(xs: seq<seq<byte>>, ys: seq<seq<byte>>, x: seq<byte>, y: seq<byte>)
    requires Shadows(xs, ys) && IsSuffix(x, y) && (ys != [] ==> x == y)
    ensures Shadows(xs + [x], ys + [y])
  {
  }

  lemma JoinLast(x: seq<byte>, b: seq<byte>)
    requires b != []
    ensures x + b[..|b| - 1] + [b[|b| - 1]] == x + b
  {
  }

  lemma {:induction false} SuffixShadows(x: seq<byte>, y: seq<byte>, b: seq<byte>)
    requires 10 !in y && IsSuffix(x, y)
    ensures Shadows(Lines(x + b), Lines(y + b)) && IsSuffix(Tail(x + b), Tail(y + b))
    ensures 10 in b ==> Lines(y + b) != [] && |y| <= |Lines(y + b)[0]| && Tail(x + b) == Tail(y + b)
    ensures 10 !in b ==> Lines(y + b) == [] && Tail(x + b) == x + b && Tail(y + b) == y + b
  {
    hide Lines, Tail, Shadows, IsSuffix;
    SuffixFacts(x, y, []);
    if b == [] {
      NoLines(x);
      NoLines(y);
      assert x + b == x && y + b == y;
    } else {
      var front := b[..|b| - 1];
      SuffixShadows(x, y, front);
      NewlineSnoc(b);
      JoinLast(x, b);
      JoinLast(y, b);
      EndsInByte(x, b);
      EndsInByte(y, b);
      ShadowsGrow(Lines(x + front), Lines(y + front), Tail(x + front), Tail(y + front));
      SuffixFacts(Tail(x + front), Tail(y + front), [b[|b| - 1]]);
    }
  }

  lemma NoLines(y: seq<byte>)
    requires 10 !in y
    ensures Lines(y) == [] && Tail(y) == y && Shadows([], [])
  {
    TailIs(y);
  }

  // The buffer is the unterminated tail of the stream, or what is left of one that grew past
  // the limit.
  predicate Tracks(buf: seq<byte>, tail: seq<byte>) {
    IsSuffix(buf, tail) && (|tail| <= 8192 ==> buf == tail)
  }

  // Every line of the stream yields exactly one framed line, in order: itself if it fits the
  // limit, a suffix of itself otherwise.
  predicate Faithful(framed: seq<seq<byte>>, lines: seq<seq<byte>>) {
    && |framed| == |lines|
    && forall i | 0 <= i < |lines| :: Tracks(framed[i], lines[i])
  }

  lemma KeptTracks(buf: seq<byte>, tail: seq<byte>, chunk: seq<byte>)
    requires Tracks(buf, tail) && 10 !in tail
    ensures Tracks(Kept(buf + chunk), Tail(tail + chunk))
  {
    hide Tail, Lines, Shadows, IsSuffix;
    SuffixShadows(buf, tail, chunk);
    SuffixFacts(buf, tail, chunk);
    SuffixFacts(buf, tail, Tail(tail + chunk));
    TailIs(buf + chunk);
  }

  lemma LinesTrack(buf: seq<byte>, tail: seq<byte>, chunk: seq<byte>)
    requires Tracks(buf, tail) && 10 !in tail
    ensures Faithful(Lines(buf + chunk), Lines(tail + chunk))
  {
    hide Tail, Lines, Shadows, Faithful;
    SuffixShadows(buf, tail, chunk);
    ShadowsAreFaithful(Lines(buf + chunk), Lines(tail + chunk), |tail| <= 8192);
  }

  lemma ReadTracks(buf: seq<byte>, stream: seq<byte>, chunk: seq<byte>)
    requires Tracks(buf, Tail(stream))
    ensures Tracks(Kept(buf + chunk), Tail(stream + chunk))
    ensures Faithful(Lines(buf + chunk), Lines(Tail(stream) + chunk))
  {
    hide Tail, Lines, Kept, Faithful, Tracks;
    TailIs(stream);
    LinesOfConcat(stream, chunk);
    KeptTracks(buf, Tail(stream), chunk);
    LinesTrack(buf, Tail(stream), chunk);
  }

  lemma ShadowsAreFaithful(xs: seq<seq<byte>>, ys: seq<seq<byte>>, same: bool)
    requires Shadows(xs, ys) && (same ==> xs == ys)
    requires !same ==> ys != [] ==> |ys[0]| > 8192
    ensures Faithful(xs, ys)
  {
    forall i | 0 <= i < |ys| ensures Tracks(xs[i], ys[i]) {
      if i > 0 { assert xs[i] == xs[1..][i - 1] && ys[i] == ys[1..][i - 1]; }
    }
  }

  lemma FaithfulAppend(a: seq<seq<byte>>, b: seq<seq<byte>>, x: seq<seq<byte>>, y: seq<seq<byte>>)
    requires Faithful(a, b) && Faithful(x, y)
    ensures Faithful(a + x, b + y)
  {
  }

  // However a stream is split into reads, framing is faithful to its lines.
  lemma {:induction false} FramingIsFaithful(chunks: seq<seq<byte>>)
    ensures Faithful(Framed(chunks), Lines(Joined(chunks)))
    ensures Tracks(Buffer(chunks), Tail(Joined(chunks)))
  {
    if chunks != [] {
      var n := |chunks| - 1;
      var stream, buf := Joined(chunks[..n]), Buffer(chunks[..n]);
      FramingIsFaithful(chunks[..n]);
      ReadTracks(buf, stream, chunks[n]);
      LinesOfConcat(stream, chunks[n]);
      FaithfulAppend(Framed(chunks[..n]), Lines(stream), Lines(buf + chunks[n]), Lines(Tail(stream) + chunks[n]));
    }
  }

  lemma KeptIsBounded(buf: seq<byte>, chunk: seq<byte>)
    requires 10 !in buf && |chunk| <= 8193
    ensures 10 !in Kept(buf + chunk) && |Kept(buf + chunk)| <= 8192
  {
    hide Tail, Lines, Shadows;
    TailIs(buf + chunk);
    SuffixShadows([], buf, chunk);
    TailIs(chunk);
    assert [] + chunk == chunk;
    assert 10 in buf + chunk <==> 10 in chunk;
  }

  // The buffer never holds a newline, and with reads of at most 8193 bytes (the daemon reads
  // 4096) never more than the limit.
  lemma {:induction false} BufferIsBounded(chunks: seq<seq<byte>>)
    requires forall c | c in chunks :: |c| <= 8193
    ensures 10 !in Buffer(chunks) && |Buffer(chunks)| <= 8192
  {
    if chunks != [] {
      var n := |chunks| - 1;
      assert chunks[n] in chunks;
      BufferIsBounded(chunks[..n]);
      KeptIsBounded(Buffer(chunks[..n]), chunks[n]);
    }
  }

  lemma FaithfulShort(framed: seq<seq<byte>>, lines: seq<seq<byte>>)
    requires Faithful(framed, lines) && forall l | l in lines :: |l| <= 8192
    ensures framed == lines
  {
    forall i | 0 <= i < |lines| ensures framed[i] == lines[i] { assert lines[i] in lines; }
  }

  // Two ways of splitting one stream whose lines fit the limit hand on the same text lines.
  lemma ChunkingIsInvisible(a: seq<seq<byte>>, b: seq<seq<byte>>)
    requires Joined(a) == Joined(b) && forall l | l in Lines(Joined(a)) :: |l| <= 8192
    ensures Delivered(Framed(a)) == Delivered(Framed(b)) == Delivered(Lines(Joined(a)))
  {
    FramingIsFaithful(a);
    FramingIsFaithful(b);
    FaithfulShort(Framed(a), Lines(Joined(a)));
    FaithfulShort(Framed(b), Lines(Joined(b)));
  }

  lemma OneRead(c: seq<byte>)
    ensures Joined([c]) == c && Buffer([c]) == Kept(c) && Framed([c]) == Lines(c)
  {
    assert [c][..0] == [] && [] + c == c;
  }

  lemma TwoReads(c: seq<byte>, d: seq<byte>)
    ensures Joined([c, d]) == c + d && Framed([c, d]) == Lines(c) + Lines(Kept(c) + d)
  {
    hide Kept, Lines;
    OneRead(c);
    assert [c, d][..1] == [c];
  }

  lemma LineOf(x: seq<byte>)
    requires 10 !in x
    ensures Lines(x + [10]) == [x]
  {
    TailIs(x);
    assert (x + [10])[..|x|] == x;
  }

  // The limit is sharp: a longer line arrives whole or not at all, depending on the reads.
  lemma LongLinesDependOnReads(x: seq<byte>)
    requires 10 !in x && |x| > 8192
    ensures Joined([x + [10]]) == Joined([x, [10]])
    ensures Framed([x + [10]]) == [x] && Framed([x, [10]]) == [[]]
  {
    hide Lines, Joined, Framed;
    OneRead(x + [10]);
    TwoReads(x, [10]);
    TailIs(x);
    LineOf(x);
    LineOf([]);
  }
}
