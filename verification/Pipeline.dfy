/** From raw bytes to engine state: framer, parser and engine together. */
module Pipeline {
  import opened Prelude
  import opened Text
  import opened Framer
  import opened Parser
  import opened ParserLaws
  import opened Engine
  import opened StepShape
  import opened Telemetry
  import opened TelemetryLaws
  import Daemon
  import Utf8

  // --- feeding text lines ------------------------------------------------------------------------

  function FeedLine(s: State, line: string, alpha: char -> bool, o: Answers): State {
    match ParseLine(line, alpha)
    case Some((ts, e)) => Step(s, Line(ts, e), o)
    case None => s
  }

  // Line number n is answered by world(n).
  function Feed(s: State, lines: seq<string>, alpha: char -> bool, world: nat -> Answers, from: nat): State {
    if lines == [] then s
    else
      var n := |lines| - 1;
      FeedLine(Feed(s, lines[..n], alpha, world, from), lines[n], alpha, world(from + n))
  }

  // One read of the logcat pipe: frame the bytes, dispatch every complete line.
  method OnRead(framer: LineFramer, daemon: Daemon.DaemonState, incoming: seq<byte>, alpha: char -> bool,
                world: nat -> Answers, from: nat)
    returns (upto: nat)
    requires forall n :: Sound(world(n))
    modifies framer, daemon
    ensures var lines := Delivered(Lines(old(framer.buf) + incoming));
      && framer.buf == Kept(old(framer.buf) + incoming)
      && daemon.View() == Feed(old(daemon.View()), lines, alpha, world, from) && upto == from + |lines|
  {
    hide Lines, Delivered, Kept, FeedLine, Feed, Sound, Step, ParseLine;
    var lines := framer.Drain(incoming);
    ghost var kept, start := framer.buf, daemon.View();
    FeedNone(start, alpha, world, from);
    for i := 0 to |lines|
      invariant framer.buf == kept
      invariant daemon.View() == Feed(start, lines[..i], alpha, world, from)
    {
      FeedNext(start, lines, i, alpha, world, from);
      daemon.DispatchLogcatLine(lines[i], alpha, world(from + i));
    }
    assert lines[..|lines|] == lines;
    upto := from + |lines|;
  }

  // Any number of reads: the daemon has then seen exactly the lines of all of them together.
  method OnReads(framer: LineFramer, daemon: Daemon.DaemonState, chunks: seq<seq<byte>>, alpha: char -> bool,
                 world: nat -> Answers)
    requires framer.buf == [] && forall n :: Sound(world(n))
    modifies framer, daemon
    ensures framer.buf == Buffer(chunks)
    ensures daemon.View() == Feed(old(daemon.View()), Delivered(Framed(chunks)), alpha, world, 0)
  {
    hide Lines, Delivered, Kept, Feed, Sound, Framed, Buffer;
    ghost var start := daemon.View();
    var from := 0;
    NoReads(start, alpha, world);
    for i := 0 to |chunks|
      invariant framer.buf == Buffer(chunks[..i]) && from == |Delivered(Framed(chunks[..i]))|
      invariant daemon.View() == Feed(start, Delivered(Framed(chunks[..i])), alpha, world, 0)
    {
      NextRead(start, chunks, i, alpha, world);
      from := OnRead(framer, daemon, chunks[i], alpha, world, from);
    }
    assert chunks[..|chunks|] == chunks;
  }

  lemma NoReads(s: State, alpha: char -> bool, world: nat -> Answers)
    ensures Buffer([]) == [] && Delivered(Framed([])) == [] && Feed(s, [], alpha, world, 0) == s
  {
  }

  lemma NextRead(s: State, chunks: seq<seq<byte>>, i: nat, alpha: char -> bool, world: nat -> Answers)
    requires i < |chunks|
    ensures var a := Delivered(Framed(chunks[..i])); var b := Delivered(Lines(Buffer(chunks[..i]) + chunks[i]));
      && Buffer(chunks[..i + 1]) == Kept(Buffer(chunks[..i]) + chunks[i])
      && Delivered(Framed(chunks[..i + 1])) == a + b
      && Feed(s, a + b, alpha, world, 0) == Feed(Feed(s, a, alpha, world, 0), b, alpha, world, |a|)
  {
    hide Lines, Delivered, Kept, Feed;
    assert chunks[..i + 1][..i] == chunks[..i];
    DeliveredConcat(Framed(chunks[..i]), Lines(Buffer(chunks[..i]) + chunks[i]));
    FeedConcat(s, Delivered(Framed(chunks[..i])), Delivered(Lines(Buffer(chunks[..i]) + chunks[i])), alpha, world, 0);
  }

  lemma {:induction false} DeliveredConcat(a: seq<seq<byte>>, b: seq<seq<byte>>)
    ensures Delivered(a + b) == Delivered(a) + Delivered(b)
  {
    hide Cleaned;
    if b == [] {
      assert a + b == a && Delivered(a) + [] == Delivered(a);
    } else {
      var n := |b| - 1;
      DeliveredConcat(a, b[..n]);
      assert a + b == a + b[..n] + [b[n]] && b == b[..n] + [b[n]];
      DeliveredLast(a + b[..n], b[n]);
      DeliveredLast(b[..n], b[n]);
    }
  }

  lemma {:induction false} FeedConcat(s: State, a: seq<string>, b: seq<string>, alpha: char -> bool,
                                      world: nat -> Answers, from: nat)
    ensures Feed(s, a + b, alpha, world, from) == Feed(Feed(s, a, alpha, world, from), b, alpha, world, from + |a|)
  {
    hide FeedLine;
    if b == [] {
      assert a + b == a;
    } else {
      var n := |b| - 1;
      FeedConcat(s, a, b[..n], alpha, world, from);
      assert (a + b)[..|a + b| - 1] == a + b[..n];
    }
  }

  lemma FeedNone(s: State, alpha: char -> bool, world: nat -> Answers, from: nat)
    ensures Feed(s, [], alpha, world, from) == s
  {
  }

  lemma FeedNext(s: State, lines: seq<string>, i: nat, alpha: char -> bool, world: nat -> Answers, from: nat)
    requires i < |lines|
    ensures Feed(s, lines[..i + 1], alpha, world, from) ==
            var t := Feed(s, lines[..i], alpha, world, from);
            match ParseLine(lines[i], alpha)
            case Some((ts, e)) => Step(t, Line(ts, e), world(from + i))
            case None => t
  {
    hide ParseLine, Step;
    assert lines[..i + 1][..i] == lines[..i];
  }

  // --- a stream of printed events and other lines -----------------------------------------------------

  // A line of the log stream: an event as it is printed, or bytes that yield none.
  datatype Item = Printed(ts: u64, event: Event, around: Surroundings) | Noise(line: seq<byte>)

  function TextOf(item: Item): string
    requires item.Printed?
  {
    Print(item.ts, item.event, item.around)
  }

  function BytesOf(item: Item): seq<byte> {
    match item
    case Printed(_, _, _) => Utf8.Encode(TextOf(item))
    case Noise(line) => line
  }

  // Buffer headers, text of other tags, broken payloads, bytes that are not UTF-8.
  predicate YieldsNothing(line: seq<byte>, alpha: char -> bool) {
    Cleaned(line).Some? ==> ParseLine(Cleaned(line).value, alpha).None?
  }

  ghost predicate Streamable(item: Item, alpha: char -> bool) {
    && |BytesOf(item)| <= 8192
    && match item
       case Printed(_, event, around) => Printable(event, around) && '\n' !in TextOf(item)
       case Noise(line) => 10 !in line && YieldsNothing(line, alpha)
  }

  ghost predicate AllStreamable(items: seq<Item>, alpha: char -> bool) {
    forall item | item in items :: Streamable(item, alpha)
  }

  function Stream(items: seq<Item>): seq<byte> {
    if items == [] then [] else Stream(items[..|items| - 1]) + (BytesOf(items[|items| - 1]) + [10])
  }

  function LinesIn(items: seq<Item>): seq<seq<byte>> {
    if items == [] then [] else LinesIn(items[..|items| - 1]) + [BytesOf(items[|items| - 1])]
  }

  // Lines handed on so far: they number the answers.
  function Handed(items: seq<Item>): nat {
    if items == [] then 0
    else
      var item := items[|items| - 1];
      Handed(items[..|items| - 1]) + if item.Printed? || Cleaned(item.line).Some? then 1 else 0
  }

  // The run of the printed events.
  function Happened(items: seq<Item>, world: nat -> Answers): seq<Happening> {
    if items == [] then []
    else
      var front, item := items[..|items| - 1], items[|items| - 1];
      Happened(front, world)
      + if item.Printed? then [Happening(Line(item.ts, item.event), world(Handed(front)))] else []
  }

  lemma PrintedText(item: Item)
    requires item.Printed? && Printable(item.event, item.around)
    ensures var t := TextOf(item); t != "" && IsDigit(t[0]) && !IsSpace(t[|t| - 1]) && Trim(t) == t
  {
    hide LineText, Header, PayloadOf, TagOf, ColumnsText, IsGap;
    var x := item.around;
    TagsAreText(item.event, x);
    PrintedShape(item.event, x);
    HeaderSplits(item.ts, x.columns, x.gap, TagOf(item.event, x));
    LineEnds(Header(item.ts, x.columns, x.gap, TagOf(item.event, x)), PayloadOf(item.event, x));
    BareStays(TextOf(item), IsSpace);
  }

  lemma LineEnds(header: string, payload: string)
    requires header != "" && payload != ""
    ensures var t := LineText(header, payload); t != "" && t[0] == header[0] && t[|t| - 1] == payload[|payload| - 1]
  {
  }

  // The hygiene filter leaves a printed line alone.
  lemma PrintedIsClean(item: Item)
    requires item.Printed? && Printable(item.event, item.around)
    ensures Cleaned(BytesOf(item)) == Some(TextOf(item))
  {
    hide TextOf, Trim, Printable, Cleaned, Utf8.Encode;
    PrintedText(item);
    var t := TextOf(item);
    CleanedIs("", t, "", false);
    assert "" + (t + "") == t && Utf8.Encode(t) + [] == Utf8.Encode(t);
  }

  lemma ItemHasNoNewline(item: Item, alpha: char -> bool)
    requires Streamable(item, alpha)
    ensures 10 !in BytesOf(item)
  {
    hide TextOf, Printable, YieldsNothing;
    if item.Printed? && 10 in BytesOf(item) { Utf8.AsciiInside(TextOf(item), 10); }
  }

  lemma OneLine(b: seq<byte>, before: seq<byte>)
    requires 10 !in b && Tail(before) == []
    ensures Lines(before + (b + [10])) == Lines(before) + [b] && Tail(before + (b + [10])) == []
  {
    hide Lines, Tail;
    LinesOfConcat(before, b + [10]);
    assert [] + (b + [10]) == b + [10];
    LineOf(b);
    EndedLine(b);
  }

  lemma EndedLine(b: seq<byte>)
    ensures Tail(b + [10]) == []
  {
  }

  lemma {:induction false} StreamLines(items: seq<Item>, alpha: char -> bool)
    requires AllStreamable(items, alpha)
    ensures Tail(Stream(items)) == []
    ensures Lines(Stream(items)) == LinesIn(items) && forall l | l in LinesIn(items) :: |l| <= 8192
  {
    hide BytesOf, Lines, Tail;
    if items == [] {
      NoLines([]);
    } else {
      var n := |items| - 1;
      assert items[n] in items && forall item | item in items[..n] :: item in items;
      StreamLines(items[..n], alpha);
      ItemHasNoNewline(items[n], alpha);
      OneLine(BytesOf(items[n]), Stream(items[..n]));
    }
  }

  lemma FeedLast(s: State, lines: seq<string>, last: string, alpha: char -> bool, world: nat -> Answers)
    ensures Feed(s, lines + [last], alpha, world, 0) ==
            FeedLine(Feed(s, lines, alpha, world, 0), last, alpha, world(|lines|))
  {
    hide FeedLine;
    assert (lines + [last])[..|lines|] == lines;
  }

  // What one more line does.
  lemma ItemFeeds(s: State, front: seq<string>, run: seq<Happening>, item: Item, alpha: char -> bool,
                  world: nat -> Answers)
    requires Streamable(item, alpha) && Feed(s, front, alpha, world, 0) == Run(s, run)
    ensures item.Printed? ==>
      && Cleaned(BytesOf(item)) == Some(TextOf(item))
      && Feed(s, front + [TextOf(item)], alpha, world, 0)
         == Run(s, run + [Happening(Line(item.ts, item.event), world(|front|))])
    ensures item.Noise? && Cleaned(item.line).Some? ==>
      Feed(s, front + [Cleaned(item.line).value], alpha, world, 0) == Run(s, run)
  {
    hide Feed, Run, ParseLine, Step, Cleaned, BytesOf, Printable, Print;
    if item.Printed? {
      PrintedIsClean(item);
      ParseInvertsPrint(item.ts, item.event, item.around, alpha);
      FeedLast(s, front, TextOf(item), alpha, world);
      RunLast(s, run, Happening(Line(item.ts, item.event), world(|front|)));
    } else if Cleaned(item.line).Some? {
      FeedLast(s, front, Cleaned(item.line).value, alpha, world);
    }
  }

  lemma {:induction false} ItemsFeed(s: State, items: seq<Item>, alpha: char -> bool, world: nat -> Answers)
    requires AllStreamable(items, alpha)
    ensures |Delivered(LinesIn(items))| == Handed(items)
    ensures Feed(s, Delivered(LinesIn(items)), alpha, world, 0) == Run(s, Happened(items, world))
  {
    hide Feed, Run, Cleaned, BytesOf, TextOf, Streamable, Delivered;
    if items == [] {
      Nothing();
      FeedNone(s, alpha, world, 0);
      RunNone(s);
    } else {
      var n := |items| - 1;
      var front, texts := items[..n], Delivered(LinesIn(items[..n]));
      assert items[n] in items && forall item | item in front :: item in items;
      ItemsFeed(s, front, alpha, world);
      DeliveredLast(LinesIn(front), BytesOf(items[n]));
      NoiseIs(items[n]);
      ItemFeeds(s, texts, Happened(front, world), items[n], alpha, world);
      assert texts + [] == texts && Happened(front, world) + [] == Happened(front, world);
    }
  }

  lemma NoiseIs(item: Item)
    ensures item.Noise? ==> BytesOf(item) == item.line
  {
  }

  lemma RunNone(s: State)
    ensures Run(s, []) == s
  {
  }

  // However the bytes of a stream of printed events and other lines are split into reads, the
  // engine makes exactly the run of those events: nothing lost, repeated, reordered or misread.
  lemma BytesDriveEngine(s: State, items: seq<Item>, chunks: seq<seq<byte>>, alpha: char -> bool, world: nat -> Answers)
    requires AllStreamable(items, alpha) && Joined(chunks) == Stream(items)
    ensures Feed(s, Delivered(Framed(chunks)), alpha, world, 0) == Run(s, Happened(items, world))
  {
    hide Feed, Run, Stream, Lines, Delivered, Framed, Joined, BytesOf, Streamable;
    StreamLines(items, alpha);
    ChunkingIsInvisible(chunks, chunks);
    ItemsFeed(s, items, alpha, world);
  }

  // And so does the daemon object.
  method OnStream(framer: LineFramer, daemon: Daemon.DaemonState, chunks: seq<seq<byte>>, ghost items: seq<Item>,
                  alpha: char -> bool, world: nat -> Answers)
    requires framer.buf == [] && forall n :: Sound(world(n))
    requires AllStreamable(items, alpha) && Joined(chunks) == Stream(items)
    modifies framer, daemon
    ensures daemon.View() == Run(old(daemon.View()), Happened(items, world))
  {
    hide Feed, Run, Stream, Delivered, Framed, Joined, AllStreamable, Sound;
    ghost var start := daemon.View();
    OnReads(framer, daemon, chunks, alpha, world);
    BytesDriveEngine(start, items, chunks, alpha, world);
  }

  // --- effects reach the log ----------------------------------------------------------------------------

  // One effect carried out on the sink; json and row render records.
  function Carry(t: Sink, e: Effect, json: Effect -> seq<byte>, row: Effect -> seq<byte>, io: Io): Sink {
    match e
    case LogSwitch(on) => SetLogEnabled(t, on, io)
    case Signal(_) => t
    case SpawnKill(_) => t
    case _ => EmitWith(t, json(e), row(e), io)
  }

  function CarryAll(t: Sink, es: seq<Effect>, json: Effect -> seq<byte>, row: Effect -> seq<byte>, io: Io): Sink {
    if es == [] then t else Carry(CarryAll(t, es[..|es| - 1], json, row, io), es[|es| - 1], json, row, io)
  }

  // The effects a reload adds when the configuration changed.
  function ReloadEffects(s: State, ts: nat, config: Config): seq<Effect> {
    var wantLog := config.logEnabled && !s.policy.switches.noLogCli;
    var record := ConfigReload(ts, config, wantLog);
    if wantLog then [LogSwitch(true), record] else [record, LogSwitch(false)]
  }

  lemma CarryTwo(t: Sink, a: Effect, b: Effect, json: Effect -> seq<byte>, row: Effect -> seq<byte>, io: Io)
    ensures CarryAll(t, [a, b], json, row, io) == Carry(Carry(t, a, json, row, io), b, json, row, io)
  {
    hide Carry;
    assert [a, b][..1] == [a] && [a][..0] == [];
    assert CarryAll(t, [a], json, row, io) == Carry(CarryAll(t, [], json, row, io), a, json, row, io);
  }

  // A reload that changes the configuration always leaves its own record at the end of the
  // file, provided the log was open before or is wanted after, and leaves the log as wanted.
  lemma ReloadIsLogged(s: State, ts: nat, config: Config, excl: set<Pkg>, games: set<Pkg>, t: Sink,
                       json: Effect -> seq<byte>, row: Effect -> seq<byte>, io: Io)
    requires config != s.policy.config && Sane(t) && io.opens
    ensures OnReload(s, ts, config, excl, games).out == s.out + ReloadEffects(s, ts, config)
    ensures var wantLog := config.logEnabled && !s.policy.switches.noLogCli;
      var u := CarryAll(t, ReloadEffects(s, ts, config), json, row, io);
      var v := if wantLog then Flush(u) else u;
      && v.writer.Some? == wantLog
      && (t.writer.Some? || wantLog ==>
            v.live.Some? && IsSuffix(json(ConfigReload(ts, config, wantLog)) + [10], v.live.value))
  {
    hide SetLogEnabled, EmitWith, Flush, IsSuffix, Sane;
    var wantLog := config.logEnabled && !s.policy.switches.noLogCli;
    var record := ConfigReload(ts, config, wantLog);
    ReloadRecordLands(t, wantLog, json(record), row(record), io);
    CarryTwo(t, LogSwitch(true), record, json, row, io);
    CarryTwo(t, record, LogSwitch(false), json, row, io);
  }
}
