/** The operations log: a switchable, rotating, buffered sink over two files. */
module Telemetry {
  import opened Prelude
  import opened Framer

  const ROTATION_THRESHOLD: nat := 512 * 1024
  const BUFFER_CAPACITY: nat := 8192

  // Whether opening and renaming succeed during one call.
  datatype Io = Io(opens: bool, renames: bool)

  // The sink and its two files: writer is the unflushed buffer of an open log.
  datatype Sink = Sink(
    writer: Option<seq<byte>>, bytesWritten: nat,
    live: Option<seq<byte>>, previous: Option<seq<byte>>,
    jsonStdout: bool, stdoutTty: bool, shown: seq<seq<byte>>)

  // --- operations ----------------------------------------------------------------------------

  function SizeOf(file: Option<seq<byte>>): nat { |file.GetOr([])| }

  function Flush(s: Sink): Sink {
    if s.writer.None? then s
    else s.(live := Some(s.live.GetOr([]) + s.writer.value), writer := Some([]))
  }

  function OpenFile(s: Sink, io: Io): Sink {
    if io.opens then s.(live := Some(s.live.GetOr([])), writer := Some([])) else s.(writer := None)
  }

  // rename(2) needs a source file.
  function Rename(s: Sink, io: Io): Sink {
    if io.renames && s.live.Some? then s.(previous := s.live, live := None) else s
  }

  function Rotate(s: Sink, io: Io): Sink {
    OpenFile(Rename(Flush(s).(writer := None), io), io).(bytesWritten := 0)
  }

  function OpenLog(s: Sink, io: Io): Sink {
    var t := s.(bytesWritten := SizeOf(s.live));
    if t.bytesWritten >= ROTATION_THRESHOLD then Rotate(t, io) else OpenFile(t, io)
  }

  function SetLogEnabled(s: Sink, on: bool, io: Io): Sink {
    if on == s.writer.Some? then s
    else if on then OpenLog(s, io)
    else Flush(s).(writer := None)
  }

  // BufWriter::write_all: what does not fit goes out first, what exceeds the buffer goes
  // straight to the file.
  function Push(s: Sink, data: seq<byte>): Sink
    requires s.writer.Some?
  {
    var spare := SatSub(BUFFER_CAPACITY, |s.writer.value|);
    if |data| < spare then s.(writer := Some(s.writer.value + data))
    else
      var t := if |data| > spare then Flush(s) else s;
      if |data| >= BUFFER_CAPACITY then t.(live := Some(t.live.GetOr([]) + data))
      else t.(writer := Some(t.writer.value + data))
  }

  predicate Overflows(s: Sink, record: seq<byte>) { s.bytesWritten + |record| + 1 >= ROTATION_THRESHOLD }

  function Append(s: Sink, record: seq<byte>): Sink
    requires s.writer.Some?
  {
    Push(Push(s, record), [NL]).(bytesWritten := s.bytesWritten + |record| + 1)
  }

  function WriteToLog(s: Sink, record: seq<byte>, io: Io): Sink {
    if s.writer.None? then s
    else
      var t := if Overflows(s, record) then Rotate(s, io) else s;
      if t.writer.None? then t else Append(t, record)
  }

  predicate Silent(s: Sink) { s.writer.None? && !s.jsonStdout && !s.stdoutTty }

  // The record goes to the log; standard output shows it under --json, or the row on a terminal.
  function EmitWith(s: Sink, json: seq<byte>, row: seq<byte>, io: Io): Sink {
    if Silent(s) then s
    else
      var t := if s.jsonStdout then s.(shown := s.shown + [json])
               else if s.stdoutTty then s.(shown := s.shown + [row])
               else s;
      WriteToLog(t, if s.jsonStdout || s.writer.Some? then json else [], io)
  }

  // A configuration reload writes its own record inside the switch.
  function ReloadLog(s: Sink, wantLog: bool, json: seq<byte>, row: seq<byte>, io: Io): Sink {
    var t := EmitWith(if wantLog then SetLogEnabled(s, true, io) else s, json, row, io);
    if wantLog then Flush(t) else SetLogEnabled(t, false, io)
  }

  // The first load only applies the switch; its record is held until the event loop starts.
  function FirstLoad(s: Sink, wantLog: bool, io: Io): Sink {
    if wantLog then Flush(SetLogEnabled(s, true, io)) else SetLogEnabled(s, false, io)
  }

  function StartupRecord(s: Sink, json: seq<byte>, row: seq<byte>, io: Io): Sink { Flush(EmitWith(s, json, row, io)) }

  function Start(live: Option<seq<byte>>, previous: Option<seq<byte>>, jsonStdout: bool, stdoutTty: bool,
                 logEnabled: bool, io: Io): Sink
  {
    var s := Sink(None, SizeOf(live), live, previous, jsonStdout, stdoutTty, []);
    if logEnabled then OpenLog(s, io) else s
  }

  // --- the object ----------------------------------------------------------------------------

  class TelemetrySink {
    var writer: Option<seq<byte>>
    var bytesWritten: nat
    var live: Option<seq<byte>>
    var previous: Option<seq<byte>>
    const jsonStdout: bool
    const stdoutTty: bool
    var shown: seq<seq<byte>>

    ghost function View(): Sink
      reads this
    {
      Sink(writer, bytesWritten, live, previous, jsonStdout, stdoutTty, shown)
    }

    // The files are as an earlier process left them.
    constructor (live: Option<seq<byte>>, previous: Option<seq<byte>>, jsonStdout: bool, stdoutTty: bool,
                 logEnabled: bool, io: Io)
      ensures View() == Start(live, previous, jsonStdout, stdoutTty, logEnabled, io)
    {
      this.writer, this.bytesWritten := None, SizeOf(live);
      this.live, this.previous := live, previous;
      this.jsonStdout, this.stdoutTty, this.shown := jsonStdout, stdoutTty, [];
      new;
      if logEnabled { OpenForAppend(io); }
    }

    method FlushOut()
      modifies this`writer, this`live
      ensures View() == Flush(old(View()))
    {
      if writer.Some? {
        live := Some(live.GetOr([]) + writer.value);
        writer := Some([]);
      }
    }

    method Open(io: Io)
      modifies this`writer, this`live
      ensures View() == OpenFile(old(View()), io)
    {
      if io.opens { live := Some(live.GetOr([])); }
      writer := if io.opens then Some([]) else None;
    }

    method RotateFiles(io: Io)
      modifies this`writer, this`live, this`previous, this`bytesWritten
      ensures View() == Rotate(old(View()), io)
    {
      FlushOut();
      writer := None;
      if io.renames && live.Some? {
        previous := live;
        live := None;
      }
      Open(io);
      bytesWritten := 0;
    }

    // The limit is read from the file again: the count is stale while the log is closed.
    method OpenForAppend(io: Io)
      modifies this`writer, this`live, this`previous, this`bytesWritten
      ensures View() == OpenLog(old(View()), io)
    {
      bytesWritten := SizeOf(live);
      if bytesWritten >= ROTATION_THRESHOLD { RotateFiles(io); } else { Open(io); }
    }

    method Enable(on: bool, io: Io)
      modifies this`writer, this`live, this`previous, this`bytesWritten
      ensures View() == SetLogEnabled(old(View()), on, io)
    {
      if on != writer.Some? {
        if on {
          OpenForAppend(io);
        } else {
          FlushOut();
          writer := None;
        }
      }
    }

    method Buffer(data: seq<byte>)
      requires writer.Some?
      modifies this`writer, this`live
      ensures View() == Push(old(View()), data) && writer.Some?
    {
      var spare := SatSub(BUFFER_CAPACITY, |writer.value|);
      if |data| < spare {
        writer := Some(writer.value + data);
      } else {
        if |data| > spare { FlushOut(); }
        if |data| >= BUFFER_CAPACITY {
          live := Some(live.GetOr([]) + data);
        } else {
          writer := Some(writer.value + data);
        }
      }
    }

    method Write(record: seq<byte>, io: Io)
      modifies this`writer, this`live, this`previous, this`bytesWritten
      ensures View() == WriteToLog(old(View()), record, io)
    {
      hide Rotate, Push;
      if writer.Some? {
        if bytesWritten + |record| + 1 >= ROTATION_THRESHOLD { RotateFiles(io); }
        if writer.Some? {
          ghost var t := View();
          Buffer(record);
          Buffer([NL]);
          PushKeepsCount(t, record);
          bytesWritten := bytesWritten + |record| + 1;
        }
      }
    }

    method Emit(json: seq<byte>, row: seq<byte>, io: Io)
      modifies this`writer, this`live, this`previous, this`bytesWritten, this`shown
      ensures View() == EmitWith(old(View()), json, row, io)
    {
      hide WriteToLog;
      if !(writer.None? && !jsonStdout && !stdoutTty) {
        var line := if jsonStdout || writer.Some? then json else [];
        if jsonStdout { shown := shown + [json]; } else if stdoutTty { shown := shown + [row]; }
        Write(line, io);
      }
    }
  }

  lemma PushKeepsCount(s: Sink, data: seq<byte>)
    requires s.writer.Some?
    ensures Push(s, data).bytesWritten == s.bytesWritten && Push(s, data).writer.Some?
  {
  }
}
