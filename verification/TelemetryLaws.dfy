/** What the operations log holds, through any mix of switching, rotating and flushing. */
module TelemetryLaws {
  import opened Prelude
  import opened Framer
  import opened Telemetry

  // --- contents ---------------------------------------------------------------------------------

  // The live file as it will be once flushed.
  function Current(s: Sink): seq<byte> { s.live.GetOr([]) + s.writer.GetOr([]) }

  predicate Sane(s: Sink) { s.writer.Some? ==> s.live.Some? && |s.writer.value| <= 8192 }

  lemma PushAppends(s: Sink, data: seq<byte>)
    requires s.writer.Some? && Sane(s)
    ensures var t := Push(s, data);
      Current(t) == Current(s) + data && t.previous == s.previous && Sane(t) && t.writer.Some?
  {
    var buf, file := s.writer.value, s.live.value;
    assert (file + buf) + data == file + (buf + data);
    assert file + buf + [] == file + buf;
    assert |data| >= BUFFER_CAPACITY && |data| <= BUFFER_CAPACITY - |buf| ==> file + buf + data == file + data + buf;
  }

  lemma AppendAppends(s: Sink, record: seq<byte>)
    requires s.writer.Some? && Sane(s)
    ensures var t := Append(s, record);
      && Current(t) == Current(s) + (record + [10]) && t.previous == s.previous && Sane(t) && t.writer.Some?
      && t.bytesWritten == s.bytesWritten + |record| + 1
  {
    hide Push;
    PushAppends(s, record);
    PushAppends(Push(s, record), [10]);
    assert Current(s) + record + [10] == Current(s) + (record + [10]);
  }

  lemma FlushKeeps(s: Sink)
    requires Sane(s)
    ensures var t := Flush(s);
      && Current(t) == Current(s) == t.live.GetOr([]) && t.previous == s.previous && Sane(t)
      && t.writer == (if s.writer.Some? then Some([]) else None) && t.bytesWritten == s.bytesWritten
      && (s.live.Some? ==> t.live.Some?)
  {
    var c := s.live.GetOr([]) + s.writer.GetOr([]);
    assert c + [] == c && s.live.GetOr([]) + [] == s.live.GetOr([]);
  }

  lemma OpenKeeps(s: Sink, io: Io)
    requires s.writer.None?
    ensures var t := OpenFile(s, io);
      Current(t) == Current(s) && t.previous == s.previous && Sane(t) && t.writer.Some? == io.opens
  {
  }

  // Rotation moves the whole live part to the old file, or, if the rename fails, moves nothing.
  lemma RotateMoves(s: Sink, io: Io)
    requires Sane(s)
    ensures var t := Rotate(s, io);
      && Sane(t) && t.writer.Some? == io.opens && t.bytesWritten == 0
      && (if io.renames && (s.live.Some? || s.writer.Some?)
          then t.previous.GetOr([]) == Current(s) && Current(t) == []
          else t.previous == s.previous && Current(t) == Current(s))
  {
    FlushKeeps(s);
    var f := Flush(s).(writer := None);
    assert Current(f) == Current(s);
    OpenKeeps(Rename(f, io), io);
  }

  // --- runs ------------------------------------------------------------------------------------------

  datatype Op =
    | SwitchTo(on: bool, io: Io)
    | Emitting(json: seq<byte>, row: seq<byte>, io: Io)
    | Flushing

  function Apply(s: Sink, op: Op): Sink {
    match op
    case SwitchTo(on, io) => SetLogEnabled(s, on, io)
    case Emitting(json, row, io) => EmitWith(s, json, row, io)
    case Flushing => Flush(s)
  }

  function After(s: Sink, ops: seq<Op>): Sink {
    if ops == [] then s else Apply(After(s, ops[..|ops| - 1]), ops[|ops| - 1])
  }

  // The line an operation adds to the log: a record emitted while the log is open. A rotation
  // that cannot reopen the file closes the log instead.
  function Logs(s: Sink, op: Op): seq<seq<byte>> {
    if op.Emitting? && s.writer.Some? && (s.bytesWritten + |op.json| + 1 >= 524_288 ==> op.io.opens)
    then [op.json + [10]] else []
  }

  // What was in the two files to begin with, then every line logged, in order.
  function History(s: Sink, ops: seq<Op>): seq<seq<byte>> {
    if ops == [] then [s.previous.GetOr([]), Current(s)]
    else
      var n := |ops| - 1;
      History(s, ops[..n]) + Logs(After(s, ops[..n]), ops[n])
  }

  // The two files hold the end of the history, cut between records.
  ghost predicate Intact(s: Sink, history: seq<seq<byte>>, lost: seq<seq<byte>>, rotated: seq<seq<byte>>,
                         current: seq<seq<byte>>)
  {
    && history == lost + rotated + current
    && s.previous.GetOr([]) == Joined(rotated) && Current(s) == Joined(current)
  }

  ghost predicate IsIntact(s: Sink, history: seq<seq<byte>>) {
    exists lost, rotated, current :: Intact(s, history, lost, rotated, current)
  }

  lemma JoinedLast(xs: seq<seq<byte>>, x: seq<byte>)
    ensures Joined(xs + [x]) == Joined(xs) + x && Joined([]) == []
  {
    assert (xs + [x])[..|xs|] == xs;
  }

  lemma SameFilesIntact(s: Sink, t: Sink, history: seq<seq<byte>>)
    requires IsIntact(s, history) && t.previous == s.previous && Current(t) == Current(s)
    ensures IsIntact(t, history)
  {
    var lost, rotated, current :| Intact(s, history, lost, rotated, current);
    assert Intact(t, history, lost, rotated, current);
  }

  lemma RotateKeepsIntact(s: Sink, io: Io, history: seq<seq<byte>>)
    requires Sane(s) && IsIntact(s, history)
    ensures IsIntact(Rotate(s, io), history)
  {
    hide Rotate, Joined;
    RotateMoves(s, io);
    if io.renames && (s.live.Some? || s.writer.Some?) {
      var lost, rotated, current :| Intact(s, history, lost, rotated, current);
      JoinedLast([], []);
      assert lost + rotated + current == (lost + rotated) + current + [];
      assert Intact(Rotate(s, io), history, lost + rotated, current, []);
    } else {
      SameFilesIntact(s, Rotate(s, io), history);
    }
  }

  lemma AppendKeepsIntact(s: Sink, record: seq<byte>, history: seq<seq<byte>>)
    requires Sane(s) && s.writer.Some? && IsIntact(s, history)
    ensures IsIntact(Append(s, record), history + [record + [10]])
  {
    hide Append, Joined;
    AppendAppends(s, record);
    var lost, rotated, current :| Intact(s, history, lost, rotated, current);
    var line := record + [10];
    JoinedLast(current, line);
    assert lost + rotated + current + [line] == lost + rotated + (current + [line]);
    assert Intact(Append(s, record), history + [line], lost, rotated, current + [line]);
  }

  lemma WriteKeepsIntact(s: Sink, record: seq<byte>, io: Io, history: seq<seq<byte>>)
    requires Sane(s) && IsIntact(s, history)
    ensures var t := WriteToLog(s, record, io);
      Sane(t) && IsIntact(t, history + Logs(s, Emitting(record, [], io)))
  {
    hide Rotate, Append, IsIntact;
    assert history + [] == history;
    if s.writer.Some? {
      RotateMoves(s, io);
      RotateKeepsIntact(s, io, history);
      var t := if Overflows(s, record) then Rotate(s, io) else s;
      if t.writer.Some? {
        AppendAppends(t, record);
        AppendKeepsIntact(t, record, history);
      }
    }
  }

  lemma SwitchKeepsIntact(s: Sink, on: bool, io: Io, history: seq<seq<byte>>)
    requires Sane(s) && IsIntact(s, history)
    ensures var t := SetLogEnabled(s, on, io); Sane(t) && IsIntact(t, history)
  {
    hide Rotate, IsIntact;
    if on != s.writer.Some? {
      if on {
        var t := s.(bytesWritten := SizeOf(s.live));
        SameFilesIntact(s, t, history);
        RotateMoves(t, io);
        RotateKeepsIntact(t, io, history);
        OpenKeeps(t, io);
        SameFilesIntact(t, OpenFile(t, io), history);
      } else {
        FlushKeeps(s);
        var t := Flush(s).(writer := None);
        assert Current(t) == Current(s);
        SameFilesIntact(s, t, history);
      }
    }
  }

  lemma EmitKeepsIntact(s: Sink, json: seq<byte>, row: seq<byte>, io: Io, history: seq<seq<byte>>)
    requires Sane(s) && IsIntact(s, history)
    ensures var t := EmitWith(s, json, row, io);
      Sane(t) && IsIntact(t, history + Logs(s, Emitting(json, row, io)))
  {
    hide WriteToLog, IsIntact;
    assert history + [] == history;
    var u := if s.jsonStdout then s.(shown := s.shown + [json])
             else if s.stdoutTty then s.(shown := s.shown + [row])
             else s;
    SameFilesIntact(s, u, history);
    var line := if s.jsonStdout || s.writer.Some? then json else [];
    WriteKeepsIntact(u, line, io, history);
  }

  // Through any mix of enabling, disabling, emitting, rotating and flushing, and whatever
  // opening and renaming answer, the old file, the live file and the buffer together are the
  // end of the history, cut between records: nothing split, duplicated or reordered.
  lemma {:induction false} LogIsIntact(s: Sink, ops: seq<Op>)
    requires Sane(s)
    ensures Sane(After(s, ops)) && IsIntact(After(s, ops), History(s, ops))
  {
    if ops == [] {
      InitiallyIntact(s);
    } else {
      var n := |ops| - 1;
      var t, h := After(s, ops[..n]), History(s, ops[..n]);
      LogIsIntact(s, ops[..n]);
      assert h + [] == h;
      match ops[n]
      case SwitchTo(on, io) => SwitchKeepsIntact(t, on, io, h);
      case Emitting(json, row, io) => EmitKeepsIntact(t, json, row, io, h);
      case Flushing => FlushKeeps(t); SameFilesIntact(t, Flush(t), h);
    }
  }

  lemma InitiallyIntact(s: Sink)
    ensures IsIntact(s, [s.previous.GetOr([]), Current(s)])
  {
    var p, c := s.previous.GetOr([]), Current(s);
    JoinedLast([], p);
    JoinedLast([], c);
    assert [] + [p] == [p] && [] + [c] == [c] && [] + p == p && [] + c == c;
    assert [p, c] == [] + [p] + [c];
    assert Intact(s, [p, c], [], [p], [c]);
  }

  lemma {:induction false} JoinedConcat(a: seq<seq<byte>>, b: seq<seq<byte>>)
    ensures Joined(a + b) == Joined(a) + Joined(b)
  {
    if b == [] {
      assert a + b == a && Joined(a) + [] == Joined(a);
    } else {
      var n := |b| - 1;
      JoinedConcat(a, b[..n]);
      assert (a + b)[..|a + b| - 1] == a + b[..n];
      assert Joined(a) + (Joined(b[..n]) + b[n]) == Joined(a) + Joined(b[..n]) + b[n];
    }
  }

  // Read as bytes: the two files and the buffer are a suffix of everything logged.
  lemma LogIsSuffix(s: Sink, ops: seq<Op>)
    requires Sane(s)
    ensures IsSuffix(After(s, ops).previous.GetOr([]) + Current(After(s, ops)), Joined(History(s, ops)))
  {
    hide Joined, History, After;
    LogIsIntact(s, ops);
    var t, h := After(s, ops), History(s, ops);
    var lost, rotated, current :| Intact(t, h, lost, rotated, current);
    JoinedConcat(lost + rotated, current);
    JoinedConcat(lost, rotated);
    ThreeParts(Joined(lost), Joined(rotated), Joined(current));
  }

  lemma ThreeParts(a: seq<byte>, b: seq<byte>, c: seq<byte>)
    ensures IsSuffix(b + c, a + b + c)
  {
  }

  // --- the size limit ----------------------------------------------------------------------------------

  predicate Succeeds(op: Op) { !op.Flushing? ==> op.io.opens && op.io.renames }

  // An open log knows the size of its live part and keeps it below the limit.
  predicate Counted(s: Sink) { s.writer.Some? ==> s.bytesWritten == |Current(s)| }

  predicate Below(s: Sink) { s.writer.Some? ==> |Current(s)| < 524_288 }

  lemma WriteCounts(s: Sink, record: seq<byte>, io: Io)
    requires Sane(s) && Counted(s) && io.opens && io.renames && s.writer.Some?
    ensures var t := WriteToLog(s, record, io);
      t.writer.Some? && Counted(t) && (Below(t) <==> |record| + 1 < 524_288)
  {
    hide Rotate, Append;
    RotateMoves(s, io);
    var t := if Overflows(s, record) then Rotate(s, io) else s;
    AppendAppends(t, record);
  }

  lemma EmitCounts(s: Sink, json: seq<byte>, row: seq<byte>, io: Io)
    requires Sane(s) && Counted(s) && io.opens && io.renames
    ensures var t := EmitWith(s, json, row, io);
      && t.writer.Some? == s.writer.Some? && Counted(t)
      && (s.writer.Some? ==> (Below(t) <==> |json| + 1 < 524_288))
  {
    hide WriteToLog;
    var u := if s.jsonStdout then s.(shown := s.shown + [json])
             else if s.stdoutTty then s.(shown := s.shown + [row])
             else s;
    if s.writer.Some? { WriteCounts(u, json, io); } else { ClosedWrites(u, json, io); ClosedWrites(u, [], io); }
  }

  lemma ClosedWrites(s: Sink, record: seq<byte>, io: Io)
    ensures s.writer.None? ==> WriteToLog(s, record, io) == s
  {
  }

  lemma SwitchCounts(s: Sink, on: bool, io: Io)
    requires Sane(s) && Counted(s) && Below(s) && io.opens && io.renames
    ensures var t := SetLogEnabled(s, on, io); t.writer.Some? == on && Counted(t) && Below(t)
  {
    hide Rotate;
    var t := s.(bytesWritten := SizeOf(s.live));
    RotateMoves(t, io);
    if s.writer.None? { OpenKeeps(t, io); }
    FlushKeeps(s);
  }

  // With successful file operations, the count of an open log is the size of its live part,
  // and that stays below the limit as long as each record with its newline does.
  lemma {:induction false} LogStaysBelowLimit(s: Sink, ops: seq<Op>)
    requires Sane(s) && Counted(s) && Below(s) && forall op | op in ops :: Succeeds(op)
    requires forall op | op in ops :: op.Emitting? ==> |op.json| + 1 < 524_288
    ensures Counted(After(s, ops)) && Below(After(s, ops))
  {
    if ops != [] {
      var n := |ops| - 1;
      var t := After(s, ops[..n]);
      assert ops[n] in ops;
      LogStaysBelowLimit(s, ops[..n]);
      LogIsIntact(s, ops[..n]);
      match ops[n]
      case SwitchTo(on, io) => SwitchCounts(t, on, io);
      case Emitting(json, row, io) => EmitCounts(t, json, row, io);
      case Flushing => FlushKeeps(t);
    }
  }

  // --- when the log rotates ------------------------------------------------------------------------

  // With successful file operations a record is appended as long as it keeps the live part below
  // 512 KB; otherwise the whole live part moves to the old file and the record starts a new one.
  lemma WriteAppendsOrRotates(s: Sink, record: seq<byte>, io: Io)
    requires Sane(s) && Counted(s) && s.writer.Some? && io.opens && io.renames
    ensures var t := WriteToLog(s, record, io);
      && t.writer.Some?
      && (if |Current(s)| + |record| + 1 < 524_288
          then t.previous == s.previous && Current(t) == Current(s) + (record + [10])
          else t.previous.GetOr([]) == Current(s) && Current(t) == record + [10])
  {
    hide Rotate, Append;
    RotateMoves(s, io);
    var t := if Overflows(s, record) then Rotate(s, io) else s;
    AppendAppends(t, record);
    assert [] + (record + [10]) == record + [10];
  }

  // No file is touched while the records fit the buffer, of less than 8192 bytes; and there are
  // never more in it.
  lemma RecordsWaitInBuffer(s: Sink, record: seq<byte>, io: Io)
    requires Sane(s) && Counted(s) && s.writer.Some? && |Current(s)| + |record| + 1 < 524_288
    ensures var t, was := WriteToLog(s, record, io), s.writer.value;
      && t.writer.Some? && |t.writer.value| <= 8192
      && (|was| + |record| + 1 < 8192 ==> t.live == s.live && t.writer.value == was + record + [10])
  {
    AppendAppends(s, record);
  }

  // The first load leaves the log as wanted, with nothing waiting in its buffer, and writes no
  // record; a log that was open, or is not wanted, keeps all it held.
  lemma FirstLoadSwitches(s: Sink, wantLog: bool, io: Io)
    requires Sane(s)
    ensures var t := FirstLoad(s, wantLog, io);
      && (t.writer.Some? <==> wantLog && (s.writer.Some? || io.opens)) && (t.writer.Some? ==> t.writer.value == [])
      && t.shown == s.shown
      && (s.writer.Some? || !wantLog ==> t.live.GetOr([]) == Current(s) && t.previous == s.previous)
  {
    hide Rotate;
    FlushKeeps(s);
    RotateMoves(s.(bytesWritten := SizeOf(s.live)), io);
    RotateShows(s.(bytesWritten := SizeOf(s.live)), io);
    assert s.live.GetOr([]) + [] == s.live.GetOr([]);
  }

  lemma RotateShows(s: Sink, io: Io)
    ensures Rotate(s, io).shown == s.shown
  {
  }

  // Opening rotates a file that has reached the limit already, and only that.
  lemma OpenAppendsOrRotates(s: Sink, io: Io)
    requires s.writer.None? && io.opens && io.renames
    ensures var t := SetLogEnabled(s, true, io); var live := s.live.GetOr([]);
      && t.writer.Some?
      && (if |live| < 524_288 then t.previous == s.previous && Current(t) == live
          else t.previous.GetOr([]) == live && Current(t) == [])
  {
    hide Rotate;
    var t := s.(bytesWritten := SizeOf(s.live));
    RotateMoves(t, io);
    OpenKeeps(t, io);
    assert s.live.GetOr([]) + [] == s.live.GetOr([]);
  }

  // What was moved last, with the record that started the live file, reaches the limit, unless
  // nothing was ever dropped.
  ghost predicate Full(lost: seq<seq<byte>>, rotated: seq<seq<byte>>, current: seq<seq<byte>>) {
    lost == [] || |Joined(rotated)| + (if current == [] then 0 else |current[0]|) >= 524_288
  }

  ghost predicate IsFull(s: Sink, history: seq<seq<byte>>) {
    exists lost, rotated, current :: Intact(s, history, lost, rotated, current) && Full(lost, rotated, current)
  }

  lemma SameFilesFull(s: Sink, t: Sink, history: seq<seq<byte>>)
    requires IsFull(s, history) && t.previous == s.previous && Current(t) == Current(s)
    ensures IsFull(t, history)
  {
    var lost, rotated, current :| Intact(s, history, lost, rotated, current) && Full(lost, rotated, current);
    assert Intact(t, history, lost, rotated, current);
  }

  lemma WriteKeepsFull(s: Sink, record: seq<byte>, io: Io, history: seq<seq<byte>>)
    requires Sane(s) && Counted(s) && s.writer.Some? && io.opens && io.renames && IsFull(s, history)
    ensures IsFull(WriteToLog(s, record, io), history + [record + [10]])
  {
    hide WriteToLog, Joined;
    WriteAppendsOrRotates(s, record, io);
    var t, line := WriteToLog(s, record, io), record + [10];
    var lost, rotated, current :| Intact(s, history, lost, rotated, current) && Full(lost, rotated, current);
    JoinedLast(current, line);
    JoinedLast([], line);
    if |Current(s)| + |record| + 1 < 524_288 {
      assert lost + rotated + current + [line] == lost + rotated + (current + [line]);
      assert Intact(t, history + [line], lost, rotated, current + [line]);
    } else {
      assert [] + [line] == [line] && [] + line == line;
      assert lost + rotated + current + [line] == (lost + rotated) + current + [line];
      assert Intact(t, history + [line], lost + rotated, current, [line]);
    }
  }

  lemma OpenKeepsFull(s: Sink, io: Io, history: seq<seq<byte>>)
    requires s.writer.None? && io.opens && io.renames && IsFull(s, history)
    ensures IsFull(SetLogEnabled(s, true, io), history)
  {
    hide SetLogEnabled, Joined;
    OpenAppendsOrRotates(s, io);
    var t := SetLogEnabled(s, true, io);
    assert Current(s) == s.live.GetOr([]);
    if |s.live.GetOr([])| < 524_288 {
      SameFilesFull(s, t, history);
    } else {
      var lost, rotated, current :| Intact(s, history, lost, rotated, current) && Full(lost, rotated, current);
      JoinedLast([], []);
      assert lost + rotated + current == (lost + rotated) + current + [];
      assert Intact(t, history, lost + rotated, current, []);
    }
  }

  lemma CloseKeepsFull(s: Sink, io: Io, history: seq<seq<byte>>)
    requires Sane(s) && s.writer.Some? && IsFull(s, history)
    ensures IsFull(SetLogEnabled(s, false, io), history)
  {
    FlushKeeps(s);
    assert Current(Flush(s).(writer := None)) == Current(s);
    SameFilesFull(s, SetLogEnabled(s, false, io), history);
  }

  lemma EmitKeepsFull(s: Sink, json: seq<byte>, row: seq<byte>, io: Io, history: seq<seq<byte>>)
    requires Sane(s) && Counted(s) && io.opens && io.renames && IsFull(s, history)
    ensures IsFull(EmitWith(s, json, row, io), history + Logs(s, Emitting(json, row, io)))
  {
    hide WriteToLog, IsFull;
    assert history + [] == history;
    var u := if s.jsonStdout then s.(shown := s.shown + [json])
             else if s.stdoutTty then s.(shown := s.shown + [row])
             else s;
    SameFilesFull(s, u, history);
    if s.writer.Some? {
      WriteKeepsFull(u, json, io, history);
    } else {
      ClosedWrites(u, json, io);
      ClosedWrites(u, [], io);
    }
  }

  // With successful file operations nothing is ever dropped but what two rotations have passed
  // over, and every rotation waits for the limit: the two files keep everything, or at least a
  // limit's worth of the newest records.
  lemma {:induction false} LogKeepsALimit(s: Sink, ops: seq<Op>)
    requires Sane(s) && Counted(s) && forall op | op in ops :: Succeeds(op)
    ensures Counted(After(s, ops)) && IsFull(After(s, ops), History(s, ops))
  {
    hide IsFull;
    if ops == [] {
      InitiallyFull(s);
    } else {
      var n := |ops| - 1;
      var t, h := After(s, ops[..n]), History(s, ops[..n]);
      assert ops[n] in ops;
      LogKeepsALimit(s, ops[..n]);
      LogIsIntact(s, ops[..n]);
      assert h + [] == h;
      match ops[n]
      case SwitchTo(on, io) =>
        SwitchStaysCounted(t, on, io);
        if on && t.writer.None? { OpenKeepsFull(t, io, h); }
        if !on && t.writer.Some? { CloseKeepsFull(t, io, h); }
      case Emitting(json, row, io) => EmitCounts(t, json, row, io); EmitKeepsFull(t, json, row, io, h);
      case Flushing => FlushKeeps(t); SameFilesFull(t, Flush(t), h);
    }
  }

  lemma SwitchStaysCounted(s: Sink, on: bool, io: Io)
    requires Sane(s) && Counted(s) && io.opens && io.renames
    ensures Counted(SetLogEnabled(s, on, io))
  {
    hide Rotate;
    RotateMoves(s.(bytesWritten := SizeOf(s.live)), io);
    FlushKeeps(s);
  }

  lemma InitiallyFull(s: Sink)
    ensures IsFull(s, [s.previous.GetOr([]), Current(s)])
  {
    var p, c := s.previous.GetOr([]), Current(s);
    JoinedLast([], p);
    JoinedLast([], c);
    assert [] + [p] == [p] && [] + [c] == [c] && [] + p == p && [] + c == c;
    assert [p, c] == [] + [p] + [c];
    assert Intact(s, [p, c], [], [p], [c]);
  }

  // In bytes: either all of the history is still there, or at least 512 KB of it.
  lemma LogKeepsBytes(s: Sink, ops: seq<Op>)
    requires Sane(s) && Counted(s) && forall op | op in ops :: Succeeds(op)
    ensures var t := After(s, ops); var kept := t.previous.GetOr([]) + Current(t);
      kept == Joined(History(s, ops)) || |kept| >= 524_288
  {
    hide Joined, History, After;
    LogKeepsALimit(s, ops);
    var t, h := After(s, ops), History(s, ops);
    var lost, rotated, current :| Intact(t, h, lost, rotated, current) && Full(lost, rotated, current);
    JoinedConcat(rotated, current);
    FirstIsPart(current);
    if lost == [] { assert [] + rotated + current == rotated + current; }
  }

  lemma {:induction false} FirstIsPart(xs: seq<seq<byte>>)
    ensures xs != [] ==> |xs[0]| <= |Joined(xs)|
  {
    if |xs| > 1 { FirstIsPart(xs[..|xs| - 1]); }
  }

  // --- the reload record ----------------------------------------------------------------------------------

  // A reload's own record ends the live file, on disk, whenever the log was open before or is
  // wanted after; otherwise the files stay as they are. Afterwards the log is open as wanted.
  lemma ReloadRecordLands(s: Sink, wantLog: bool, json: seq<byte>, row: seq<byte>, io: Io)
    requires Sane(s) && io.opens
    ensures var t := ReloadLog(s, wantLog, json, row, io);
      && t.writer == (if wantLog then Some([]) else None)
      && (if s.writer.Some? || wantLog then t.live.Some? && IsSuffix(json + [10], t.live.value)
          else t.live == s.live && t.previous == s.previous)
  {
    hide SetLogEnabled, EmitWith;
    var a := if wantLog then SetLogEnabled(s, true, io) else s;
    EnableOpens(s, io);
    EmitEnds(a, json, row, io);
    FlushKeeps(EmitWith(a, json, row, io));
    DisableFlushes(EmitWith(a, json, row, io), io);
  }

  // The held start-up record ends the live file, on disk, exactly when the log is wanted;
  // otherwise, the preload having agreed, no file is created or touched.
  lemma StartupRecordLands(live: Option<seq<byte>>, previous: Option<seq<byte>>, jsonStdout: bool, stdoutTty: bool,
                           wantLog: bool, json: seq<byte>, row: seq<byte>, io: Io, io': Io, io'': Io)
    requires io.opens && io'.opens && io''.opens
    ensures var s := Start(live, previous, jsonStdout, stdoutTty, wantLog, io);
      var t := StartupRecord(FirstLoad(s, wantLog, io'), json, row, io'');
      && t.writer == (if wantLog then Some([]) else None)
      && (if wantLog then t.live.Some? && IsSuffix(json + [10], t.live.value)
          else t.live == live && t.previous == previous)
  {
    hide Rotate, EmitWith, IsSuffix;
    var b := Sink(None, SizeOf(live), live, previous, jsonStdout, stdoutTty, []);
    var s := Start(live, previous, jsonStdout, stdoutTty, wantLog, io);
    EnableOpens(b, io);
    if wantLog {
      FlushKeeps(s);
      EmitEnds(FirstLoad(s, true, io'), json, row, io'');
      FlushKeeps(EmitWith(FirstLoad(s, true, io'), json, row, io''));
    } else {
      EmitEnds(b, json, row, io'');
      ClosedFlush(EmitWith(b, json, row, io''));
    }
  }

  lemma ClosedFlush(s: Sink)
    ensures s.writer.None? ==> Flush(s) == s
  {
  }

  lemma EnableOpens(s: Sink, io: Io)
    requires Sane(s) && io.opens
    ensures var t := SetLogEnabled(s, true, io); Sane(t) && t.writer.Some?
  {
    hide Rotate;
    RotateMoves(s.(bytesWritten := SizeOf(s.live)), io);
  }

  lemma EmitEnds(s: Sink, json: seq<byte>, row: seq<byte>, io: Io)
    requires Sane(s) && io.opens
    ensures var t := EmitWith(s, json, row, io);
      && Sane(t) && t.writer.Some? == s.writer.Some?
      && (if s.writer.Some? then IsSuffix(json + [10], Current(t)) && t.live.Some?
          else t.live == s.live && t.previous == s.previous)
  {
    hide Rotate, Append, IsSuffix;
    var u := if s.jsonStdout then s.(shown := s.shown + [json])
             else if s.stdoutTty then s.(shown := s.shown + [row])
             else s;
    if s.writer.Some? {
      RotateMoves(u, io);
      var t := if Overflows(u, json) then Rotate(u, io) else u;
      AppendAppends(t, json);
      EndsWith(Current(t), json + [10]);
    }
  }

  lemma EndsWith(a: seq<byte>, b: seq<byte>)
    ensures IsSuffix(b, a + b)
  {
  }

  lemma DisableFlushes(s: Sink, io: Io)
    requires Sane(s)
    ensures var t := SetLogEnabled(s, false, io);
      && t.writer == None && t.previous == s.previous
      && (if s.writer.Some? then t.live == Some(Current(s)) else t == s)
  {
  }

  // --- standard output and the log do not interfere ----------------------------------------------------------

  predicate SameLog(s: Sink, t: Sink) {
    s.writer == t.writer && s.bytesWritten == t.bytesWritten && s.live == t.live && s.previous == t.previous
  }

  // What standard output shows of one operation.
  function Shows(jsonStdout: bool, stdoutTty: bool, op: Op): seq<seq<byte>> {
    if !op.Emitting? then [] else if jsonStdout then [op.json] else if stdoutTty then [op.row] else []
  }

  function AllShown(jsonStdout: bool, stdoutTty: bool, ops: seq<Op>): seq<seq<byte>> {
    if ops == [] then []
    else AllShown(jsonStdout, stdoutTty, ops[..|ops| - 1]) + Shows(jsonStdout, stdoutTty, ops[|ops| - 1])
  }

  lemma ApplyIgnoresStdout(s: Sink, t: Sink, op: Op)
    requires SameLog(s, t)
    ensures SameLog(Apply(s, op), Apply(t, op))
  {
    hide Push;
    if op.Emitting? {
      WriteIgnoresStdout(s, t, op.json, op.io);
      ShownIsApart(s, s.shown + [op.json], op.json, op.io);
      ShownIsApart(s, s.shown + [op.row], op.json, op.io);
      ShownIsApart(t, t.shown + [op.json], op.json, op.io);
      ShownIsApart(t, t.shown + [op.row], op.json, op.io);
    }
  }

  lemma PushIgnoresStdout(s: Sink, t: Sink, data: seq<byte>)
    requires SameLog(s, t) && s.writer.Some?
    ensures SameLog(Push(s, data), Push(t, data)) && Push(s, data).writer.Some?
  {
  }

  lemma WriteIgnoresStdout(s: Sink, t: Sink, record: seq<byte>, io: Io)
    requires SameLog(s, t)
    ensures SameLog(WriteToLog(s, record, io), WriteToLog(t, record, io))
  {
    hide Push;
    var u := if Overflows(s, record) then Rotate(s, io) else s;
    var v := if Overflows(t, record) then Rotate(t, io) else t;
    assert s.writer.Some? ==> SameLog(u, v);
    if s.writer.Some? && u.writer.Some? {
      PushIgnoresStdout(u, v, record);
      PushIgnoresStdout(Push(u, record), Push(v, record), [10]);
    }
  }

  lemma ShownIsApart(s: Sink, shown: seq<seq<byte>>, record: seq<byte>, io: Io)
    ensures SameLog(WriteToLog(s, record, io), WriteToLog(s.(shown := shown), record, io))
    ensures s.writer.None? ==> SameLog(s, WriteToLog(s.(shown := shown), [], io))
  {
    WriteIgnoresStdout(s, s.(shown := shown), record, io);
  }

  // The files depend on neither --json nor the terminal.
  lemma {:induction false} LogIgnoresStdout(s: Sink, t: Sink, ops: seq<Op>)
    requires SameLog(s, t)
    ensures SameLog(After(s, ops), After(t, ops))
  {
    if ops != [] {
      var n := |ops| - 1;
      LogIgnoresStdout(s, t, ops[..n]);
      ApplyIgnoresStdout(After(s, ops[..n]), After(t, ops[..n]), ops[n]);
    }
  }

  predicate SameStdout(s: Sink, t: Sink) {
    t.shown == s.shown && t.jsonStdout == s.jsonStdout && t.stdoutTty == s.stdoutTty
  }

  lemma RotateShowsNothing(s: Sink, io: Io)
    ensures SameStdout(s, Rotate(s, io))
  {
  }

  lemma AppendShowsNothing(s: Sink, record: seq<byte>)
    requires s.writer.Some?
    ensures SameStdout(s, Append(s, record))
  {
  }

  lemma WriteShowsNothing(s: Sink, record: seq<byte>, io: Io)
    ensures SameStdout(s, WriteToLog(s, record, io))
  {
    hide Rotate, Append;
    RotateShowsNothing(s, io);
    var t := if Overflows(s, record) then Rotate(s, io) else s;
    if t.writer.Some? { AppendShowsNothing(t, record); }
  }

  // Standard output shows every event once, in its own rendering, whatever the log switch does.
  lemma {:induction false} StdoutIgnoresLog(s: Sink, ops: seq<Op>)
    ensures var t := After(s, ops);
      && t.shown == s.shown + AllShown(s.jsonStdout, s.stdoutTty, ops)
      && t.jsonStdout == s.jsonStdout && t.stdoutTty == s.stdoutTty
  {
    if ops == [] {
      assert s.shown + [] == s.shown;
    } else {
      var n := |ops| - 1;
      StdoutIgnoresLog(s, ops[..n]);
      ApplyShows(After(s, ops[..n]), ops[n]);
      var a, b := AllShown(s.jsonStdout, s.stdoutTty, ops[..n]), Shows(s.jsonStdout, s.stdoutTty, ops[n]);
      assert s.shown + (a + b) == s.shown + a + b;
    }
  }

  lemma ApplyShows(s: Sink, op: Op)
    ensures var t := Apply(s, op);
      && t.shown == s.shown + Shows(s.jsonStdout, s.stdoutTty, op)
      && t.jsonStdout == s.jsonStdout && t.stdoutTty == s.stdoutTty
  {
    hide WriteToLog;
    assert s.shown + [] == s.shown;
    if op.Emitting? {
      var u := s.(shown := s.shown + Shows(s.jsonStdout, s.stdoutTty, op));
      WriteShowsNothing(u, op.json, op.io);
      WriteShowsNothing(u, [], op.io);
    }
  }

  // A log that is never switched on leaves no file behind and touches none.
  lemma {:induction false} ClosedLogTouchesNothing(s: Sink, ops: seq<Op>)
    requires s.writer.None? && forall op | op in ops :: !(op.SwitchTo? && op.on)
    ensures SameLog(After(s, ops), s)
  {
    hide WriteToLog;
    if ops != [] {
      var n := |ops| - 1;
      assert ops[n] in ops;
      ClosedLogTouchesNothing(s, ops[..n]);
      var t := After(s, ops[..n]);
      if ops[n].Emitting? {
        var u := t.(shown := t.shown + Shows(t.jsonStdout, t.stdoutTty, ops[n]));
        ClosedWrites(u, ops[n].json, ops[n].io);
        ClosedWrites(u, [], ops[n].io);
      }
    }
  }
}
