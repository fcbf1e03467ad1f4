// Writing the append-only file: feedAppendOnlyFile, aofWrite and flushAppendOnlyFile in aof.c, for a policy other
// than "always".
module AofFlush {
  import opened AofLog
  import opened Repeats
  import AofLoader

  // What one write(2) does: EINTR, another error, or the number of bytes taken.
  datatype WriteResult = Interrupted | Failed | Wrote(n: nat)

  // The file behind a descriptor. Without O_APPEND a write goes to `offset`, wherever the file ends.
  datatype File = File(bytes: Bytes, offset: nat, append: bool)

  function WriteBytes(f: File, data: Bytes): File
  {
    if data == [] then f
    else
      var pos := if f.append then |f.bytes| else f.offset;
      var padded := if pos <= |f.bytes| then f.bytes else f.bytes + Repeat<byte>(0, pos - |f.bytes|);
      var end := pos + |data|;
      f.(bytes := padded[..pos] + data + (if end < |padded| then padded[end..] else []), offset := end)
  }

  function Truncate(f: File, size: nat): File
  {
    f.(bytes := if size <= |f.bytes| then f.bytes[..size] else f.bytes + Repeat<byte>(0, size - |f.bytes|))
  }

  // How aofWrite ends. `Stopped` means the process was stopped while still writing.
  datatype Ending = Finished | Error | Stopped

  // aofWrite on `data` from `from`, with the results the calls to write(2) will have.
  function WriteLoop(f: File, data: Bytes, from: nat, script: seq<WriteResult>): (r: (File, nat, Ending))
    requires from <= |data|
    ensures from <= r.1 <= |data|
    ensures r.2.Finished? <==> r.1 == |data|
    decreases |script|
  {
    if from == |data| then (f, from, Finished)
    else if script == [] then (f, from, Stopped)
    else
      match script[0]
      case Interrupted => WriteLoop(f, data, from, script[1..])
      case Failed => (f, from, Error)
      case Wrote(n) =>
        var k := if n <= |data| - from then n else |data| - from;
        WriteLoop(WriteBytes(f, data[from..from + k]), data, from + k, script[1..])
  }

  datatype Writer = Writer(file: File, buf: Bytes, lastSize: nat, failed: bool, running: bool)

  // flushAppendOnlyFile. `postpone` says that the everysec policy delays the write behind a running fsync.
  function Flush(w: Writer, postpone: bool, script: seq<WriteResult>, truncateWorks: bool): Writer
  {
    if !w.running || w.buf == [] || postpone then w
    else
      var (f, total, ending) := WriteLoop(w.file, w.buf, 0, script);
      match ending
      case Stopped => w.(file := f, running := false)
      case Finished => w.(file := f, buf := [], lastSize := w.lastSize + total, failed := false)
      case Error =>
        if total == 0 then w.(file := f, failed := true)
        else if truncateWorks then w.(file := Truncate(f, w.lastSize), failed := true)
        else w.(file := f, buf := w.buf[total..], lastSize := w.lastSize + total, failed := true)
  }

  // The server's side of the file.
  class AofWriter {
    var file: File
    var buf: Bytes
    var lastSize: nat
    var failed: bool
    var running: bool
    // aof_selected_db, -1 for none
    var selectedDb: int

    function State(): Writer
      reads this
    {
      Writer(file, buf, lastSize, failed, running)
    }

    method AofWrite(script: seq<WriteResult>) returns (nwritten: int, stopped: bool)
      modifies this`file
      ensures var (f, total, ending) := WriteLoop(old(file), buf, 0, script);
              && file == f && (stopped <==> ending == Stopped)
              && (!stopped ==> nwritten == if ending == Error && total == 0 then -1 else total)
    {
      hide WriteBytes;
      var len, total := |buf|, 0;
      var i := 0;
      stopped := false;
      assert script[0..] == script;
      while len > 0
        invariant 0 <= total && 0 <= len && total + len == |buf| && 0 <= i <= |script|
        invariant WriteLoop(file, buf, total, script[i..]) == WriteLoop(old(file), buf, 0, script)
        decreases |script| - i
      {
        if i == |script| {
          return total, true;
        }
        var result := script[i];
        i := i + 1;
        assert script[i - 1..][1..] == script[i..];
        match result {
          case Interrupted =>
          case Failed => return if total != 0 then total else -1, false;
          case Wrote(n) =>
            var k := if n <= len then n else len;
            file := WriteBytes(file, buf[total..total + k]);
            len := len - k;
            total := total + k;
        }
      }
      nwritten := total;
    }

    method FlushAppendOnlyFile(postpone: bool, script: seq<WriteResult>, truncateWorks: bool)
      modifies this
      ensures State() == Flush(old(State()), postpone, script, truncateWorks)
      ensures selectedDb == old(selectedDb)
    {
      if !running || |buf| == 0 {
        return;
      }
      if postpone {
        return;
      }
      var nwritten, stopped := AofWrite(script);
      if stopped {
        running := false;
        return;
      }
      if nwritten != |buf| {
        if nwritten != -1 {
          if truncateWorks {
            file := Truncate(file, lastSize);
            nwritten := -1;
          }
        }
        failed := true;
        if nwritten > 0 {
          lastSize := lastSize + nwritten;
          buf := buf[nwritten..];
        }
        return;
      }
      failed := false;
      lastSize := lastSize + nwritten;
      buf := [];
    }

    // feedAppendOnlyFile: a SELECT first if the command's database is not the one selected in the file. A command for
    // database -1 runs wherever the log is.
    method FeedAppendOnlyFile(dictid: int, argv: Command)
      requires dictid >= -1
      modifies this`buf, this`selectedDb
      ensures buf == old(buf) + Encode(Fed(old(selectedDb), dictid, argv))
      ensures selectedDb == Reached(old(selectedDb), dictid)
    {
      hide EncodeCommand, Encode, Decimal;
      if dictid != -1 && dictid != selectedDb {
        buf := CatCommand(buf, [SELECT, Decimal(dictid)]);
        selectedDb := dictid;
        EncodePair([SELECT, Decimal(dictid)], argv);
        buf := CatCommand(buf, argv);
        assert buf == old(buf) + (EncodeCommand([SELECT, Decimal(dictid)]) + EncodeCommand(argv));
      } else {
        EncodeOne(argv);
        buf := CatCommand(buf, argv);
      }
    }
  }

  // The database that is current after a command for `dictid`.
  function Reached(current: int, dictid: int): int { if dictid == -1 then current else dictid }

  // The commands that logging `argv` for database `dictid` appends.
  function Fed(selected: int, dictid: int, argv: Command): seq<Command>
    requires dictid >= -1
  {
    if dictid != -1 && dictid != selected then [[SELECT, Decimal(dictid)], argv] else [argv]
  }

  lemma EncodePair(a: Command, b: Command)
    ensures Encode([a, b]) == EncodeCommand(a) + EncodeCommand(b)
  {
    hide EncodeCommand;
    EncodeOne(b);
    assert [a, b][1..] == [b];
  }

  // What is logged: a command, and the database it is for or -1.
  predicate ForLog(op: (int, Command)) { op.0 >= -1 && op.1 != [] && op.1[0] != SELECT }

  function FedAll(selected: int, ops: seq<(int, Command)>): seq<Command>
    requires forall i | 0 <= i < |ops| :: ForLog(ops[i])
    decreases |ops|
  {
    if ops == [] then []
    else
      assert ForLog(ops[0]);
      Fed(selected, ops[0].0, ops[0].1) + FedAll(Reached(selected, ops[0].0), ops[1..])
  }

  // The commands of a log with the database each of them runs in, when `selected` is current at the start.
  function Targets(selected: int, cmds: seq<Command>): seq<(int, Command)>
    decreases |cmds|
  {
    if cmds == [] then []
    else if |cmds[0]| == 2 && cmds[0][0] == SELECT then Targets(Number(cmds[0][1]), cmds[1..])
    else [(selected, cmds[0])] + Targets(selected, cmds[1..])
  }

  // Where the commands belong: each in its database, those for -1 in that of the one before them.
  function Intended(start: int, ops: seq<(int, Command)>): seq<(int, Command)>
    decreases |ops|
  {
    if ops == [] then []
    else
      var db := Reached(start, ops[0].0);
      [(db, ops[0].1)] + Intended(db, ops[1..])
  }

  // Replaying the log runs every command where it belongs, whatever was selected before.
  lemma {:induction false} FeedReachesItsDb(start: int, selected: int, ops: seq<(int, Command)>)
    requires selected == -1 || selected == start
    requires forall i | 0 <= i < |ops| :: ForLog(ops[i])
    ensures Targets(start, FedAll(selected, ops)) == Intended(start, ops)
    decreases |ops|
  {
    hide Decimal, Number;
    if ops != [] {
      var (db, cmd) := ops[0];
      assert ForLog(ops[0]);
      var rest := FedAll(Reached(selected, db), ops[1..]);
      FeedReachesItsDb(Reached(start, db), Reached(selected, db), ops[1..]);
      assert ([cmd] + rest)[1..] == rest;
      if db != -1 && db != selected {
        NumberOfDecimal(db, []);
        assert Decimal(db) + [] == Decimal(db);
        assert FedAll(selected, ops) == [[SELECT, Decimal(db)]] + ([cmd] + rest);
        assert ([[SELECT, Decimal(db)]] + ([cmd] + rest))[1..] == [cmd] + rest;
      }
    }
  }

  // ---------- no byte is lost or written twice ----------

  // File and buffer together hold `all`, and the server knows the file's length.
  predicate Sound(w: Writer, all: Bytes) { w.file.bytes + w.buf == all && |w.file.bytes| == w.lastSize }

  // The next write goes to the end of the file.
  predicate Aligned(f: File) { f.append || f.offset == |f.bytes| }

  // A descriptor that never stands inside the file: every one opened at its end, whatever happens later.
  predicate AtOrPast(f: File) { f.append || f.offset >= |f.bytes| }

  // How far past the end of the file the next write goes.
  function Gap(f: File): nat { if f.append || f.offset <= |f.bytes| then 0 else f.offset - |f.bytes| }

  lemma WriteFurther(f: File, data: Bytes)
    requires AtOrPast(f) && data != []
    ensures var f1 := WriteBytes(f, data);
            && f1.bytes == f.bytes + Repeat<byte>(0, Gap(f)) + data && f1.offset == |f1.bytes| && f1.append == f.append
  {
    assert Repeat<byte>(0, 0) == [];
    assert f.bytes + [] == f.bytes;
  }

  // What the loop leaves behind: nothing if nothing was taken, and else the bytes taken, behind a hole if the
  // descriptor stood past the end of the file.
  lemma {:induction false} WriteLoopWrites(f: File, data: Bytes, from: nat, script: seq<WriteResult>)
    requires AtOrPast(f) && from <= |data|
    ensures var (f1, total, _) := WriteLoop(f, data, from, script);
            if total == from then f1 == f
            else && f1.bytes == f.bytes + Repeat<byte>(0, Gap(f)) + data[from..total]
                 && f1.offset == |f1.bytes| && f1.append == f.append
    decreases |script|
  {
    hide WriteBytes, Repeat;
    if from < |data| && script != [] {
      match script[0]
      case Interrupted => WriteLoopWrites(f, data, from, script[1..]);
      case Failed =>
      case Wrote(n) =>
        var k := if n <= |data| - from then n else |data| - from;
        var piece := data[from..from + k];
        WriteNothing(f);
        if k == 0 {
          assert piece == [];
          WriteLoopWrites(f, data, from, script[1..]);
        } else {
          WriteFurther(f, piece);
          WriteLoopWrites(WriteBytes(f, piece), data, from + k, script[1..]);
          NoZeros();
          var total := WriteLoop(f, data, from, script).1;
          Pieces(f.bytes + Repeat<byte>(0, Gap(f)), data, from, from + k, total);
        }
    }
  }

  lemma WriteNothing(f: File)
    ensures WriteBytes(f, []) == f
  {}

  lemma NoZeros()
    ensures Repeat<byte>(0, 0) == []
  {}

  lemma Pieces(before: Bytes, data: Bytes, i: nat, j: nat, k: nat)
    requires i <= j <= k <= |data|
    ensures before + data[i..j] + [] + data[j..k] == before + data[i..k]
    ensures j == k ==> before + data[i..j] == before + data[i..k]
  {}

  lemma WriteLoopAppends(f: File, data: Bytes, from: nat, script: seq<WriteResult>)
    requires Aligned(f) && from <= |data|
    ensures var (f1, total, _) := WriteLoop(f, data, from, script);
            && Aligned(f1) && f1.append == f.append && f1.bytes == f.bytes + data[from..total]
  {
    hide WriteLoop, Repeat;
    WriteLoopWrites(f, data, from, script);
    NoZeros();
    assert f.bytes + [] == f.bytes;
    assert data[from..from] == [];
  }

  // One flush that starts aligned: whatever the system calls return, nothing is lost or duplicated.
  lemma FlushConserves(w: Writer, all: Bytes, postpone: bool, script: seq<WriteResult>, truncateWorks: bool)
    requires Sound(w, all) && Aligned(w.file)
    ensures var w1 := Flush(w, postpone, script, truncateWorks);
            && w1.file.append == w.file.append
            && (w1.running ==> Sound(w1, all))
            && w.file.bytes <= w1.file.bytes <= all
  {
    WriteLoopAppends(w.file, w.buf, 0, script);
    hide WriteLoop, Repeat, WriteBytes, Truncate;
    var (f, total, ending) := WriteLoop(w.file, w.buf, 0, script);
    var head, tail := w.buf[..total], w.buf[total..];
    assert head + tail == w.buf;
    assert f.bytes == w.file.bytes + head;
    assert w.file.bytes + head + tail == all;
    TruncateBack(f, w.file.bytes, head);
    if ending.Finished? {
      assert head == w.buf && tail == [];
      assert f.bytes + [] == f.bytes;
    }
  }

  // After a flush that was not put off, writes are refused exactly when something is left to write; and the size that
  // is remembered grows by what has left the buffer.
  lemma FlushStatus(w: Writer, postpone: bool, script: seq<WriteResult>, truncateWorks: bool)
    ensures var t := Flush(w, postpone, script, truncateWorks);
            && (!w.running || w.buf == [] || postpone ==> t == w)
            && (w.running && w.buf != [] && !postpone && t.running ==> (t.failed <==> t.buf != []))
            && (t.running ==> |t.buf| <= |w.buf| && t.buf == w.buf[|w.buf| - |t.buf|..]
                              && t.lastSize == w.lastSize + (|w.buf| - |t.buf|))
  {
    hide WriteLoop;
  }

  lemma TruncateBack(f: File, before: Bytes, more: Bytes)
    requires f.bytes == before + more
    ensures Truncate(f, |before|) == f.(bytes := before)
  {}

  datatype Event =
    | Feed(bytes: Bytes)
    | FlushEvent(postpone: bool, script: seq<WriteResult>, truncateWorks: bool)

  function Step(w: Writer, e: Event): Writer
  {
    if !w.running then w
    else match e
         case Feed(bytes) => w.(buf := w.buf + bytes)
         case FlushEvent(postpone, script, truncateWorks) => Flush(w, postpone, script, truncateWorks)
  }

  function Run(w: Writer, events: seq<Event>): Writer
  {
    if events == [] then w else Step(Run(w, events[..|events| - 1]), events[|events| - 1])
  }

  // What has been fed by `events`, up to the event that stopped the process.
  function AllFed(w: Writer, events: seq<Event>): Bytes
  {
    if events == [] then []
    else
      var n := |events| - 1;
      AllFed(w, events[..n]) + if Run(w, events[..n]).running && events[n].Feed? then events[n].bytes else []
  }

  // Every run on an O_APPEND descriptor: the file followed by the buffer is what the file held at the start followed
  // by everything fed since; if the process stops inside a write, the file holds a beginning of that.
  lemma {:induction false} AppendRunConserves(w: Writer, all: Bytes, events: seq<Event>)
    requires w.running && Sound(w, all) && w.file.append
    ensures var w1 := Run(w, events);
            && w1.file.append
            && (w1.running ==> Sound(w1, all + AllFed(w, events)))
            && w.file.bytes <= w1.file.bytes <= all + AllFed(w, events)
    decreases |events|
  {
    hide Flush;
    if events != [] {
      var n := |events| - 1;
      AppendRunConserves(w, all, events[..n]);
      var w1, fed := Run(w, events[..n]), all + AllFed(w, events[..n]);
      if w1.running {
        match events[n]
        case Feed(bytes) =>
          assert w1.file.bytes + (w1.buf + bytes) == fed + bytes == all + AllFed(w, events);
        case FlushEvent(postpone, script, truncateWorks) =>
          FlushConserves(w1, fed, postpone, script, truncateWorks);
          assert fed == all + AllFed(w, events);
      } else {
        assert fed == all + AllFed(w, events);
      }
    }
  }

  // A descriptor opened without O_APPEND (openNewIncrAofForAppend) keeps its offset across ftruncate, so after a
  // short write that was taken back its next write leaves a hole.
  lemma TruncateMisaligns(w: Writer, all: Bytes, script: seq<WriteResult>)
    requires w.running && Sound(w, all) && !w.file.append && Aligned(w.file) && w.buf != []
    requires var (_, total, ending) := WriteLoop(w.file, w.buf, 0, script); ending.Error? && total > 0
    ensures var w1 := Flush(w, false, script, true);
            Sound(w1, all) && w1.file.offset > |w1.file.bytes| && !Aligned(w1.file)
  {
    WriteLoopAppends(w.file, w.buf, 0, script);
    hide WriteLoop;
    FlushConserves(w, all, false, script, true);
  }

  // One flush, from wherever the descriptor stands: it is sound if and only if the descriptor stood at the end of the
  // file or nothing left the buffer.
  lemma FlushExact(w: Writer, all: Bytes, postpone: bool, script: seq<WriteResult>, truncateWorks: bool)
    requires w.running && Sound(w, all) && AtOrPast(w.file)
    ensures var w1 := Flush(w, postpone, script, truncateWorks);
            && AtOrPast(w1.file)
            && (w1.running ==> (Sound(w1, all) <==> Aligned(w.file) || w1.buf == w.buf))
  {
    hide WriteLoop, Repeat, Truncate;
    WriteLoopWrites(w.file, w.buf, 0, script);
    var (f, total, ending) := WriteLoop(w.file, w.buf, 0, script);
    ZerosLength(Gap(w.file));
    TruncateBack(w.file, w.file.bytes, []);
    if total > 0 {
      TruncateBack(f, w.file.bytes, Repeat<byte>(0, Gap(w.file)) + w.buf[..total]);
      assert f.bytes == w.file.bytes + (Repeat<byte>(0, Gap(w.file)) + w.buf[..total]);
    }
    if Aligned(w.file) {
      FlushConserves(w, all, postpone, script, truncateWorks);
    }
  }

  lemma ZerosLength(n: nat)
    ensures |Repeat<byte>(0, n)| == n
  {}

  // A flush that starts at the end of the file leaves the descriptor past it exactly when a short write was taken back
  // on a descriptor without O_APPEND.
  lemma MisalignedExactly(w: Writer, all: Bytes, postpone: bool, script: seq<WriteResult>, truncateWorks: bool)
    requires w.running && Sound(w, all) && Aligned(w.file)
    ensures var (w1, (_, total, ending)) :=
              (Flush(w, postpone, script, truncateWorks), WriteLoop(w.file, w.buf, 0, script));
            w1.running ==>
              (Aligned(w1.file) <==> w.file.append || postpone || !(ending.Error? && total > 0 && truncateWorks))
  {
    hide WriteLoop, Repeat;
    WriteLoopWrites(w.file, w.buf, 0, script);
    NoZeros();
  }

  // Whether event `k` moves bytes from the buffer to the file with the descriptor past the end of the file.
  predicate HoleAt(w: Writer, events: seq<Event>, k: nat)
    requires k < |events|
  {
    var v := Run(w, events[..k]);
    var v1 := Step(v, events[k]);
    events[k].FlushEvent? && v1.running && v1.buf != v.buf && !Aligned(v.file)
  }

  predicate SoundAt(w: Writer, all: Bytes, events: seq<Event>, k: nat)
    requires k <= |events|
  {
    Run(w, events[..k]).running ==> Sound(Run(w, events[..k]), all + AllFed(w, events[..k]))
  }

  // Every run, on any descriptor: no byte is lost or duplicated at any point if and only if no flush moves bytes while
  // the descriptor stands past the end of the file, where a short write that was taken back has left it.
  lemma {:induction false} RunConservesExactly(w: Writer, all: Bytes, events: seq<Event>)
    requires w.running && Sound(w, all) && AtOrPast(w.file)
    ensures (forall k | 0 <= k <= |events| :: SoundAt(w, all, events, k)) <==>
            (forall k | 0 <= k < |events| :: !HoleAt(w, events, k))
    ensures (forall k | 0 <= k <= |events| :: SoundAt(w, all, events, k)) ==> AtOrPast(Run(w, events).file)
    decreases |events|
  {
    hide Flush, Sound, Aligned, AtOrPast;
    var n := |events| - 1;
    if events == [] {
      assert events[..0] == [];
      assert all + [] == all;
      assert SoundAt(w, all, events, 0);
    } else {
      RunConservesExactly(w, all, events[..n]);
      forall k | 0 <= k <= n
        ensures SoundAt(w, all, events, k) == SoundAt(w, all, events[..n], k)
        ensures k < n ==> HoleAt(w, events, k) == HoleAt(w, events[..n], k)
      {
        assert events[..n][..k] == events[..k];
      }
      if forall k | 0 <= k <= n :: SoundAt(w, all, events[..n], k) {
        LastStep(w, all, events);
      }
      if forall k | 0 <= k <= |events| :: SoundAt(w, all, events, k) {
        forall k | 0 <= k <= n
          ensures SoundAt(w, all, events[..n], k)
        {
          assert SoundAt(w, all, events, k);
        }
      }
    }
  }

  lemma LastStep(w: Writer, all: Bytes, events: seq<Event>)
    requires events != [] && AtOrPast(Run(w, events[..|events| - 1]).file)
    requires SoundAt(w, all, events[..|events| - 1], |events| - 1)
    ensures SoundAt(w, all, events, |events|) <==> !HoleAt(w, events, |events| - 1)
    ensures AtOrPast(Run(w, events).file)
  {
    hide Flush, Aligned;
    var n := |events| - 1;
    assert events[..|events|] == events && events[..n][..n] == events[..n];
    var (v, fed) := (Run(w, events[..n]), all + AllFed(w, events[..n]));
    if v.running {
      match events[n]
      case Feed(bytes) =>
        assert v.file.bytes + (v.buf + bytes) == fed + bytes == all + AllFed(w, events);
      case FlushEvent(postpone, script, truncateWorks) =>
        assert all + AllFed(w, events) == fed;
        FlushExact(v, fed, postpone, script, truncateWorks);
    } else {
      assert all + AllFed(w, events) == fed;
    }
  }

  // For example a one-byte write of two that is taken back, followed by a write that works.
  lemma HoleExample()
    ensures var w := Writer(File([], 0, false), [1, 2], 0, false, true);
            var short := FlushEvent(false, [Wrote(1), Failed], true);
            var full := FlushEvent(false, [Wrote(2)], true);
            && Sound(w, [1, 2]) && Aligned(w.file)
            && Run(w, [short, full]) == Writer(File([0, 1, 2], 3, false), [], 2, false, true)
            && !Sound(Run(w, [short, full]), [1, 2])
  {
    var w := Writer(File([], 0, false), [1, 2], 0, false, true);
    var short := FlushEvent(false, [Wrote(1), Failed], true);
    var full := FlushEvent(false, [Wrote(2)], true);
    var f1 := File([1], 1, false);
    assert [Wrote(1), Failed][1..] == [Failed] && [Wrote(2)][1..] == [];
    assert [1, 2][0..1] == [1] && [1, 2][0..2] == [1, 2];
    assert WriteBytes(w.file, [1]) == f1;
    assert WriteLoop(f1, [1, 2], 1, [Failed]) == (f1, 1, Error);
    assert WriteLoop(w.file, [1, 2], 0, [Wrote(1), Failed]) == (f1, 1, Error);
    var w1 := Writer(File([], 1, false), [1, 2], 0, true, true);
    assert Step(w, short) == w1;
    var f2 := File([0, 1, 2], 3, false);
    assert WriteBytes(w1.file, [1, 2]) == f2 by {
      assert Repeat<byte>(0, 1) == [0];
      assert [0][..1] == [0] && [] + [0] == [0];
    }
    assert WriteLoop(w1.file, [1, 2], 0, [Wrote(2)]) == (f2, 2, Finished);
    assert Step(w1, full) == Writer(f2, [], 2, false, true);
    assert [short, full][..1] == [short] && [short][..0] == [];
    assert Run(w, [short]) == Step(Run(w, []), short);
  }

  // Every possible outcome of the next flush is sound exactly when the descriptor writes at the end of the file or
  // there is nothing to write.
  lemma SafeToFlush(w: Writer, all: Bytes)
    requires w.running && Sound(w, all)
    ensures (forall postpone, script, truncateWorks ::
               Flush(w, postpone, script, truncateWorks).running ==>
               Sound(Flush(w, postpone, script, truncateWorks), all)) <==> Aligned(w.file) || w.buf == []
  {
    hide Flush, Sound, Aligned;
    if Aligned(w.file) {
      forall postpone, script, truncateWorks | Flush(w, postpone, script, truncateWorks).running
        ensures Sound(Flush(w, postpone, script, truncateWorks), all)
      {
        FlushConserves(w, all, postpone, script, truncateWorks);
      }
    } else if w.buf == [] {
      forall postpone, script, truncateWorks
        ensures Flush(w, postpone, script, truncateWorks) == w
      {
        FlushNothing(w, postpone, script, truncateWorks);
      }
    } else {
      FullWriteBreaks(w, all);
    }
  }

  lemma FlushNothing(w: Writer, postpone: bool, script: seq<WriteResult>, truncateWorks: bool)
    requires w.buf == []
    ensures Flush(w, postpone, script, truncateWorks) == w
  {}

  lemma FullWriteBreaks(w: Writer, all: Bytes)
    requires w.running && Sound(w, all) && !Aligned(w.file) && w.buf != []
    ensures var w1 := Flush(w, false, [Wrote(|w.buf|)], false);
            w1.running && !Sound(w1, all)
  {
    var n := |w.buf|;
    var script := [Wrote(n)];
    var f := WriteBytes(w.file, w.buf);
    assert w.buf[0..0 + n] == w.buf;
    assert script[1..] == [];
    assert WriteLoop(w.file, w.buf, 0, script) == (f, n, Finished);
  }

  // ---------- a crash at any moment loses only what was not flushed ----------

  lemma {:induction false} WholeUnitsMonotone(us: seq<AofLoader.Unit>, k: nat, n: nat)
    requires k <= |us| && |AofLoader.Log(us[..k])| <= n
    ensures AofLoader.WholeUnits(us, n) >= k
    decreases k
  {
    hide EncodeCommand, AofLoader.Commands;
    if k > 0 {
      var e := AofLoader.Commands(us[0]);
      assert us[..k][0] == us[0] && us[..k][1..] == us[1..][..k - 1];
      EncodeConcat(e, AofLoader.Flatten(us[1..][..k - 1]));
      hide Encode;
      WholeUnitsMonotone(us[1..], k - 1, n - |Encode(e)|);
    }
  }

  // If the log so far consists of whole units of which `k` had reached the file before `events`, then loading the file
  // after any of the events, crash included, runs the first units of the log, at least `k` of them, and nothing else.
  lemma CrashRecovers(
      lookup: AofLoader.Lookup, w: Writer, events: seq<Event>, us: seq<AofLoader.Unit>, k: nat)
    requires w.running && w.file.append && Sound(w, w.file.bytes + w.buf)
    requires AofLoader.AllWellFormed(lookup, us) && k <= |us|
    requires AofLoader.Log(us) == w.file.bytes + w.buf + AllFed(w, events)
    requires AofLoader.Log(us[..k]) <= w.file.bytes && w.file.bytes != []
    ensures var file := Run(w, events).file.bytes;
            var m := AofLoader.WholeUnits(us, |file|);
            && k <= m <= |us|
            && AofLoader.LoadFile(lookup, AofLoader.TRUNCATING, file).executed == AofLoader.Effects(us[..m])
  {
    hide Run, AllFed, AofLoader.Log, AofLoader.LoadFile, AofLoader.WholeUnits, AofLoader.Effects;
    AppendRunConserves(w, w.file.bytes + w.buf, events);
    var file := Run(w, events).file.bytes;
    assert file == AofLoader.Log(us)[..|file|];
    AofLoader.LoadCutLog(lookup, us, |file|);
    WholeUnitsMonotone(us, k, |file|);
  }
}
