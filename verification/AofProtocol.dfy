// The multi-file protocol of aof.c: rewriting the append-only file, committing it by renaming the manifest, and
// what is on disk after every system call.
//
// A dataset stands for the log that makes it, so a BASE file holding a snapshot is everything logged before it, and
// replaying files is concatenating them.
module AofProtocol {
  import opened Options
  import opened Repeats

  type Byte = nat
  type History = seq<Byte>

  datatype Name = Base(n: nat) | Incr(n: nat) | TempBase | TempIncr

  // The manifest file: BASE, INCR in order, HISTORY.
  datatype OnDisk = OnDisk(base: Option<nat>, incr: seq<nat>, history: seq<Name>)

  datatype Disk = Disk(files: map<Name, History>, manifest: OnDisk)

  // The manifest in memory, with the sequence numbers last used.
  datatype Manifest = Manifest(base: Option<nat>, incr: seq<nat>, history: seq<Name>, currBase: nat, currIncr: nat)

  datatype AofState = Off | WaitRewrite | On

  // What server.aof_fd refers to. A file that was unlinked while open is Detached.
  datatype Fd = NoFd | Open(name: Name) | Detached

  // `ahead` is how far past the end of its file the descriptor stands: taking back a short write does not move it. A
  // descriptor with `append`, opened with O_APPEND when the server starts, always writes at the end. `trace` is the
  // disk after every system call so far; `all` is every write executed; `durable` is what the log must replay to.
  datatype Server = Server(
    disk: Disk, trace: seq<Disk>, manifest: Manifest, state: AofState, fd: Fd, append: bool, ahead: nat, buf: History,
    child: Option<History>, all: History, durable: History)

  // ---------- what a disk replays to ----------

  function IncrNames(incr: seq<nat>): seq<Name> { seq(|incr|, i requires 0 <= i < |incr| => Incr(incr[i])) }

  function Live(m: OnDisk): seq<Name>
  {
    (if m.base.Some? then [Base(m.base.value)] else []) + IncrNames(m.incr)
  }

  predicate Exist(files: map<Name, History>, names: seq<Name>) { forall i | 0 <= i < |names| :: names[i] in files }

  function Replay(files: map<Name, History>, names: seq<Name>): History
    requires Exist(files, names)
  {
    if names == [] then [] else Replay(files, names[..|names| - 1]) + files[names[|names| - 1]]
  }

  // Every file the manifest names as live exists, and replaying them in order gives `h`.
  predicate Holds(d: Disk, h: History) { Exist(d.files, Live(d.manifest)) && Replay(d.files, Live(d.manifest)) == h }

  function Printed(m: Manifest): OnDisk { OnDisk(m.base, m.incr, m.history) }

  // ---------- system calls ----------

  function Sys(s: Server, d: Disk): Server { s.(disk := d, trace := s.trace + [d]) }

  function Put(s: Server, name: Name, content: History): Server
  {
    Sys(s, s.disk.(files := s.disk.files[name := content]))
  }

  function Rename(s: Server, from: Name, to: Name): Server
    requires from in s.disk.files
  {
    var s1 := Sys(s, s.disk.(files := s.disk.files[to := s.disk.files[from]] - {from}));
    s1.(fd := if s.fd == Open(from) then Open(to) else if s.fd == Open(to) then Detached else s.fd)
  }

  function Unlink(s: Server, name: Name): Server
  {
    var s1 := Sys(s, s.disk.(files := s.disk.files - {name}));
    s1.(fd := if s.fd == Open(name) then Detached else s.fd)
  }

  // writeAofManifestFile: the rename is the commit point; the directory sync after it can still fail.
  datatype PersistResult = PersistOk | FailBeforeRename | FailAfterRename

  function Persist(s: Server, m: Manifest, r: PersistResult): Server
  {
    if r.FailBeforeRename? then s else Sys(s, s.disk.(manifest := Printed(m)))
  }

  // ---------- manifest operations ----------

  // getNewBaseFileNameAndMarkPreAsHistory
  function NewBase(m: Manifest): Manifest
  {
    m.(history := (if m.base.Some? then [Base(m.base.value)] else []) + m.history,
       base := Some(m.currBase + 1), currBase := m.currBase + 1)
  }

  // getNewIncrAofName
  function NewIncr(m: Manifest): Manifest { m.(incr := m.incr + [m.currIncr + 1], currIncr := m.currIncr + 1) }

  // markRewrittenIncrAofAsHistory: walking from the tail, every INCR but the one being written goes to the head of
  // the history.
  function MarkRewritten(m: Manifest, writing: bool): Manifest
  {
    var keep := if writing && m.incr != [] then 1 else 0;
    var n := |m.incr| - keep;
    m.(incr := m.incr[n..], history := IncrNames(m.incr[..n]) + m.history)
  }

  // ---------- operations ----------

  function WriteCommand(s: Server, w: History): Server
  {
    s.(all := s.all + w,
       buf := if s.state == On || (s.state == WaitRewrite && s.child.Some?) then s.buf + w else s.buf)
  }

  // What writing the first `k` bytes of the buffer adds to the file: a descriptor past the end leaves a hole.
  function Landed(s: Server, k: nat): History
    requires k <= |s.buf|
  {
    if k == 0 || s.ahead == 0 then s.buf[..k] else Repeat<Byte>(0, s.ahead) + s.buf[..k]
  }

  // flushAppendOnlyFile managing to write the first `k` bytes of the buffer.
  function Flush(s: Server, k: nat): Server
    requires k <= |s.buf|
  {
    var s1 :=
      if s.fd.Open? && s.fd.name in s.disk.files then Put(s, s.fd.name, s.disk.files[s.fd.name] + Landed(s, k)) else s;
    s1.(buf := s.buf[k..], durable := if s.state == On then s.durable + s.buf[..k] else s.durable,
        ahead := if k == 0 then s.ahead else 0)
  }

  // flushAppendOnlyFile writing only `n` bytes and taking them back with ftruncate.
  function ShortFlush(s: Server, n: nat): Server
    requires n <= |s.buf|
  {
    if s.fd.Open? && s.fd.name in s.disk.files then
      var before := s.disk.files[s.fd.name];
      var t := Put(Put(s, s.fd.name, before + Landed(s, n)), s.fd.name, before);
      t.(ahead := if s.append then s.ahead else s.ahead + n)
    else s
  }

  // openNewIncrAofForAppend; the flag says whether it returns C_OK.
  function OpenNewIncr(s: Server, openOk: bool, r: PersistResult): (Server, bool)
  {
    match s.state
    case Off => (s, true)
    case WaitRewrite =>
      if !openOk then (s, false) else (Put(s, TempIncr, []).(fd := Open(TempIncr), append := false, ahead := 0), true)
    case On =>
      var m := NewIncr(s.manifest);
      if !openOk then (s, false)
      else
        var s1 := Persist(Put(s, Incr(m.currIncr), []), m, r);
        if r.PersistOk? then (s1.(fd := Open(Incr(m.currIncr)), append := false, ahead := 0, manifest := m), true)
        else (s1, false)
  }

  // rewriteAppendOnlyFileBackground, the forced flush writing `k` bytes.
  function BgRewrite(s: Server, k: nat, openOk: bool, r: PersistResult, forkOk: bool): Server
    requires k <= |s.buf|
  {
    if s.child.Some? then s
    else
      var (s1, ok) := OpenNewIncr(Flush(s, k), openOk, r);
      if ok && forkOk then s1.(child := Some(s1.all)) else s1
  }

  function UnlinkAll(s: Server, names: seq<Name>): Server
    decreases |names|
  {
    if names == [] then s else UnlinkAll(Unlink(s, names[0]), names[1..])
  }

  // aofDelHistoryFiles
  function DelHistory(s: Server, gc: bool, r: PersistResult): Server
  {
    if !gc || s.manifest.history == [] then s
    else
      var m := s.manifest.(history := []);
      Persist(UnlinkAll(s, s.manifest.history).(manifest := m), m, r)
  }

  // What the calls made while finishing a rewrite return. `gc` is auto garbage collection of history files.
  datatype Outcome = Outcome(
    written: bool, renameBase: bool, renameIncr: bool, persist: PersistResult, gc: bool, persistHistory: PersistResult)

  // The common end of a failed and of a successful backgroundRewriteDoneHandler.
  function Cleanup(s: Server): Server
  {
    var s1 := Unlink(s, TempBase).(child := None);
    if s.state == WaitRewrite then Unlink(s1, TempIncr).(buf := []) else s1
  }

  // From the finished snapshot in TempBase to the committed manifest. The flag says whether it was committed.
  function Adopt(s: Server, snapshot: History, o: Outcome): (Server, bool)
    requires TempBase in s.disk.files
  {
    var m1 := NewBase(s.manifest);
    if !o.renameBase then (s, false)
    else
      var base := Base(m1.currBase);
      var s1 := Rename(s, TempBase, base);
      if s.state == WaitRewrite && !(o.renameIncr && TempIncr in s1.disk.files) then (Unlink(s1, base), false)
      else
        var m2 := if s.state == WaitRewrite then NewIncr(m1) else m1;
        var incr := Incr(m2.currIncr);
        var s2 := if s.state == WaitRewrite then Rename(s1, TempIncr, incr) else s1;
        var m3 := MarkRewritten(m2, !s2.fd.NoFd?);
        var s3 := Persist(s2, m3, o.persist);
        if !o.persist.PersistOk? then
          var s4 := Unlink(s3, base);
          (if s.state == WaitRewrite then Unlink(s4, incr) else s4, false)
        else
          var durable := match s.state
                         case On => s.durable
                         case WaitRewrite => snapshot + s2.disk.files[incr]
                         case Off => snapshot;
          (DelHistory(s3.(manifest := m3, durable := durable), o.gc, o.persistHistory), true)
  }

  // backgroundRewriteDoneHandler
  function RewriteDone(s: Server, o: Outcome): Server
    requires s.child.Some?
  {
    if !o.written then Cleanup(s)
    else
      var (s1, ok) := Adopt(Put(s, TempBase, s.child.value), s.child.value, o);
      if ok && s.state == WaitRewrite then Cleanup(s1.(state := On)) else Cleanup(s1)
  }

  // startAppendOnly in a build without fork: everything above in one call.
  function StartAppendOnly(s: Server, openOk: bool, o: Outcome): Server
    requires s.state == Off && s.child.None?
  {
    var (s1, ok) := OpenNewIncr(s.(state := WaitRewrite), openOk, PersistOk);
    if !ok then s1.(state := Off)
    else if !o.written then Unlink(s1.(state := Off), TempIncr)
    else
      var (s2, committed) := Adopt(Put(s1, TempBase, s.all), s.all, o);
      if committed then s2.(state := On, buf := []) else Unlink(s2.(state := Off), TempIncr)
  }

  // startAppendOnly where fork exists: the rewrite goes on in the background, and failing to start it is an error. A
  // rewrite that is running is killed, since it has not been filling the buffer.
  function StartAppendOnlyFork(s: Server, openOk: bool, forkOk: bool): Server
    requires s.state == Off
  {
    var s1 := BgRewrite(s.(state := WaitRewrite, child := None), 0, openOk, PersistOk, forkOk);
    if s1.child.Some? then s1 else s1.(state := Off)
  }

  // startAppendOnly while another kind of child is running, or inside a transaction: the rewrite is left for later.
  function StartAppendOnlyLater(s: Server): Server
    requires s.state == Off
  {
    s.(state := WaitRewrite)
  }

  // stopAppendOnly, the forced flush writing `k` bytes; a running child is killed.
  function StopAppendOnly(s: Server, k: nat): Server
    requires s.state != Off && k <= |s.buf|
  {
    Flush(s, k).(fd := NoFd, ahead := 0, state := Off, child := None, buf := [])
  }

  // ---------- files that the manifest does not name ----------

  lemma {:induction false} ReplaySame(f: map<Name, History>, g: map<Name, History>, names: seq<Name>)
    requires Exist(f, names) && forall i | 0 <= i < |names| :: names[i] in g && g[names[i]] == f[names[i]]
    ensures Exist(g, names) && Replay(g, names) == Replay(f, names)
  {
    if names != [] {
      ReplaySame(f, g, names[..|names| - 1]);
    }
  }

  // A system call that leaves the manifest and its live files alone leaves the replay alone.
  lemma Untouched(d: Disk, e: Disk, h: History)
    requires Holds(d, h) && e.manifest.base == d.manifest.base && e.manifest.incr == d.manifest.incr
    requires forall i | 0 <= i < |Live(d.manifest)| ::
               var n := Live(d.manifest)[i]; n in e.files && e.files[n] == d.files[n]
    ensures Holds(e, h)
  {
    assert Live(e.manifest) == Live(d.manifest);
    ReplaySame(d.files, e.files, Live(d.manifest));
  }

  lemma {:induction false} ReplayConcat(f: map<Name, History>, a: seq<Name>, b: seq<Name>)
    requires Exist(f, a) && Exist(f, b)
    ensures Exist(f, a + b) && Replay(f, a + b) == Replay(f, a) + Replay(f, b)
    decreases |b|
  {
    if b == [] {
      assert a + b == a;
    } else {
      var n := |b| - 1;
      assert (a + b)[..|a + b| - 1] == a + b[..n];
      ReplayConcat(f, a, b[..n]);
    }
  }

  // ---------- the invariant ----------

  predicate Ordered(m: Manifest)
  {
    && (m.base.Some? ==> m.base.value == m.currBase)
    && (forall i | 0 <= i < |m.incr| :: m.incr[i] <= m.currIncr)
    && (m.incr != [] ==> m.incr[|m.incr| - 1] == m.currIncr)
    && (forall i, j | 0 <= i < j < |m.incr| :: m.incr[i] < m.incr[j])
    && forall i | 0 <= i < |m.history| :: Retired(m, m.history[i])
  }

  // A history name: used up, and not live.
  predicate Retired(m: Manifest, n: Name)
  {
    || (n.Base? && n.n <= m.currBase && m.base != Some(n.n))
    || (n.Incr? && n.n <= m.currIncr && n.n !in m.incr)
  }

  predicate Agree(s: Server)
  {
    s.disk.manifest.base == s.manifest.base && s.disk.manifest.incr == s.manifest.incr
  }

  function LastIncr(m: Manifest): Name
    requires m.incr != []
  {
    Incr(m.incr[|m.incr| - 1])
  }

  function LastIncrContent(s: Server): History
    requires s.manifest.incr != []
  {
    if LastIncr(s.manifest) in s.disk.files then s.disk.files[LastIncr(s.manifest)] else []
  }

  predicate Inv(s: Server)
  {
    && Holds(s.disk, s.durable) && Ordered(s.manifest) && Agree(s)
    && match s.state
       case Off => s.buf == []
       case WaitRewrite =>
         if s.child.Some? then
           && s.fd == Open(TempIncr) && TempIncr in s.disk.files
           && s.all == s.child.value + s.disk.files[TempIncr] + s.buf
         else s.buf == []
       case On =>
         && s.manifest.incr != [] && s.fd == Open(LastIncr(s.manifest)) && s.all == s.durable + s.buf
         && LastIncr(s.manifest) in s.disk.files
         && (s.child.Some? ==> s.durable == s.child.value + s.disk.files[LastIncr(s.manifest)])
  }

  // After every system call from `s` to `t` the disk replays to what was durable before, or to what is after.
  predicate CrashSafe(s: Server, t: Server)
  {
    && s.trace <= t.trace
    && forall i | |s.trace| <= i < |t.trace| :: Holds(t.trace[i], s.durable) || Holds(t.trace[i], t.durable)
  }

  lemma LiveNames(m: Manifest, n: Name)
    ensures n in Live(Printed(m)) <==> (n.Base? && m.base == Some(n.n)) || (n.Incr? && n.n in m.incr)
  {
    var live := Live(Printed(m));
    var b := if m.base.Some? then 1 else 0;
    if n.Incr? && n.n in m.incr {
      var i :| 0 <= i < |m.incr| && m.incr[i] == n.n;
      assert live[b + i] == n;
    }
    if n.Base? && m.base == Some(n.n) {
      assert live[0] == n;
    }
  }

  lemma LiveAgree(s: Server, n: Name)
    requires Agree(s)
    ensures n in Live(s.disk.manifest) <==>
            (n.Base? && s.manifest.base == Some(n.n)) || (n.Incr? && n.n in s.manifest.incr)
    ensures Live(s.disk.manifest) == Live(Printed(s.manifest))
  {
    assert Live(s.disk.manifest) == Live(Printed(s.manifest));
    LiveNames(s.manifest, n);
  }

  // ---------- writes and flushes ----------

  lemma WriteKeeps(s: Server, w: History)
    requires Inv(s)
    ensures Inv(WriteCommand(s, w)) && CrashSafe(s, WriteCommand(s, w))
  {
    hide Holds, Ordered;
    match s.state {
      case Off =>
      case WaitRewrite =>
        if s.child.Some? {
          Regroup(s.child.value + s.disk.files[TempIncr], s.buf, w);
        }
      case On => Regroup(s.durable, s.buf, w);
    }
  }

  // A flush whose descriptor stands at the end of its file.
  lemma FlushKeeps(s: Server, k: nat)
    requires Inv(s) && k <= |s.buf| && (k == 0 || s.ahead == 0)
    ensures Inv(Flush(s, k)) && CrashSafe(s, Flush(s, k))
  {
    hide Inv, CrashSafe;
    match s.state {
      case Off => FlushOff(s, k);
      case WaitRewrite => FlushWaiting(s, k);
      case On => FlushLast(s, k);
    }
  }

  lemma FlushOff(s: Server, k: nat)
    requires Inv(s) && k <= |s.buf| && s.state == Off
    ensures Inv(Flush(s, k)) && CrashSafe(s, Flush(s, k))
  {
    hide Ordered;
    FlushNone(s, k);
  }

  lemma FlushWaiting(s: Server, k: nat)
    requires Inv(s) && k <= |s.buf| && (k == 0 || s.ahead == 0) && s.state == WaitRewrite
    ensures Inv(Flush(s, k)) && CrashSafe(s, Flush(s, k))
  {
    hide Ordered, Holds;
    if s.child.None? {
      FlushNone(s, k);
    } else {
      Regroup(s.child.value, s.disk.files[TempIncr], s.buf[..k]);
      SplitBuffer(s.child.value + s.disk.files[TempIncr], s.buf, k);
      PutKeeps(s, TempIncr, s.disk.files[TempIncr] + s.buf[..k]);
    }
  }

  lemma FlushNone(s: Server, k: nat)
    requires Inv(s) && s.buf == [] && k == 0 && s.state != On
    ensures Inv(Flush(s, k)) && CrashSafe(s, Flush(s, k))
  {
    hide Ordered, Holds;
    var t := Flush(s, k);
    if s.fd.Open? && s.fd.name in s.disk.files {
      assert s.disk.files[s.fd.name] + [] == s.disk.files[s.fd.name];
      assert t.disk.files == s.disk.files;
    }
  }

  // The file being written is the last one replayed.
  lemma FlushLast(s: Server, k: nat)
    requires Inv(s) && k <= |s.buf| && (k == 0 || s.ahead == 0) && s.state == On
    ensures Inv(Flush(s, k)) && CrashSafe(s, Flush(s, k))
  {
    hide Ordered, Holds, Live, Flush;
    FlushLastIs(s, k);
    LastIsNew(s);
    AppendLast(s.disk, LastIncr(s.manifest), s.buf[..k], s.durable);
    SplitBuffer(s.durable, s.buf, k);
    if s.child.Some? {
      Regroup(s.child.value, s.disk.files[LastIncr(s.manifest)], s.buf[..k]);
    }
  }

  lemma SplitBuffer(durable: History, buf: History, k: nat)
    requires k <= |buf|
    ensures durable + buf[..k] + buf[k..] == durable + buf
  {}

  lemma Regroup(a: History, b: History, c: History)
    ensures a + b + c == a + (b + c)
  {}

  lemma FlushLastIs(s: Server, k: nat)
    requires s.state == On && s.manifest.incr != [] && s.fd == Open(LastIncr(s.manifest))
    requires LastIncr(s.manifest) in s.disk.files && k <= |s.buf| && (k == 0 || s.ahead == 0)
    ensures var last := LastIncr(s.manifest);
            var d := s.disk.(files := s.disk.files[last := s.disk.files[last] + s.buf[..k]]);
            Flush(s, k) == s.(disk := d, trace := s.trace + [d], buf := s.buf[k..], durable := s.durable + s.buf[..k],
                              ahead := if k == 0 then s.ahead else 0)
  {}

  // With the append-only file on, a flush leaves what is durable on disk if and only if it writes nothing or its
  // descriptor stands at the end of its file.
  lemma FlushExactly(s: Server, k: nat)
    requires Inv(s) && s.state == On && k <= |s.buf|
    ensures var t := Flush(s, k);
            Holds(t.disk, t.durable) <==> k == 0 || s.ahead == 0
  {
    hide Ordered, Holds, Live;
    var t := Flush(s, k);
    LastIsNew(s);
    AppendLast(s.disk, LastIncr(s.manifest), Landed(s, k), s.durable);
    HoldsOne(t.disk, s.durable + Landed(s, k), s.durable + s.buf[..k]);
    assert |s.durable + Landed(s, k)| == |s.durable| + |Landed(s, k)|;
  }

  // A short write that is taken back: in between the disk holds a beginning of the buffer more.
  lemma ShortFlushKeeps(s: Server, n: nat)
    requires Inv(s) && n <= |s.buf| && (n == 0 || s.ahead == 0)
    ensures var t := ShortFlush(s, n);
            && Inv(t) && s.trace <= t.trace
            && forall i | |s.trace| <= i < |t.trace| ::
                 || Holds(t.trace[i], s.durable)
                 || (s.state == On && Holds(t.trace[i], s.durable + s.buf[..n]))
  {
    hide Ordered, Holds, Live;
    var t := ShortFlush(s, n);
    if s.fd.Open? && s.fd.name in s.disk.files {
      var before := s.disk.files[s.fd.name];
      assert s.disk.files[s.fd.name := before + s.buf[..n]][s.fd.name := before] == s.disk.files;
      assert t.disk == s.disk;
      match s.state {
        case Off => assert before + s.buf[..n] == before && s.disk.files[s.fd.name := before] == s.disk.files;
        case WaitRewrite =>
          if s.child.None? {
            assert before + s.buf[..n] == before && s.disk.files[s.fd.name := before] == s.disk.files;
          } else {
            PutKeeps(s, TempIncr, before + s.buf[..n]);
          }
        case On =>
          LastIsNew(s);
          AppendLast(s.disk, LastIncr(s.manifest), s.buf[..n], s.durable);
      }
    }
  }

  lemma AppendLast(d: Disk, last: Name, more: History, h: History)
    requires Holds(d, h) && last in d.files
    requires var live := Live(d.manifest);
             live != [] && live[|live| - 1] == last && forall i | 0 <= i < |live| - 1 :: live[i] != last
    ensures Holds(d.(files := d.files[last := d.files[last] + more]), h + more)
  {
    hide Live;
    var live := Live(d.manifest);
    var files := d.files[last := d.files[last] + more];
    ReplaySame(d.files, files, live[..|live| - 1]);
  }

  lemma LastIsNew(s: Server)
    requires Ordered(s.manifest) && Agree(s) && s.manifest.incr != []
    ensures var live := Live(s.disk.manifest);
            && live != [] && live[|live| - 1] == LastIncr(s.manifest)
            && forall i | 0 <= i < |live| - 1 :: live[i] != LastIncr(s.manifest)
  {}

  // ---------- opening a new INCR file ----------

  // Naming one more, empty, INCR file does not change the replay.
  lemma CommitIncr(s: Server, t: Server, m: Manifest)
    requires Holds(s.disk, s.durable) && Agree(s) && Ordered(s.manifest) && m == NewIncr(s.manifest)
    requires t.disk == Disk(s.disk.files[Incr(m.currIncr) := []], Printed(m))
    ensures Ordered(m) && Holds(t.disk, s.durable)
  {
    NewIncrOrdered(s.manifest);
    var live, name := Live(s.disk.manifest), Incr(m.currIncr);
    LiveAgree(s, name);
    LiveSnoc(s.disk.manifest, t.disk.manifest, m.currIncr);
    hide Ordered, Live, Agree;
    assert name !in live;
    ReplaySame(s.disk.files, t.disk.files, live);
    assert [name][..0] == [];
    ReplayConcat(t.disk.files, live, [name]);
    assert Replay(t.disk.files, [name]) == [];
  }

  lemma NewIncrOrdered(m: Manifest)
    requires Ordered(m)
    ensures Ordered(NewIncr(m)) && m.currIncr + 1 !in m.incr
  {}

  lemma LiveSnoc(m: OnDisk, m1: OnDisk, n: nat)
    requires m1.base == m.base && m1.incr == m.incr + [n]
    ensures Live(m1) == Live(m) + [Incr(n)]
  {}

  lemma PutKeeps(s: Server, n: Name, content: History)
    requires Holds(s.disk, s.durable) && Agree(s)
    requires NotLive(s.manifest, n)
    ensures Holds(Put(s, n, content).disk, s.durable)
  {
    LiveAgree(s, n);
    Untouched(s.disk, Put(s, n, content).disk, s.durable);
  }

  lemma OpenKeeps(s: Server, openOk: bool, r: PersistResult)
    requires Inv(s) && s.child.None? && !r.FailAfterRename?
    ensures var (t, ok) := OpenNewIncr(s, openOk, r);
            && Inv(t) && CrashSafe(s, t) && t.durable == s.durable
            && t.buf == s.buf && t.all == s.all && t.state == s.state
            && (ok && s.state == On ==>
                  LastIncr(t.manifest) in t.disk.files && t.disk.files[LastIncr(t.manifest)] == [])
            && (ok && s.state == WaitRewrite ==> t.fd == Open(TempIncr) && TempIncr in t.disk.files
                                                 && t.disk.files[TempIncr] == [])
            && t.child.None?
  {
    hide Ordered, Holds;
    if openOk {
      match s.state {
        case Off =>
        case WaitRewrite => PutKeeps(s, TempIncr, []);
        case On =>
          var m := NewIncr(s.manifest);
          NewIncrFree(s.manifest);
          var s1 := Put(s, Incr(m.currIncr), []);
          PutKeeps(s, Incr(m.currIncr), []);
          CommitIncr(s, Persist(s1, m, PersistOk), m);
      }
    }
  }

  lemma NewIncrFree(m: Manifest)
    requires Ordered(m)
    ensures m.currIncr + 1 !in m.incr
  {}

  // Even when only the directory sync fails, the new INCR file on disk is empty and nothing is lost yet.
  lemma OpenFailAfterHolds(s: Server)
    requires Inv(s) && s.child.None? && s.state == On
    ensures var (t, ok) := OpenNewIncr(s, true, FailAfterRename);
            !ok && t.manifest == s.manifest && t.fd == s.fd && Holds(t.disk, t.durable)
  {
    var m := NewIncr(s.manifest);
    CommitIncr(s, Persist(Put(s, Incr(m.currIncr), []), m, FailAfterRename), m);
  }

  // A rewrite that starts with an empty buffer (the forced flush wrote all of it) keeps the invariant.
  lemma BgRewriteKeeps(s: Server, k: nat, openOk: bool, r: PersistResult, forkOk: bool)
    requires Inv(s) && k <= |s.buf| && !r.FailAfterRename? && (s.child.None? ==> k == 0 || s.ahead == 0)
    requires s.state == On && s.child.None? ==> k == |s.buf|
    ensures var t := BgRewrite(s, k, openOk, r, forkOk);
            Inv(t) && CrashSafe(s, t)
  {
    hide Ordered, Holds, Flush, OpenNewIncr, CrashSafe;
    if s.child.Some? {
      CrashSafeSelf(s);
    } else {
      FlushKeeps(s, k);
      FlushDrains(s, k);
      var s1 := Flush(s, k);
      OpenKeeps(s1, openOk, r);
      var s2 := OpenNewIncr(s1, openOk, r).0;
      CrashSafeTrans(s, s1, s2);
      SameTrace(s, s2, BgRewrite(s, k, openOk, r, forkOk));
      assert s1.durable + [] == s1.durable;
    }
  }

  lemma FlushDrains(s: Server, k: nat)
    requires k <= |s.buf|
    ensures var t := Flush(s, k);
            t.buf == s.buf[k..] && t.state == s.state && t.child == s.child && t.all == s.all
  {}

  // ---------- deleting history ----------

  predicate SameIncr(incr: seq<nat>, f: map<Name, History>, g: map<Name, History>)
  {
    forall i | 0 <= i < |incr| :: Incr(incr[i]) in f ==> Incr(incr[i]) in g && g[Incr(incr[i])] == f[Incr(incr[i])]
  }

  // Names of which no live file has one.
  predicate NoneLive(m: Manifest, names: seq<Name>) { forall i | 0 <= i < |names| :: NotLive(m, names[i]) }

  predicate NotLive(m: Manifest, n: Name)
  {
    !((n.Base? && m.base == Some(n.n)) || (n.Incr? && n.n in m.incr))
  }

  lemma {:induction false} UnlinkAllHolds(s: Server, names: seq<Name>)
    requires Holds(s.disk, s.durable) && Agree(s) && NoneLive(s.manifest, names)
    ensures var t := UnlinkAll(s, names);
            Holds(t.disk, s.durable) && Agree(t) && CrashSafe(s, t) && t.durable == s.durable
    decreases |names|
  {
    hide Holds, Agree, CrashSafe, Unlink;
    if names == [] {
      CrashSafeSelf(s);
    } else {
      var s1 := Unlink(s, names[0]);
      assert NotLive(s.manifest, names[0]);
      UnlinkSafe(s, names[0]);
      UnlinkAllHolds(s1, names[1..]);
      CrashSafeTrans(s, s1, UnlinkAll(s1, names[1..]));
    }
  }

  lemma CrashSafeSelf(s: Server)
    ensures CrashSafe(s, s)
  {}

  lemma {:induction false} UnlinkAllFiles(s: Server, names: seq<Name>)
    requires NoneLive(s.manifest, names)
    ensures var t := UnlinkAll(s, names);
            && t == s.(disk := t.disk, trace := t.trace, fd := t.fd) && t.disk.manifest == s.disk.manifest
            && SameIncr(s.manifest.incr, s.disk.files, t.disk.files)
            && (s.fd.Open? && s.fd.name.Incr? && s.fd.name.n in s.manifest.incr ==> t.fd == s.fd)
    decreases |names|
  {
    if names != [] {
      assert NotLive(s.manifest, names[0]);
      UnlinkAllFiles(Unlink(s, names[0]), names[1..]);
    }
  }

  lemma UnlinkKeeps(s: Server, n: Name)
    requires Holds(s.disk, s.durable) && Agree(s)
    requires NotLive(s.manifest, n)
    ensures Holds(Unlink(s, n).disk, s.durable) && Agree(Unlink(s, n))
  {
    LiveAgree(s, n);
    Untouched(s.disk, Unlink(s, n).disk, s.durable);
  }

  lemma DelHistoryKeeps(s: Server, gc: bool, r: PersistResult)
    requires Holds(s.disk, s.durable) && Agree(s) && Ordered(s.manifest)
    ensures var t := DelHistory(s, gc, r);
            && Holds(t.disk, s.durable) && Agree(t) && Ordered(t.manifest)
            && t == s.(disk := t.disk, trace := t.trace, fd := t.fd, manifest := t.manifest)
            && t.manifest.incr == s.manifest.incr
            && SameIncr(s.manifest.incr, s.disk.files, t.disk.files)
            && (s.fd.Open? && s.fd.name.Incr? && s.fd.name.n in s.manifest.incr ==> t.fd == s.fd)
            && CrashSafe(s, t)
  {
    hide UnlinkAll, SameIncr, Holds, Ordered;
    if gc && s.manifest.history != [] {
      HistoryRetired(s.manifest);
      UnlinkAllHolds(s, s.manifest.history);
      UnlinkAllFiles(s, s.manifest.history);
      var s1 := UnlinkAll(s, s.manifest.history);
      var m := s.manifest.(history := []);
      Renames(s1.disk, Printed(m), s.durable);
    } else {
      SameIncrHere(s.manifest.incr, s.disk.files);
    }
  }

  lemma HistoryRetired(m: Manifest)
    requires Ordered(m)
    ensures NoneLive(m, m.history) && Ordered(m.(history := []))
  {
    forall i | 0 <= i < |m.history|
      ensures NotLive(m, m.history[i])
    {
      assert Retired(m, m.history[i]);
    }
  }

  lemma SameIncrHere(incr: seq<nat>, f: map<Name, History>)
    ensures SameIncr(incr, f, f)
  {}

  // A manifest with the same live files.
  lemma Renames(d: Disk, m: OnDisk, h: History)
    requires Holds(d, h) && m.base == d.manifest.base && m.incr == d.manifest.incr
    ensures Holds(d.(manifest := m), h)
  {
    hide Holds;
    var e := d.(manifest := m);
    HoldsLive(d, h);
    Untouched(d, e, h);
  }

  lemma HoldsLive(d: Disk, h: History)
    requires Holds(d, h)
    ensures Exist(d.files, Live(d.manifest))
  {}

  // ---------- committing a rewrite ----------

  // What must hold before the finished snapshot is adopted, for the new manifest to replay to the right history.
  predicate ReadyToAdopt(s: Server, snapshot: History)
  {
    && Holds(s.disk, s.durable) && Agree(s) && Ordered(s.manifest)
    && TempBase in s.disk.files && s.disk.files[TempBase] == snapshot
    && match s.state
       case On =>
         && s.manifest.incr != [] && s.fd == Open(LastIncr(s.manifest)) && LastIncr(s.manifest) in s.disk.files
         && s.durable == snapshot + s.disk.files[LastIncr(s.manifest)]
       case WaitRewrite => s.fd == Open(TempIncr) && TempIncr in s.disk.files
       case Off => OffQuiet(s)
  }

  // With the append-only file off, keeping the last INCR file live behind a new base would do no harm, or it is not
  // kept.
  predicate OffQuiet(s: Server) { s.fd.NoFd? || s.manifest.incr == [] || LastIncrContent(s) == [] }

  lemma NewBaseOrdered(m: Manifest)
    requires Ordered(m)
    ensures Ordered(NewBase(m))
  {
    var m1 := NewBase(m);
    forall i | 0 <= i < |m1.history|
      ensures Retired(m1, m1.history[i])
    {
      if m.base.Some? && i > 0 {
        assert m1.history[i] == m.history[i - 1];
      }
    }
  }

  lemma MarkOrdered(m: Manifest, writing: bool)
    requires Ordered(m)
    ensures var m1 := MarkRewritten(m, writing);
            && Ordered(m1) && m1.base == m.base
            && m1.incr == (if writing && m.incr != [] then [m.incr[|m.incr| - 1]] else [])
  {
    var m1 := MarkRewritten(m, writing);
    var n := |m.incr| - if writing && m.incr != [] then 1 else 0;
    forall i | 0 <= i < |m1.history|
      ensures Retired(m1, m1.history[i])
    {
      if i < n {
        assert m1.history[i] == Incr(m.incr[i]);
      } else {
        assert m1.history[i] == m.history[i - n];
        assert Retired(m, m.history[i - n]);
      }
    }
  }

  // The new manifest names the new base and, if one is being written, one INCR file.
  lemma ReplayAdopted(d: Disk, base: nat, incr: seq<nat>)
    requires d.manifest.base == Some(base) && d.manifest.incr == incr && |incr| <= 1
    requires Base(base) in d.files && (|incr| == 1 ==> Incr(incr[0]) in d.files)
    ensures Holds(d, d.files[Base(base)] + if |incr| == 1 then d.files[Incr(incr[0])] else [])
  {
    var live := Live(d.manifest);
    assert Replay(d.files, []) == [];
    assert live[..1] == [Base(base)] && [Base(base)][..0] == [];
    assert Replay(d.files, [Base(base)]) == d.files[Base(base)];
    if |incr| == 1 {
      assert live == [Base(base), Incr(incr[0])];
    } else {
      assert live == [Base(base)];
    }
  }

  lemma RenameKeeps(s: Server, from: Name, to: Name)
    requires Holds(s.disk, s.durable) && Agree(s) && from in s.disk.files && from != to
    requires !(from.Base? || from.Incr?)
    requires NotLive(s.manifest, to)
    ensures var t := Rename(s, from, to);
            Holds(t.disk, s.durable) && Agree(t)
  {
    LiveAgree(s, from);
    LiveAgree(s, to);
    Untouched(s.disk, Rename(s, from, to).disk, s.durable);
  }

  // The two renames, before anything is committed.
  function Renamed(s: Server): Server
    requires TempBase in s.disk.files && (s.state == WaitRewrite ==> TempIncr in s.disk.files)
  {
    var s1 := Rename(s, TempBase, Base(s.manifest.currBase + 1));
    if s.state == WaitRewrite then Rename(s1, TempIncr, Incr(s.manifest.currIncr + 1)) else s1
  }

  function Adopted(s: Server): Manifest
    requires TempBase in s.disk.files && (s.state == WaitRewrite ==> TempIncr in s.disk.files)
  {
    var m1 := NewBase(s.manifest);
    MarkRewritten(if s.state == WaitRewrite then NewIncr(m1) else m1, !Renamed(s).fd.NoFd?)
  }

  lemma BaseIsOld(m: Manifest)
    requires Ordered(m)
    ensures m.base != Some(m.currBase + 1)
    ensures m.incr != [] ==> LastIncr(m) != Incr(m.currIncr + 1)
  {}

  lemma RenamedKeeps(s: Server, snapshot: History)
    requires ReadyToAdopt(s, snapshot)
    ensures var s2 := Renamed(s);
            && Holds(s2.disk, s.durable) && Agree(s2) && CrashSafe(s, s2)
            && s2 == s.(disk := s2.disk, trace := s2.trace, fd := s2.fd)
            && Base(s.manifest.currBase + 1) in s2.disk.files
            && s2.disk.files[Base(s.manifest.currBase + 1)] == snapshot
            && (s.state == WaitRewrite ==>
                  && s2.fd == Open(Incr(s.manifest.currIncr + 1)) && s2.fd.name in s2.disk.files
                  && s2.disk.files[s2.fd.name] == s.disk.files[TempIncr])
            && (s.state == On ==>
                  && s2.fd == s.fd && LastIncr(s.manifest) in s2.disk.files
                  && s2.disk.files[LastIncr(s.manifest)] == s.disk.files[LastIncr(s.manifest)])
            && (s.state == Off && s.manifest.incr != [] ==>
                  && LastIncr(s.manifest) in s2.disk.files
                  && s2.disk.files[LastIncr(s.manifest)] == LastIncrContent(s))
  {
    BaseIsOld(s.manifest);
    RenamedHolds(s, snapshot);
    RenamedFiles(s);
    if s.manifest.incr != [] {
      LastLive(s);
    }
    hide Holds, Ordered, Agree, CrashSafe, Renamed;
  }

  lemma RenamedHolds(s: Server, snapshot: History)
    requires ReadyToAdopt(s, snapshot)
    ensures Holds(Renamed(s).disk, s.durable) && Agree(Renamed(s)) && CrashSafe(s, Renamed(s))
  {
    hide Holds, Ordered, CrashSafe, Agree, Rename;
    NewIncrFree(s.manifest);
    BaseIsOld(s.manifest);
    var base := Base(s.manifest.currBase + 1);
    var s1 := Rename(s, TempBase, base);
    RenameSafe(s, TempBase, base);
    if s.state == WaitRewrite {
      var incr := Incr(s.manifest.currIncr + 1);
      RenameOther(s, TempBase, base, TempIncr);
      RenameSafe(s1, TempIncr, incr);
      CrashSafeTrans(s, s1, Rename(s1, TempIncr, incr));
    }
  }

  lemma RenameSafe(s: Server, from: Name, to: Name)
    requires Holds(s.disk, s.durable) && Agree(s) && from in s.disk.files && from != to
    requires !(from.Base? || from.Incr?)
    requires NotLive(s.manifest, to)
    ensures var t := Rename(s, from, to);
            && Holds(t.disk, s.durable) && Agree(t) && CrashSafe(s, t)
            && t.durable == s.durable && t.manifest == s.manifest && t.state == s.state
  {
    RenameKeeps(s, from, to);
    hide Holds, Agree;
  }

  lemma UnlinkSafe(s: Server, n: Name)
    requires Holds(s.disk, s.durable) && Agree(s)
    requires NotLive(s.manifest, n)
    ensures var t := Unlink(s, n);
            && Holds(t.disk, s.durable) && Agree(t) && CrashSafe(s, t)
            && t == s.(disk := t.disk, trace := t.trace, fd := t.fd) && (s.fd != Open(n) ==> t.fd == s.fd)
            && forall k | k in s.disk.files && k != n :: k in t.disk.files && t.disk.files[k] == s.disk.files[k]
  {
    UnlinkKeeps(s, n);
    hide Holds;
  }

  // Where the renames put the contents and the open file.
  lemma RenamedFiles(s: Server)
    requires TempBase in s.disk.files && (s.state == WaitRewrite ==> s.fd == Open(TempIncr) && TempIncr in s.disk.files)
    ensures var s2, base, incr := Renamed(s), Base(s.manifest.currBase + 1), Incr(s.manifest.currIncr + 1);
            && s2 == s.(disk := s2.disk, trace := s2.trace, fd := s2.fd)
            && base in s2.disk.files && s2.disk.files[base] == s.disk.files[TempBase]
            && (s.state == WaitRewrite ==>
                  s2.fd == Open(incr) && incr in s2.disk.files && s2.disk.files[incr] == s.disk.files[TempIncr])
            && (s.state != WaitRewrite && !(s.fd.Open? && s.fd.name in {TempBase, base}) ==> s2.fd == s.fd)
            && (s.state != WaitRewrite ==> forall n | n in s.disk.files && n.Incr? ::
                  n in s2.disk.files && s2.disk.files[n] == s.disk.files[n])
  {}

  // Renaming the manifest switches from the old replay to the new one in a single step.
  lemma CommitBase(s: Server, snapshot: History)
    requires ReadyToAdopt(s, snapshot)
    ensures var s2, m := Renamed(s), Adopted(s);
            var durable := match s.state
                           case On => s.durable
                           case WaitRewrite => snapshot + s.disk.files[TempIncr]
                           case Off => snapshot;
            var t := Persist(s2, m, PersistOk).(manifest := m, durable := durable);
            && Holds(t.disk, durable) && Agree(t) && Ordered(m)
            && (s.state != Off ==> m.incr != [] && t.fd == Open(LastIncr(m)) && LastIncr(m) in t.disk.files)
            && (s.state == On ==> t.disk.files[LastIncr(m)] == s.disk.files[LastIncr(s.manifest)])
            && (s.state == WaitRewrite ==> t.disk.files[LastIncr(m)] == s.disk.files[TempIncr])
  {
    hide Holds, Renamed, Adopted, Ordered, MarkRewritten, CrashSafe;
    RenamedKeeps(s, snapshot);
    AdoptedShape(s, snapshot);
    var s2, m := Renamed(s), Adopted(s);
    var d := s2.disk.(manifest := Printed(m));
    ReplayAdopted(d, s.manifest.currBase + 1, m.incr);
    assert snapshot + [] == snapshot;
  }

  lemma AdoptedShape(s: Server, snapshot: History)
    requires ReadyToAdopt(s, snapshot)
    ensures var m := Adopted(s);
            && Ordered(m) && m.base == Some(s.manifest.currBase + 1)
            && m.incr == match s.state
                         case On => [s.manifest.incr[|s.manifest.incr| - 1]]
                         case WaitRewrite => [s.manifest.currIncr + 1]
                         case Off => if s.fd.NoFd? || s.manifest.incr == [] then []
                                     else [s.manifest.incr[|s.manifest.incr| - 1]]
  {
    hide Holds, Renamed, Ordered, MarkRewritten, NewBase, NewIncr, Agree, OffQuiet;
    RenamedFd(s);
    MarkedShape(s.manifest, s.state == WaitRewrite, !s.fd.NoFd?);
  }

  lemma RenamedFd(s: Server)
    requires TempBase in s.disk.files && (s.state == WaitRewrite ==> TempIncr in s.disk.files)
    ensures Renamed(s).fd.NoFd? <==> s.fd.NoFd?
  {}

  // The manifest of a rewrite: the new base, and the INCR file still being written.
  lemma MarkedShape(m: Manifest, adding: bool, writing: bool)
    requires Ordered(m) && (adding ==> writing)
    ensures var m1 := NewBase(m);
            var a := MarkRewritten(if adding then NewIncr(m1) else m1, writing);
            && Ordered(a) && a.base == Some(m.currBase + 1)
            && a.incr == if adding then [m.currIncr + 1]
                         else if writing && m.incr != [] then [m.incr[|m.incr| - 1]]
                         else []
  {
    hide Ordered, MarkRewritten;
    var m1 := NewBase(m);
    NewBaseOrdered(m);
    if adding {
      NewIncrOrdered(m1);
      MarkOrdered(NewIncr(m1), writing);
    } else {
      MarkOrdered(m1, writing);
    }
  }

  // Adopting a snapshot, with every way it can fail short of the directory sync after the commit.
  lemma AdoptKeeps(s: Server, snapshot: History, o: Outcome)
    requires ReadyToAdopt(s, snapshot) && !o.persist.FailAfterRename?
    ensures var (t, ok) := Adopt(s, snapshot, o);
            && Holds(t.disk, t.durable) && Agree(t) && Ordered(t.manifest) && CrashSafe(s, t)
            && t == s.(disk := t.disk, trace := t.trace, fd := t.fd, manifest := t.manifest, durable := t.durable)
            && (!ok ==> t.durable == s.durable && t.manifest == s.manifest)
            && (ok ==> t.durable == match s.state
                                    case On => s.durable
                                    case WaitRewrite => snapshot + s.disk.files[TempIncr]
                                    case Off => snapshot)
            && (ok && s.state != Off ==>
                  && t.manifest.incr != [] && t.fd == Open(LastIncr(t.manifest))
                  && LastIncr(t.manifest) in t.disk.files)
            && (ok && s.state == WaitRewrite ==> t.disk.files[LastIncr(t.manifest)] == s.disk.files[TempIncr])
            && (!ok && s.state == On ==>
                  && t.fd == s.fd && LastIncr(s.manifest) in t.disk.files
                  && t.disk.files[LastIncr(s.manifest)] == s.disk.files[LastIncr(s.manifest)])
  {
    hide Holds, Ordered, Agree, CrashSafe, Renamed, Undone, MarkRewritten, DelHistory, NewBase, NewIncr;
    if !o.renameBase {
      AdoptNothing(s, snapshot, o);
      CrashSafeSelf(s);
    } else {
      if s.state == WaitRewrite && !o.renameIncr {
        AdoptHalfIs(s, snapshot, o);
        AdoptHalf(s, snapshot);
      } else {
        hide Adopt;
        RenamedFiles(s);
        if o.persist.PersistOk? {
          AdoptCommitted(s, snapshot, o);
        } else {
          AdoptUndoneIs(s, snapshot, o);
          UndoneHolds(s, snapshot);
          UndoneFiles(s, snapshot);
        }
      }
    }
  }

  lemma AdoptNothing(s: Server, snapshot: History, o: Outcome)
    requires TempBase in s.disk.files && !o.renameBase
    ensures Adopt(s, snapshot, o) == (s, false)
  {
    hide MarkRewritten, DelHistory;
  }

  lemma AdoptHalfIs(s: Server, snapshot: History, o: Outcome)
    requires TempBase in s.disk.files && o.renameBase && s.state == WaitRewrite && !o.renameIncr
    ensures var base := Base(s.manifest.currBase + 1);
            Adopt(s, snapshot, o) == (Unlink(Rename(s, TempBase, base), base), false)
  {
    hide MarkRewritten, DelHistory;
  }

  lemma AdoptHalf(s: Server, snapshot: History)
    requires ReadyToAdopt(s, snapshot) && s.state == WaitRewrite
    ensures var base := Base(s.manifest.currBase + 1);
            var s1 := Rename(s, TempBase, base);
            var t := Unlink(s1, base);
            Holds(t.disk, s.durable) && Agree(t) && CrashSafe(s, t)
  {
    hide Holds, Ordered;
    var base := Base(s.manifest.currBase + 1);
    BaseIsOld(s.manifest);
    RenameKeeps(s, TempBase, base);
    UnlinkKeeps(Rename(s, TempBase, base), base);
  }

  // The renames taken back.
  function Undone(s: Server): Server
    requires TempBase in s.disk.files && (s.state == WaitRewrite ==> TempIncr in s.disk.files)
  {
    var s3 := Unlink(Renamed(s), Base(s.manifest.currBase + 1));
    if s.state == WaitRewrite then Unlink(s3, Incr(s.manifest.currIncr + 1)) else s3
  }

  lemma UndoneHolds(s: Server, snapshot: History)
    requires ReadyToAdopt(s, snapshot)
    ensures Holds(Undone(s).disk, s.durable) && Agree(Undone(s)) && CrashSafe(s, Undone(s))
  {
    hide Holds, Renamed, Agree, CrashSafe, Ordered, Unlink;
    RenamedHolds(s, snapshot);
    RenamedFiles(s);
    NewIncrFree(s.manifest);
    BaseIsOld(s.manifest);
    var s2, base, incr := Renamed(s), Base(s.manifest.currBase + 1), Incr(s.manifest.currIncr + 1);
    UnlinkSafe(s2, base);
    CrashSafeTrans(s, s2, Unlink(s2, base));
    if s.state == WaitRewrite {
      UnlinkSafe(Unlink(s2, base), incr);
      CrashSafeTrans(s, Unlink(s2, base), Unlink(Unlink(s2, base), incr));
    }
  }

  lemma UndoneFiles(s: Server, snapshot: History)
    requires ReadyToAdopt(s, snapshot)
    ensures var t := Undone(s);
            && t == s.(disk := t.disk, trace := t.trace, fd := t.fd)
            && (s.state == On ==>
                  && t.fd == s.fd && LastIncr(s.manifest) in t.disk.files
                  && t.disk.files[LastIncr(s.manifest)] == s.disk.files[LastIncr(s.manifest)])
  {
    hide Holds, Renamed, Agree, CrashSafe, Ordered;
    RenamedFiles(s);
    BaseIsOld(s.manifest);
  }

  lemma AdoptUndoneIs(s: Server, snapshot: History, o: Outcome)
    requires o.renameBase && o.persist.FailBeforeRename? && TempBase in s.disk.files
    requires s.state == WaitRewrite ==> o.renameIncr && TempIncr in s.disk.files
    requires s.state == WaitRewrite ==> Incr(s.manifest.currIncr + 1) in Renamed(s).disk.files
    ensures Adopt(s, snapshot, o) == (Undone(s), false)
  {
    hide MarkRewritten, Rename, Unlink, DelHistory, NewBase, NewIncr;
    RenameOther(s, TempBase, Base(s.manifest.currBase + 1), TempIncr);
    RenameFrame(s, TempBase, Base(s.manifest.currBase + 1));
    NewNumbers(s.manifest);
  }

  lemma AdoptCommitted(s: Server, snapshot: History, o: Outcome)
    requires ReadyToAdopt(s, snapshot) && o.renameBase && o.persist.PersistOk?
    requires s.state == WaitRewrite ==> o.renameIncr
    ensures var (t, ok) := Adopt(s, snapshot, o);
            && ok && Holds(t.disk, t.durable) && Agree(t) && Ordered(t.manifest) && CrashSafe(s, t)
            && t == s.(disk := t.disk, trace := t.trace, fd := t.fd, manifest := t.manifest, durable := t.durable)
            && t.durable == (match s.state
                             case On => s.durable
                             case WaitRewrite => snapshot + s.disk.files[TempIncr]
                             case Off => snapshot)
            && (s.state != Off ==>
                  && t.manifest.incr != [] && t.fd == Open(LastIncr(t.manifest))
                  && LastIncr(t.manifest) in t.disk.files)
            && (s.state == WaitRewrite ==> t.disk.files[LastIncr(t.manifest)] == s.disk.files[TempIncr])
  {
    hide Holds, Renamed, Adopted, DelHistory, Adopt, Ordered, CrashSafe, Agree;
    RenamedKeeps(s, snapshot);
    CommitBase(s, snapshot);
    var s2, m := Renamed(s), Adopted(s);
    var durable := match s.state
                   case On => s.durable
                   case WaitRewrite => snapshot + s.disk.files[TempIncr]
                   case Off => snapshot;
    var s3 := Persist(s2, m, PersistOk).(manifest := m, durable := durable);
    DelHistoryKeeps(s3, o.gc, o.persistHistory);
    AdoptIs(s, snapshot, o);
    CommitTrace(s, s2, s3, DelHistory(s3, o.gc, o.persistHistory));
  }

  lemma CommitTrace(s: Server, s2: Server, s3: Server, t: Server)
    requires CrashSafe(s, s2) && s2.durable == s.durable
    requires s3.trace == s2.trace + [s3.disk] && Holds(s3.disk, s3.durable)
    requires CrashSafe(s3, t) && t.durable == s3.durable
    ensures CrashSafe(s, t)
  {
    hide Holds;
  }

  lemma AdoptIs(s: Server, snapshot: History, o: Outcome)
    requires o.renameBase && o.persist.PersistOk? && TempBase in s.disk.files
    requires s.state == WaitRewrite ==>
               o.renameIncr && TempIncr in s.disk.files && Incr(s.manifest.currIncr + 1) in Renamed(s).disk.files
    ensures var s2, m := Renamed(s), Adopted(s);
            var durable := match s.state
                           case On => s.durable
                           case WaitRewrite => snapshot + s2.disk.files[Incr(s.manifest.currIncr + 1)]
                           case Off => snapshot;
            Adopt(s, snapshot, o) ==
            (DelHistory(Persist(s2, m, PersistOk).(manifest := m, durable := durable), o.gc, o.persistHistory), true)
  {
    hide DelHistory, MarkRewritten, Rename, NewBase, NewIncr;
    RenameOther(s, TempBase, Base(s.manifest.currBase + 1), TempIncr);
    RenameFrame(s, TempBase, Base(s.manifest.currBase + 1));
    NewNumbers(s.manifest);
  }

  lemma NewNumbers(m: Manifest)
    ensures NewBase(m).currBase == m.currBase + 1
    ensures NewIncr(NewBase(m)).currIncr == m.currIncr + 1 && NewBase(m).currIncr == m.currIncr
  {}

  lemma RenameFrame(s: Server, from: Name, to: Name)
    requires from in s.disk.files
    ensures var t := Rename(s, from, to);
            t == s.(disk := t.disk, trace := t.trace, fd := t.fd)
  {}

  lemma RenameOther(s: Server, from: Name, to: Name, n: Name)
    requires from in s.disk.files && n != from && n != to
    ensures n in Rename(s, from, to).disk.files <==> n in s.disk.files
  {}

  // ---------- the operations ----------

  lemma CleanupKeeps(s: Server)
    requires Holds(s.disk, s.durable) && Agree(s) && Ordered(s.manifest)
    ensures var t := Cleanup(s);
            && Holds(t.disk, s.durable) && Agree(t) && CrashSafe(s, t)
            && t == s.(disk := t.disk, trace := t.trace, fd := t.fd, child := None, buf := t.buf)
            && (s.state == WaitRewrite ==> t.buf == [])
            && (s.state != WaitRewrite ==> t.buf == s.buf && (s.fd != Open(TempBase) ==> t.fd == s.fd))
            && (s.state == On && s.manifest.incr != [] && LastIncr(s.manifest) in s.disk.files ==>
                  LastIncr(s.manifest) in t.disk.files
                  && t.disk.files[LastIncr(s.manifest)] == s.disk.files[LastIncr(s.manifest)])
  {
    hide Holds;
    UnlinkKeeps(s, TempBase);
    if s.state == WaitRewrite {
      UnlinkKeeps(Unlink(s, TempBase).(child := None), TempIncr);
    }
  }

  lemma CrashSafeTrans(s: Server, t: Server, u: Server)
    requires CrashSafe(s, t) && CrashSafe(t, u) && (t.durable == s.durable || u.durable == t.durable)
    ensures CrashSafe(s, u)
  {
    hide Holds;
  }

  lemma ChildWrites(s: Server, snapshot: History)
    requires Inv(s) && (s.state == Off ==> OffQuiet(s))
    requires s.state != Off ==> s.child == Some(snapshot)
    ensures ReadyToAdopt(Put(s, TempBase, snapshot), snapshot) && CrashSafe(s, Put(s, TempBase, snapshot))
  {
    hide Holds;
    PutKeeps(s, TempBase, snapshot);
  }

  // What the end of a rewrite must not run into: the directory sync failing once the manifest has been renamed, and,
  // with the append-only file off, a descriptor that is taken for one in use.
  predicate DoneSafe(s: Server, o: Outcome)
  {
    !(&& o.written && o.renameBase && (s.state == WaitRewrite ==> o.renameIncr)
      && (o.persist.FailAfterRename? || (o.persist.PersistOk? && s.state == Off && !OffQuiet(s))))
  }

  lemma QuietDoneKeeps(s: Server, o: Outcome)
    requires Inv(s) && s.child.Some? && !o.persist.FailAfterRename?
    requires s.state == Off ==> OffQuiet(s)
    ensures var t := RewriteDone(s, o);
            Inv(t) && CrashSafe(s, t) && t.child.None?
  {
    hide Holds, Ordered, Adopt, CrashSafe, Cleanup, OffQuiet;
    if !o.written {
      CleanupKeeps(s);
    } else {
      var s0 := Put(s, TempBase, s.child.value);
      ChildWrites(s, s.child.value);
      AdoptKeeps(s0, s.child.value, o);
      var (s1, ok) := Adopt(s0, s.child.value, o);
      CrashSafeTrans(s, s0, s1);
      var s2 := if ok && s.state == WaitRewrite then s1.(state := On) else s1;
      CleanupKeeps(s2);
      SameTrace(s, s1, s2);
      CrashSafeTrans(s, s2, Cleanup(s2));
      hide Agree;
    }
  }

  // Nothing later matters when writing the snapshot or a rename has failed.
  lemma EarlierFailure(s: Server, o: Outcome)
    requires s.child.Some? && !(o.written && o.renameBase && (s.state == WaitRewrite ==> o.renameIncr))
    ensures RewriteDone(s, o) == RewriteDone(s, o.(persist := FailBeforeRename))
  {
    hide MarkRewritten, DelHistory;
  }

  // With the append-only file off, the descriptor only matters for a manifest that is renamed.
  lemma OffFd(s: Server, o: Outcome)
    requires s.state == Off && s.child.Some? && o.persist.FailBeforeRename?
    ensures var (t, u) := (RewriteDone(s, o), RewriteDone(s.(fd := NoFd), o));
            t == u.(fd := t.fd)
  {
    hide MarkRewritten, DelHistory;
  }

  // The end of a rewrite keeps the invariant, however its steps fail, but for the two cases above.
  lemma RewriteDoneKeeps(s: Server, o: Outcome)
    requires Inv(s) && s.child.Some? && DoneSafe(s, o)
    ensures var t := RewriteDone(s, o);
            Inv(t) && CrashSafe(s, t)
  {
    var early := !(o.written && o.renameBase && (s.state == WaitRewrite ==> o.renameIncr));
    var o1 := if early then o.(persist := FailBeforeRename) else o;
    if early {
      EarlierFailure(s, o);
    }
    hide RewriteDone, CrashSafe, Holds, Ordered, Agree;
    if s.state == Off && !OffQuiet(s) {
      OffFd(s, o1);
      QuietDoneKeeps(s.(fd := NoFd), o1);
      SameDisks(s, RewriteDone(s.(fd := NoFd), o1), RewriteDone(s, o1));
    } else {
      QuietDoneKeeps(s, o1);
    }
  }

  lemma SameDisks(s: Server, u: Server, t: Server)
    requires s.state == Off && CrashSafe(s.(fd := NoFd), u) && Inv(u) && u.child.None? && t == u.(fd := t.fd)
    requires u.state == Off
    ensures Inv(t) && CrashSafe(s, t)
  {
    hide Holds, Ordered;
  }

  lemma SameTrace(s: Server, t: Server, u: Server)
    requires CrashSafe(s, t) && u.trace == t.trace && u.durable == t.durable
    ensures CrashSafe(s, u)
  {
    hide Holds;
  }

  lemma StartKeeps(s: Server, openOk: bool, o: Outcome)
    requires Inv(s) && s.state == Off && s.child.None? && !o.persist.FailAfterRename?
    ensures var t := StartAppendOnly(s, openOk, o);
            Inv(t) && CrashSafe(s, t)
  {
    hide Holds, Ordered, Adopt, CrashSafe;
    var w := s.(state := WaitRewrite);
    OpenKeeps(w, openOk, PersistOk);
    var (s1, ok) := OpenNewIncr(w, openOk, PersistOk);
    SameTrace'(s, w, s1);
    if ok {
      if !o.written {
        UnlinkSafe(s1.(state := Off), TempIncr);
        SameTrace(s, s1, s1.(state := Off));
        CrashSafeTrans(s, s1.(state := Off), Unlink(s1.(state := Off), TempIncr));
      } else {
        var s2 := Put(s1, TempBase, s.all);
        PutKeeps(s1, TempBase, s.all);
        PutSafe(s1, TempBase, s.all);
        CrashSafeTrans(s, s1, s2);
        AdoptKeeps(s2, s.all, o);
        var (s3, committed) := Adopt(s2, s.all, o);
        CrashSafeTrans(s, s2, s3);
        if committed {
          assert s.all + [] == s.all;
          SameTrace(s, s3, s3.(state := On, buf := []));
        } else {
          UnlinkSafe(s3.(state := Off), TempIncr);
          SameTrace(s, s3, s3.(state := Off));
          CrashSafeTrans(s, s3.(state := Off), Unlink(s3.(state := Off), TempIncr));
        }
      }
    } else {
      SameTrace(s, s1, s1.(state := Off));
    }
  }

  lemma SameTrace'(s: Server, w: Server, t: Server)
    requires CrashSafe(w, t) && w.trace == s.trace && w.durable == s.durable
    ensures CrashSafe(s, t)
  {
    hide Holds;
  }

  lemma PutSafe(s: Server, n: Name, content: History)
    requires Holds(Put(s, n, content).disk, s.durable)
    ensures CrashSafe(s, Put(s, n, content))
  {
    hide Holds;
  }

  lemma StartForkKeeps(s: Server, openOk: bool, forkOk: bool)
    requires Inv(s) && s.state == Off
    ensures var t := StartAppendOnlyFork(s, openOk, forkOk);
            Inv(t) && CrashSafe(s, t)
  {
    hide Holds, Ordered, CrashSafe;
    var w := s.(state := WaitRewrite, child := None);
    BgRewriteKeeps(w, 0, openOk, PersistOk, forkOk);
    var t := BgRewrite(w, 0, openOk, PersistOk, forkOk);
    SameTrace'(s, w, t);
    SameTrace(s, t, t.(state := Off));
  }

  lemma StartLaterKeeps(s: Server)
    requires Inv(s) && s.state == Off && s.child.None?
    ensures Inv(StartAppendOnlyLater(s)) && CrashSafe(s, StartAppendOnlyLater(s))
  {
    hide Holds, Ordered;
  }

  lemma StopKeeps(s: Server, k: nat)
    requires Inv(s) && s.state != Off && k <= |s.buf| && (k == 0 || s.ahead == 0)
    ensures var t := StopAppendOnly(s, k);
            Inv(t) && CrashSafe(s, t) && t.fd.NoFd?
  {
    hide Holds, Ordered, CrashSafe;
    FlushKeeps(s, k);
    SameTrace(s, Flush(s, k), StopAppendOnly(s, k));
  }

  // ---------- runs ----------

  datatype Event =
    | Command(w: History)
    | FlushBuffer(k: nat)
    | TakenBack(n: nat)
    | Rewrite(k: nat, openOk: bool, r: PersistResult, forkOk: bool)
    | Done(o: Outcome)
    | Start(openOk: bool, o: Outcome)
    | StartFork(openOk: bool, forkOk: bool)
    | StartLater
    | Stop(k: nat)

  // Nothing is written with a descriptor that stands past the end of its file.
  predicate AtEnd(s: Server, k: nat) { k <= |s.buf| && (k == 0 || s.ahead == 0) }

  // What the caller and the system must guarantee: a short write that was taken back is not followed by another write
  // to the same descriptor; the forced flush before a rewrite empties the buffer; syncing the directory does not fail
  // once the manifest has been renamed; no rewrite is committed with the append-only file off while a descriptor left
  // by a failed start is open and the last INCR file is not empty; and the append-only file is not switched on inside
  // a transaction while a rewrite is running. FlushExactly, LeftoverReplaysTwice, SyncFailureLosesBase (with
  // SyncFailureLosesStart), StaleFdReplaysTwice and AofEffect.LaterDuringRewrite say what happens otherwise.
  predicate Allowed(s: Server, e: Event)
  {
    match e
    case Command(_) => true
    case FlushBuffer(k) => AtEnd(s, k)
    case TakenBack(n) => AtEnd(s, n)
    case Rewrite(k, _, r, _) =>
      && k <= |s.buf| && (s.child.None? ==> AtEnd(s, k)) && !r.FailAfterRename?
      && (s.state == On && s.child.None? ==> k == |s.buf|)
    case Done(o) => s.child.Some? && DoneSafe(s, o)
    case Start(_, o) => s.state == Off && s.child.None? && !o.persist.FailAfterRename?
    case StartFork(_, _) => s.state == Off
    case StartLater => s.state == Off && s.child.None?
    case Stop(k) => s.state != Off && AtEnd(s, k)
  }

  function Step(s: Server, e: Event): Server
    requires Allowed(s, e)
  {
    match e
    case Command(w) => WriteCommand(s, w)
    case FlushBuffer(k) => Flush(s, k)
    case TakenBack(n) => ShortFlush(s, n)
    case Rewrite(k, openOk, r, forkOk) => BgRewrite(s, k, openOk, r, forkOk)
    case Done(o) => RewriteDone(s, o)
    case Start(openOk, o) => StartAppendOnly(s, openOk, o)
    case StartFork(openOk, forkOk) => StartAppendOnlyFork(s, openOk, forkOk)
    case StartLater => StartAppendOnlyLater(s)
    case Stop(k) => StopAppendOnly(s, k)
  }

  // A disk seen while `e` goes on: it replays to what was durable before or to what is after, or, while a short write
  // is being taken back, to a beginning of the buffer more.
  predicate DiskOk(s: Server, e: Event, d: Disk)
    requires Allowed(s, e)
  {
    || Holds(d, s.durable) || Holds(d, Step(s, e).durable)
    || (e.TakenBack? && s.state == On && Holds(d, s.durable + s.buf[..e.n]))
  }

  // Every disk after a system call of `e` is one of these.
  predicate StepSafe(s: Server, e: Event)
    requires Allowed(s, e)
  {
    var t := Step(s, e);
    s.trace <= t.trace && forall i | |s.trace| <= i < |t.trace| :: DiskOk(s, e, t.trace[i])
  }

  lemma StepKeeps(s: Server, e: Event)
    requires Inv(s) && Allowed(s, e)
    ensures Inv(Step(s, e)) && StepSafe(s, e)
  {
    hide Inv, CrashSafe, Holds;
    match e {
      case Command(w) => WriteKeeps(s, w);
      case FlushBuffer(k) => FlushKeeps(s, k);
      case TakenBack(n) => ShortFlushKeeps(s, n);
      case Rewrite(k, openOk, r, forkOk) => RewriteStep(s, k, openOk, r, forkOk);
      case Done(o) => RewriteDoneKeeps(s, o);
      case Start(openOk, o) => StartKeeps(s, openOk, o);
      case StartFork(openOk, forkOk) => StartForkKeeps(s, openOk, forkOk);
      case StartLater => StartLaterKeeps(s);
      case Stop(k) => StopKeeps(s, k);
    }
    if !e.TakenBack? {
      SafeStep(s, e);
    }
  }

  lemma SafeStep(s: Server, e: Event)
    requires Allowed(s, e) && CrashSafe(s, Step(s, e))
    ensures StepSafe(s, e)
  {
    hide Holds, Step, Allowed;
  }

  lemma RewriteStep(s: Server, k: nat, openOk: bool, r: PersistResult, forkOk: bool)
    requires Inv(s) && Allowed(s, Rewrite(k, openOk, r, forkOk))
    ensures Inv(BgRewrite(s, k, openOk, r, forkOk)) && CrashSafe(s, BgRewrite(s, k, openOk, r, forkOk))
  {
    BgRewriteKeeps(s, k, openOk, r, forkOk);
  }

  predicate AllAllowed(s: Server, events: seq<Event>)
    decreases |events|
  {
    events == [] || (Allowed(s, events[0]) && AllAllowed(Step(s, events[0]), events[1..]))
  }

  function Run(s: Server, events: seq<Event>): Server
    requires AllAllowed(s, events)
    decreases |events|
  {
    if events == [] then s else Run(Step(s, events[0]), events[1..])
  }

  // Every step of the run is safe where it happens.
  predicate RunSafe(s: Server, events: seq<Event>)
    requires AllAllowed(s, events)
    decreases |events|
  {
    events == [] || (StepSafe(s, events[0]) && RunSafe(Step(s, events[0]), events[1..]))
  }

  // Every run: the invariant holds at the end, and after every single system call the files named by the manifest on
  // disk exist and replay to what was durable at the start or at the end of the operation making the call.
  lemma {:induction false} RunKeeps(s: Server, events: seq<Event>)
    requires Inv(s) && AllAllowed(s, events)
    ensures Inv(Run(s, events)) && RunSafe(s, events) && s.trace <= Run(s, events).trace
    decreases |events|
  {
    hide Inv, Step, Allowed, DiskOk;
    if events != [] {
      StepKeeps(s, events[0]);
      RunKeeps(Step(s, events[0]), events[1..]);
    }
  }

  // The same for the step after any beginning of the run; each disk it leaves stays in the trace of the whole run.
  lemma {:induction false} RunSafeAt(s: Server, events: seq<Event>, p: nat)
    requires Inv(s) && AllAllowed(s, events) && p < |events|
    ensures SafeAt(s, events, p)
    decreases |events|
  {
    hide Inv, Step, Allowed, StepSafe;
    StepKeeps(s, events[0]);
    var s1 := Step(s, events[0]);
    RunKeeps(s1, events[1..]);
    if p == 0 {
      assert events[..0] == [];
    } else {
      RunSafeAt(s1, events[1..], p - 1);
      assert events[..p][0] == events[0] && events[..p][1..] == events[1..][..p - 1];
    }
  }

  predicate SafeAt(s: Server, events: seq<Event>, p: nat)
    requires p < |events| && AllAllowed(s, events)
  {
    && AllAllowed(s, events[..p]) && Allowed(Run(s, events[..p]), events[p])
    && var u := Run(s, events[..p]);
    StepSafe(u, events[p]) && Step(u, events[p]).trace <= Run(s, events).trace
  }

  // A server that starts with nothing on disk and the append-only file off.
  function Initial(all: History): Server
  {
    Server(Disk(map[], OnDisk(None, [], [])), [], Manifest(None, [], [], 0, 0), Off, NoFd, false, 0, [], None, all, [])
  }

  lemma InitialInv(all: History)
    ensures Inv(Initial(all))
  {}

  // With the append-only file on, what is on disk plus the buffer is every write the server has executed.
  lemma NothingMissing(all: History, events: seq<Event>)
    requires AllAllowed(Initial(all), events) && Run(Initial(all), events).state == On
    ensures var t := Run(Initial(all), events);
            Holds(t.disk, t.durable) && t.durable + t.buf == t.all
  {
    InitialInv(all);
    RunKeeps(Initial(all), events);
    hide Holds, Run, Ordered;
  }

  // ---------- the guarantees the protocol needs, and what happens without them ----------

  // If the directory sync fails after the new manifest is in place, the new base is unlinked although the manifest on
  // disk names it; and with the append-only file off, a stale descriptor keeps an INCR file live. Finishing a rewrite
  // leaves a disk that replays to what is durable exactly in the other cases.
  lemma SyncFailureLosesBase(s: Server, o: Outcome)
    requires Inv(s) && s.child.Some?
    ensures var t := RewriteDone(s, o);
            Holds(t.disk, t.durable) <==>
            !(&& o.written && o.renameBase && (s.state == WaitRewrite ==> o.renameIncr)
              && (o.persist.FailAfterRename? || (o.persist.PersistOk? && s.state == Off && !OffQuiet(s))))
  {
    if DoneSafe(s, o) {
      RewriteDoneKeeps(s, o);
    } else if o.persist.FailAfterRename? {
      DoneLosesBase(s, o);
    } else {
      StaleFdReplaysTwice(s, o);
    }
  }

  lemma DoneLosesBase(s: Server, o: Outcome)
    requires Inv(s) && s.child.Some? && o.written && o.renameBase && o.persist.FailAfterRename?
    requires s.state == WaitRewrite ==> o.renameIncr
    ensures var t := RewriteDone(s, o);
            !Holds(t.disk, t.durable)
  {
    hide Inv, Ordered, MarkRewritten, DelHistory, Cleanup, Adopt;
    var s1 := Put(s, TempBase, s.child.value);
    WaitingFile(s);
    AdoptLosesBase(s1, s.child.value, o);
    CleanupFrame(Adopt(s1, s.child.value, o).0, Base(s.manifest.currBase + 1));
    BaseMissing(RewriteDone(s, o), s.manifest.currBase + 1);
  }

  lemma WaitingFile(s: Server)
    requires Inv(s) && s.child.Some?
    ensures s.state == WaitRewrite ==> TempIncr in s.disk.files
  {}

  lemma AdoptLosesBase(s: Server, snapshot: History, o: Outcome)
    requires TempBase in s.disk.files && o.renameBase && o.persist.FailAfterRename?
    requires s.state == WaitRewrite ==> o.renameIncr && TempIncr in s.disk.files
    ensures var (t, ok) := Adopt(s, snapshot, o);
            && !ok && t.state == s.state && t.disk.manifest.base == Some(s.manifest.currBase + 1)
            && Base(s.manifest.currBase + 1) !in t.disk.files
  {
    hide DelHistory;
  }

  lemma CleanupFrame(s: Server, n: Name)
    requires n !in s.disk.files
    ensures Cleanup(s).disk.manifest == s.disk.manifest && n !in Cleanup(s).disk.files
  {}

  lemma BaseMissing(t: Server, n: nat)
    requires t.disk.manifest.base == Some(n) && Base(n) !in t.disk.files
    ensures !Holds(t.disk, t.durable)
  {
    assert Live(t.disk.manifest)[0] == Base(n);
  }

  // The same in the build without fork, where base and INCR file are both unlinked.
  lemma SyncFailureLosesStart(s: Server, openOk: bool, o: Outcome)
    requires Inv(s) && s.state == Off && s.child.None?
    ensures var t := StartAppendOnly(s, openOk, o);
            Holds(t.disk, t.durable) <==>
            !(openOk && o.written && o.renameBase && o.renameIncr && o.persist.FailAfterRename?)
  {
    if !o.persist.FailAfterRename? {
      StartKeeps(s, openOk, o);
    } else if openOk && o.written && o.renameBase && o.renameIncr {
      StartLosesBase(s, o);
    } else {
      EarlierStartFailure(s, openOk, o);
      StartKeeps(s, openOk, o.(persist := PersistOk));
    }
  }

  lemma EarlierStartFailure(s: Server, openOk: bool, o: Outcome)
    requires s.state == Off && s.child.None? && !(openOk && o.written && o.renameBase && o.renameIncr)
    ensures StartAppendOnly(s, openOk, o) == StartAppendOnly(s, openOk, o.(persist := PersistOk))
  {
    hide MarkRewritten, DelHistory;
  }

  lemma StartLosesBase(s: Server, o: Outcome)
    requires s.state == Off && s.child.None?
    requires o.written && o.renameBase && o.renameIncr && o.persist.FailAfterRename?
    ensures var t := StartAppendOnly(s, true, o);
            !Holds(t.disk, t.durable)
  {
    hide MarkRewritten, DelHistory, Adopt, Holds;
    var s1 := OpenNewIncr(s.(state := WaitRewrite), true, PersistOk).0;
    var s2 := Put(s1, TempBase, s.all);
    AdoptLosesBase(s2, s.all, o);
    BaseMissing(StartAppendOnly(s, true, o), s.manifest.currBase + 1);
  }

  const ALL_WELL := Outcome(true, true, true, PersistOk, false, PersistOk)

  // The rewrite that follows a forced flush of only `k` commands: afterwards the rest of the buffer is both in the
  // snapshot and, once flushed, in the new INCR file.
  function RewriteAround(s: Server, k: nat): Server
    requires Inv(s) && s.state == On && s.child.None? && k <= |s.buf|
  {
    var s1 := BgRewrite(s, k, true, PersistOk, true);
    var s2 := RewriteDone(s1, ALL_WELL);
    Flush(s2, |s2.buf|)
  }

  lemma LeftoverReplaysTwice(s: Server, k: nat)
    requires Inv(s) && s.state == On && s.child.None? && k <= |s.buf|
    ensures var t := RewriteAround(s, k);
            && t.all == s.all && t.buf == []
            && Holds(t.disk, s.all + s.buf[k..])
            && (Holds(t.disk, t.all) <==> k == |s.buf|)
  {
    hide RewriteDone, BgRewrite, Holds, Inv, Flush;
    StartedShape(s, k);
    var s1 := BgRewrite(s, k, true, PersistOk, true);
    DoneShape(s1, s.all);
    FlushedShape(RewriteDone(s1, ALL_WELL), s.all);
    HoldsOne(RewriteAround(s, k).disk, s.all + s.buf[k..], s.all);
    assert |s.all + s.buf[k..]| == |s.all| + (|s.buf| - k);
    assert s.all + [] == s.all;
  }

  lemma StartedShape(s: Server, k: nat)
    requires Inv(s) && s.state == On && s.child.None? && k <= |s.buf|
    ensures var t := BgRewrite(s, k, true, PersistOk, true);
            && t.state == On && t.child == Some(s.all) && t.all == s.all && t.buf == s.buf[k..]
            && t.manifest.incr != [] && t.fd == Open(LastIncr(t.manifest)) && t.ahead == 0
            && LastIncr(t.manifest) in t.disk.files && t.disk.files[LastIncr(t.manifest)] == []
  {
    hide Holds, Ordered;
  }

  lemma FlushedShape(s: Server, snapshot: History)
    requires s.disk.manifest == Printed(s.manifest) && s.manifest.base.Some? && |s.manifest.incr| == 1
    requires Base(s.manifest.base.value) in s.disk.files && s.disk.files[Base(s.manifest.base.value)] == snapshot
    requires s.fd == Open(LastIncr(s.manifest)) && LastIncr(s.manifest) in s.disk.files
    requires s.disk.files[LastIncr(s.manifest)] == [] && s.ahead == 0
    ensures var t := Flush(s, |s.buf|);
            Holds(t.disk, snapshot + s.buf) && t.all == s.all && t.buf == []
  {
    hide Holds;
    var t := Flush(s, |s.buf|);
    assert t.disk.files[LastIncr(s.manifest)] == s.buf;
    ReplayAdopted(t.disk, s.manifest.base.value, s.manifest.incr);
  }

  lemma HoldsOne(d: Disk, h: History, all: History)
    requires Holds(d, h)
    ensures Holds(d, all) <==> h == all
  {}

  lemma DoneShape(s: Server, snapshot: History)
    requires s.state == On && s.child == Some(snapshot) && s.manifest.incr != []
    requires s.fd == Open(LastIncr(s.manifest)) && LastIncr(s.manifest) in s.disk.files
    ensures var (t, last) := (RewriteDone(s, ALL_WELL), LastIncr(s.manifest));
            && t.disk.manifest == Printed(t.manifest) && t.manifest.base.Some?
            && |t.manifest.incr| == 1 && LastIncr(t.manifest) == last
            && Base(t.manifest.base.value) in t.disk.files && t.disk.files[Base(t.manifest.base.value)] == snapshot
            && last in t.disk.files && t.disk.files[last] == s.disk.files[last]
            && t.fd == Open(last) && t.ahead == s.ahead && t.buf == s.buf && t.all == s.all && t.state == On
  {}

  // A failed attempt to switch the append-only file on leaves its descriptor open.
  lemma FailedStartKeepsFd(s: Server)
    requires Inv(s) && s.state == Off && s.child.None?
    ensures var t := StartAppendOnlyFork(s, true, false);
            t.state == Off && t.fd == Open(TempIncr)
  {
  }

  // A rewrite with the append-only file off takes an open descriptor as a sign that the last INCR file is in use: once
  // committed, the log replays to the snapshot followed by that file again, which the snapshot already includes.
  lemma StaleFdReplaysTwice(s: Server, o: Outcome)
    requires Inv(s) && s.state == Off && s.child.Some? && o.written && o.renameBase && o.persist.PersistOk?
    ensures var t := RewriteDone(s, o);
            var more := if s.fd.NoFd? || s.manifest.incr == [] then [] else LastIncrContent(s);
            && t.durable == s.child.value && Holds(t.disk, s.child.value + more)
            && (Holds(t.disk, t.durable) <==> OffQuiet(s))
  {
    hide Holds, RewriteDone, DelHistory, Cleanup, Ordered, OffCommitted;
    var (h, s0) := (s.child.value, Put(s, TempBase, s.child.value));
    var more := if s.fd.NoFd? || s.manifest.incr == [] then [] else LastIncrContent(s);
    OffCommitIs(s, o);
    OffCommitHolds(s);
    var s3 := OffCommitted(s0, h);
    DelHistoryKeeps(s3.(durable := h + more), o.gc, o.persistHistory);
    DelHistoryDurable(s3, h + more, o.gc, o.persistHistory);
    var s4 := DelHistory(s3.(durable := h + more), o.gc, o.persistHistory);
    CleanupKeeps(s4);
    CleanupDurable(s4, h);
    HoldsOne(RewriteDone(s, o).disk, h + more, h);
    assert |h + more| == |h| + |more|;
    assert h + [] == h;
  }

  // The state in which the history is deleted.
  function OffCommitted(s: Server, snapshot: History): Server
    requires TempBase in s.disk.files && s.state == Off
  {
    Persist(Renamed(s), Adopted(s), PersistOk).(manifest := Adopted(s), durable := snapshot)
  }

  lemma OffCommitIs(s: Server, o: Outcome)
    requires s.state == Off && s.child.Some? && o.written && o.renameBase && o.persist.PersistOk?
    ensures var s3 := OffCommitted(Put(s, TempBase, s.child.value), s.child.value);
            RewriteDone(s, o) == Cleanup(DelHistory(s3, o.gc, o.persistHistory)) && s3.durable == s.child.value
  {
    hide Adopt, DelHistory, Renamed, Adopted, Cleanup;
    AdoptIs(Put(s, TempBase, s.child.value), s.child.value, o);
  }

  lemma OffCommitHolds(s: Server)
    requires Inv(s) && s.state == Off && s.child.Some?
    ensures var s3 := OffCommitted(Put(s, TempBase, s.child.value), s.child.value);
            var more := if s.fd.NoFd? || s.manifest.incr == [] then [] else LastIncrContent(s);
            Holds(s3.disk, s.child.value + more) && Agree(s3) && Ordered(s3.manifest)
  {
    hide Holds, Renamed, Ordered, MarkRewritten, NewBase, NewIncr;
    var s0 := Put(s, TempBase, s.child.value);
    RenamedFiles(s0);
    RenamedFd(s0);
    MarkedShape(s.manifest, false, !s.fd.NoFd?);
    if s.manifest.incr != [] {
      LastLive(s);
    }
    hide Inv;
    var s3 := OffCommitted(s0, s.child.value);
    ReplayAdopted(s3.disk, s.manifest.currBase + 1, s3.manifest.incr);
  }

  lemma {:induction false} UnlinkAllDurable(s: Server, h: History, names: seq<Name>)
    ensures UnlinkAll(s.(durable := h), names) == UnlinkAll(s, names).(durable := h)
    decreases |names|
  {
    if names != [] {
      UnlinkAllDurable(Unlink(s, names[0]), h, names[1..]);
    }
  }

  lemma DelHistoryDurable(s: Server, h: History, gc: bool, r: PersistResult)
    ensures DelHistory(s.(durable := h), gc, r) == DelHistory(s, gc, r).(durable := h)
    ensures DelHistory(s, gc, r).durable == s.durable
  {
    UnlinkAllDurable(s, h, s.manifest.history);
    UnlinkAllFrame(s, s.manifest.history);
    hide UnlinkAll;
  }

  lemma CleanupDurable(s: Server, h: History)
    ensures Cleanup(s.(durable := h)) == Cleanup(s).(durable := h)
  {}

  lemma LastLive(s: Server)
    requires Holds(s.disk, s.durable) && Agree(s) && s.manifest.incr != []
    ensures LastIncr(s.manifest) in s.disk.files
  {
    LiveAgree(s, LastIncr(s.manifest));
  }

  // ---------- runs that reach these failures ----------

  lemma {:induction false} RunSnoc(s: Server, events: seq<Event>, e: Event)
    requires AllAllowed(s, events) && Allowed(Run(s, events), e)
    ensures AllAllowed(s, events + [e]) && Run(s, events + [e]) == Step(Run(s, events), e)
    decreases |events|
  {
    hide Step, Allowed;
    var all := events + [e];
    if events == [] {
      assert all == [e] && [e][1..] == [];
      assert AllAllowed(Step(s, e), []);
    } else {
      assert all[0] == events[0] && all[1..] == events[1..] + [e];
      RunSnoc(Step(s, events[0]), events[1..], e);
    }
  }

  // Switched on, with `content` in the file being written.
  predicate Writing(s: Server, content: History)
  {
    && s.state == On && s.child.None? && !s.append && s.ahead == 0
    && s.manifest.incr != [] && s.fd == Open(LastIncr(s.manifest))
    && LastIncr(s.manifest) in s.disk.files && s.disk.files[LastIncr(s.manifest)] == content
  }

  const STARTED := [Start(true, ALL_WELL)]

  lemma StartExample(all: History)
    ensures AllAllowed(Initial(all), STARTED)
    ensures var s := Run(Initial(all), STARTED); Inv(s) && Writing(s, []) && s.buf == [] && s.all == all
  {
    var (s, e) := (Initial(all), Start(true, ALL_WELL));
    RunSnoc(s, [], e);
    assert [] + [e] == STARTED;
    InitialInv(all);
    StepKeeps(s, e);
    hide Inv;
    StartShape(all);
  }

  lemma StartShape(all: History)
    ensures var s := StartAppendOnly(Initial(all), true, ALL_WELL); Writing(s, []) && s.buf == [] && s.all == all
  {}

  const SYNC_FAILS := ALL_WELL.(persist := FailAfterRename)

  // Finishing the rewrite with a failing directory sync leaves a disk that does not replay.
  predicate LosesBase(s: Server)
  {
    s.child.Some? && !Holds(RewriteDone(s, SYNC_FAILS).disk, RewriteDone(s, SYNC_FAILS).durable)
  }

  lemma LostBaseExample(all: History)
    ensures exists events :: AllAllowed(Initial(all), events) && LosesBase(Run(Initial(all), events))
  {
    hide Inv, RewriteDone, BgRewrite, Holds, AllAllowed, Run;
    var e := Rewrite(0, true, PersistOk, true);
    StartExample(all);
    var s := Run(Initial(all), STARTED);
    RunSnoc(Initial(all), STARTED, e);
    StepKeeps(s, e);
    StartedShape(s, 0);
    SyncFailureLosesBase(Step(s, e), SYNC_FAILS);
    assert LosesBase(Run(Initial(all), STARTED + [e]));
  }

  // A rewrite before which nothing is flushed doubles what is in the buffer.
  predicate DoublesLeftover(s: Server)
  {
    Inv(s) && s.state == On && s.child.None? && !Holds(RewriteAround(s, 0).disk, RewriteAround(s, 0).all)
  }

  lemma LeftoverExample(all: History, w: History)
    requires w != []
    ensures exists events :: AllAllowed(Initial(all), events) && DoublesLeftover(Run(Initial(all), events))
  {
    hide Inv, RewriteAround, Holds, AllAllowed, Run;
    CommandExample(all, w);
    LeftoverReplaysTwice(Run(Initial(all), STARTED + [Command(w)]), 0);
    assert DoublesLeftover(Run(Initial(all), STARTED + [Command(w)]));
  }

  // A flush that writes the whole buffer leaves a disk that does not replay.
  predicate LeavesHole(s: Server) { !Holds(Flush(s, |s.buf|).disk, Flush(s, |s.buf|).durable) }

  lemma HoleExample(all: History, w: History)
    requires w != []
    ensures exists events :: AllAllowed(Initial(all), events) && LeavesHole(Run(Initial(all), events))
  {
    hide Inv, Flush, Holds, AllAllowed, Run;
    CommandExample(all, w);
    var s := Run(Initial(all), STARTED + [Command(w)]);
    RunSnoc(Initial(all), STARTED + [Command(w)], TakenBack(1));
    StepKeeps(s, TakenBack(1));
    FlushExactly(Step(s, TakenBack(1)), |w|);
    assert LeavesHole(Run(Initial(all), STARTED + [Command(w)] + [TakenBack(1)]));
  }

  lemma CommandExample(all: History, w: History)
    ensures AllAllowed(Initial(all), STARTED + [Command(w)])
    ensures var s := Run(Initial(all), STARTED + [Command(w)]); Inv(s) && Writing(s, []) && s.buf == w
  {
    StartExample(all);
    var s := Run(Initial(all), STARTED);
    RunSnoc(Initial(all), STARTED, Command(w));
    StepKeeps(s, Command(w));
    hide Inv;
    assert [] + w == w;
  }

  // A logged command; the append-only file is switched off, switching it on again fails, and a rewrite goes well.
  function StaleFdEvents(w: History): seq<Event>
  {
    STARTED + [Command(w)] + [FlushBuffer(|w|)] + [Stop(0)] + [StartFork(true, false)]
  }

  // Finishing a rewrite in which everything goes well leaves a disk that does not replay.
  predicate DoublesLog(s: Server)
  {
    && s.state == Off && s.child.Some?
    && !Holds(RewriteDone(s, ALL_WELL).disk, RewriteDone(s, ALL_WELL).durable)
  }

  lemma StaleFdExample(all: History, w: History)
    requires w != []
    ensures exists events :: AllAllowed(Initial(all), events) && DoublesLog(Run(Initial(all), events))
  {
    hide Inv, RewriteDone, BgRewrite, Holds, Run, AllAllowed, StaleFdEvents;
    var e := Rewrite(0, true, PersistOk, true);
    FailedStartExample(all, w);
    var s := Run(Initial(all), StaleFdEvents(w));
    RunSnoc(Initial(all), StaleFdEvents(w), e);
    StepKeeps(s, e);
    OffRewriteShape(s);
    StaleFdReplaysTwice(Step(s, e), ALL_WELL);
    assert DoublesLog(Run(Initial(all), StaleFdEvents(w) + [e]));
  }

  // Switched off, with an INCR file of this content left.
  predicate OffWith(s: Server, content: History)
  {
    && s.state == Off && s.child.None? && s.buf == [] && s.ahead == 0
    && s.manifest.incr != [] && LastIncrContent(s) == content
  }

  lemma FailedStartExample(all: History, w: History)
    ensures AllAllowed(Initial(all), StaleFdEvents(w))
    ensures var s := Run(Initial(all), StaleFdEvents(w));
            Inv(s) && OffWith(s, w) && s.fd == Open(TempIncr)
  {
    hide Inv, StartAppendOnlyFork, Run, AllAllowed;
    var events := STARTED + [Command(w)] + [FlushBuffer(|w|)] + [Stop(0)];
    StoppedExample(all, w);
    var s := Run(Initial(all), events);
    RunSnoc(Initial(all), events, StartFork(true, false));
    StepKeeps(s, StartFork(true, false));
    FailedStartShape(s);
  }

  lemma StoppedExample(all: History, w: History)
    ensures var events := STARTED + [Command(w)] + [FlushBuffer(|w|)] + [Stop(0)];
            && AllAllowed(Initial(all), events)
            && Inv(Run(Initial(all), events)) && OffWith(Run(Initial(all), events), w)
  {
    hide Inv, StopAppendOnly, Run, AllAllowed;
    var logged := STARTED + [Command(w)] + [FlushBuffer(|w|)];
    LoggedExample(all, w);
    var s := Run(Initial(all), logged);
    RunSnoc(Initial(all), logged, Stop(0));
    StepKeeps(s, Stop(0));
    StopShape(s, w);
  }

  lemma LoggedExample(all: History, w: History)
    ensures var events := STARTED + [Command(w)] + [FlushBuffer(|w|)];
            && AllAllowed(Initial(all), events)
            && var s := Run(Initial(all), events);
            Inv(s) && Writing(s, w) && s.buf == []
  {
    CommandExample(all, w);
    var s := Run(Initial(all), STARTED + [Command(w)]);
    RunSnoc(Initial(all), STARTED + [Command(w)], FlushBuffer(|w|));
    StepKeeps(s, FlushBuffer(|w|));
    hide Inv;
    assert w[..|w|] == w && [] + w == w;
  }

  lemma StopShape(s: Server, content: History)
    requires Writing(s, content) && s.buf == []
    ensures var t := StopAppendOnly(s, 0);
            && t.state == Off && t.child.None? && t.fd.NoFd? && t.buf == [] && t.ahead == 0
            && t.manifest == s.manifest && LastIncrContent(t) == content
  {
    assert content + [] == content;
  }

  lemma FailedStartShape(s: Server)
    requires s.state == Off && s.child.None? && s.buf == [] && s.manifest.incr != []
    ensures var t := StartAppendOnlyFork(s, true, false);
            && t.state == Off && t.child.None? && t.buf == [] && t.ahead == 0 && t.fd == Open(TempIncr)
            && t.manifest == s.manifest && LastIncrContent(t) == LastIncrContent(s)
  {
    if s.fd.Open? && s.fd.name in s.disk.files {
      assert s.disk.files[s.fd.name] + [] == s.disk.files[s.fd.name];
    }
  }

  lemma OffRewriteShape(s: Server)
    requires s.state == Off && s.child.None? && s.buf == [] && s.manifest.incr != [] && s.fd == Open(TempIncr)
    ensures var t := BgRewrite(s, 0, true, PersistOk, true);
            && t.state == Off && t.child.Some? && t.fd == s.fd && t.manifest == s.manifest
            && LastIncrContent(t) == LastIncrContent(s)
  {
    if TempIncr in s.disk.files {
      assert s.disk.files[TempIncr] + [] == s.disk.files[TempIncr];
    }
  }

  // ---------- frames ----------

  lemma {:induction false} UnlinkAllFrame(s: Server, names: seq<Name>)
    ensures var t := UnlinkAll(s, names);
            t == s.(disk := t.disk, trace := t.trace, fd := t.fd)
    decreases |names|
  {
    if names != [] {
      UnlinkAllFrame(Unlink(s, names[0]), names[1..]);
    }
  }

  lemma {:induction false} UnlinkAllNoFd(s: Server, names: seq<Name>)
    ensures s.fd.NoFd? ==> UnlinkAll(s, names).fd.NoFd?
    decreases |names|
  {
    if names != [] {
      UnlinkAllNoFd(Unlink(s, names[0]), names[1..]);
    }
  }

  lemma DelHistoryFrame(s: Server, gc: bool, r: PersistResult)
    ensures var t := DelHistory(s, gc, r);
            t == s.(disk := t.disk, trace := t.trace, fd := t.fd, manifest := t.manifest)
  {
    UnlinkAllFrame(s, s.manifest.history);
    hide UnlinkAll;
  }

  lemma AdoptFrame(s: Server, snapshot: History, o: Outcome)
    requires TempBase in s.disk.files
    ensures var t := Adopt(s, snapshot, o).0;
            t == s.(disk := t.disk, trace := t.trace, fd := t.fd, manifest := t.manifest, durable := t.durable)
  {
    forall s1, gc, r
      ensures var t := DelHistory(s1, gc, r);
              t == s1.(disk := t.disk, trace := t.trace, fd := t.fd, manifest := t.manifest)
    {
      DelHistoryFrame(s1, gc, r);
    }
    hide DelHistory, MarkRewritten;
  }

  lemma LandedIs(s: Server, k: nat)
    requires k <= |s.buf|
    ensures Landed(s, k) == (if k == 0 then [] else Repeat<Byte>(0, s.ahead)) + s.buf[..k]
  {
    assert Repeat<Byte>(0, 0) == [] && [] + s.buf[..k] == s.buf[..k];
  }

  // ---------- the server, changing its fields step by step ----------

  class AofServer {
    var disk: Disk
    ghost var trace: seq<Disk>
    var manifest: Manifest
    var state: AofState
    var fd: Fd
    var append: bool
    var ahead: nat
    var buf: History
    var child: Option<History>
    var all: History
    ghost var durable: History

    ghost function State(): Server
      reads this
    {
      Server(disk, trace, manifest, state, fd, append, ahead, buf, child, all, durable)
    }

    method WriteFile(name: Name, content: History)
      modifies this
      ensures State() == Put(old(State()), name, content)
    {
      disk := disk.(files := disk.files[name := content]);
      trace := trace + [disk];
    }

    method RenameFile(from: Name, to: Name)
      requires from in disk.files
      modifies this
      ensures State() == Rename(old(State()), from, to)
    {
      disk := disk.(files := disk.files[to := disk.files[from]] - {from});
      trace := trace + [disk];
      if fd == Open(from) {
        fd := Open(to);
      } else if fd == Open(to) {
        fd := Detached;
      }
    }

    method UnlinkFile(name: Name)
      modifies this
      ensures State() == Unlink(old(State()), name)
    {
      disk := disk.(files := disk.files - {name});
      trace := trace + [disk];
      if fd == Open(name) {
        fd := Detached;
      }
    }

    method PersistAofManifest(m: Manifest, r: PersistResult) returns (ok: bool)
      modifies this
      ensures State() == Persist(old(State()), m, r) && (ok <==> r.PersistOk?)
    {
      if r.FailBeforeRename? {
        return false;
      }
      disk := disk.(manifest := OnDisk(m.base, m.incr, m.history));
      trace := trace + [disk];
      ok := r.PersistOk?;
    }

    method FlushAppendOnlyFile(k: nat)
      requires k <= |buf|
      modifies this
      ensures State() == Flush(old(State()), k)
    {
      if fd.Open? && fd.name in disk.files {
        var hole := if k == 0 then [] else Repeat<Byte>(0, ahead);
        LandedIs(State(), k);
        WriteFile(fd.name, disk.files[fd.name] + (hole + buf[..k]));
      }
      if state == On {
        durable := durable + buf[..k];
      }
      buf := buf[k..];
      if k > 0 {
        ahead := 0;
      }
    }

    // The branch of flushAppendOnlyFile in which ftruncate takes a short write back.
    method TakeBackShortWrite(n: nat)
      requires n <= |buf|
      modifies this
      ensures State() == ShortFlush(old(State()), n)
    {
      if fd.Open? && fd.name in disk.files {
        var before := disk.files[fd.name];
        LandedIs(State(), n);
        WriteFile(fd.name, before + ((if n == 0 then [] else Repeat<Byte>(0, ahead)) + buf[..n]));
        WriteFile(fd.name, before);
        if !append {
          ahead := ahead + n;
        }
      }
    }

    method OpenNewIncrAofForAppend(openOk: bool, r: PersistResult) returns (ok: bool)
      modifies this
      ensures (State(), ok) == OpenNewIncr(old(State()), openOk, r)
    {
      if state == Off {
        return true;
      }
      if !openOk {
        return false;
      }
      if state == WaitRewrite {
        WriteFile(TempIncr, []);
        fd, append, ahead := Open(TempIncr), false, 0;
        return true;
      }
      var m := NewIncr(manifest);
      WriteFile(Incr(m.currIncr), []);
      ok := PersistAofManifest(m, r);
      if ok {
        fd, append, ahead := Open(Incr(m.currIncr)), false, 0;
        manifest := m;
      }
    }

    method RewriteAppendOnlyFileBackground(k: nat, openOk: bool, r: PersistResult, forkOk: bool)
      requires k <= |buf|
      modifies this
      ensures State() == BgRewrite(old(State()), k, openOk, r, forkOk)
    {
      if child.Some? {
        return;
      }
      FlushAppendOnlyFile(k);
      var ok := OpenNewIncrAofForAppend(openOk, r);
      if ok && forkOk {
        child := Some(all);
      }
    }

    method AofDelHistoryFiles(gc: bool, r: PersistResult)
      modifies this
      ensures State() == DelHistory(old(State()), gc, r)
    {
      if !gc || manifest.history == [] {
        return;
      }
      var history := manifest.history;
      assert history[0..] == history;
      for i := 0 to |history|
        invariant UnlinkAll(State(), history[i..]) == UnlinkAll(old(State()), history)
        invariant manifest == old(manifest)
      {
        assert history[i..][1..] == history[i + 1..];
        UnlinkFile(history[i]);
      }
      manifest := manifest.(history := []);
      var _ := PersistAofManifest(manifest, r);
    }

    // The part that backgroundRewriteDoneHandler and the synchronous startAppendOnly share.
    method AdoptSnapshot(o: Outcome, ghost snapshot: History) returns (ok: bool)
      requires TempBase in disk.files
      modifies this
      ensures (State(), ok) == Adopt(old(State()), snapshot, o)
    {
      hide DelHistory, MarkRewritten, NewBase, NewIncr;
      if !o.renameBase {
        return false;
      }
      var m := NewBase(manifest);
      var base := Base(m.currBase);
      RenameFile(TempBase, base);
      if state == WaitRewrite {
        if !(o.renameIncr && TempIncr in disk.files) {
          UnlinkFile(base);
          return false;
        }
        m := NewIncr(m);
        RenameFile(TempIncr, Incr(m.currIncr));
      }
      var incr := Incr(m.currIncr);
      ghost var content := if state == WaitRewrite then disk.files[incr] else [];
      m := MarkRewritten(m, !fd.NoFd?);
      ok := PersistAofManifest(m, o.persist);
      if !ok {
        UnlinkFile(base);
        if state == WaitRewrite {
          UnlinkFile(incr);
        }
        return false;
      }
      manifest := m;
      durable := match state case On => durable case WaitRewrite => snapshot + content case Off => snapshot;
      AofDelHistoryFiles(o.gc, o.persistHistory);
    }

    method BackgroundRewriteDoneHandler(o: Outcome)
      requires child.Some?
      modifies this
      ensures State() == RewriteDone(old(State()), o)
    {
      hide Adopt;
      if o.written {
        var snapshot := child.value;
        WriteFile(TempBase, snapshot);
        AdoptFrame(State(), snapshot, o);
        var ok := AdoptSnapshot(o, snapshot);
        if ok && state == WaitRewrite {
          state := On;
        }
      }
      UnlinkFile(TempBase);
      child := None;
      if state == WaitRewrite {
        UnlinkFile(TempIncr);
        buf := [];
      }
    }

    // startAppendOnly in a build without fork.
    method StartAppendOnlySync(openOk: bool, o: Outcome)
      requires state == Off && child.None?
      modifies this
      ensures State() == StartAppendOnly(old(State()), openOk, o)
    {
      hide Adopt;
      state := WaitRewrite;
      var ok := OpenNewIncrAofForAppend(openOk, PersistOk);
      if !ok {
        state := Off;
        return;
      }
      if !o.written {
        state := Off;
        UnlinkFile(TempIncr);
        return;
      }
      WriteFile(TempBase, all);
      ok := AdoptSnapshot(o, all);
      if !ok {
        state := Off;
        UnlinkFile(TempIncr);
        return;
      }
      state := On;
      buf := [];
    }

    // startAppendOnly in a build with fork: `later` when another kind of child is running or a transaction is run.
    method StartAppendOnlyBackground(later: bool, openOk: bool, forkOk: bool)
      requires state == Off
      modifies this
      ensures State() == if later then StartAppendOnlyLater(old(State()))
                         else StartAppendOnlyFork(old(State()), openOk, forkOk)
    {
      hide BgRewrite;
      state := WaitRewrite;
      if later {
        return;
      }
      child := None;
      RewriteAppendOnlyFileBackground(0, openOk, PersistOk, forkOk);
      if child.None? {
        state := Off;
      }
    }

    // The forced flush writes `k` bytes.
    method StopAppendOnlyNow(k: nat)
      requires state != Off && k <= |buf|
      modifies this
      ensures State() == StopAppendOnly(old(State()), k)
    {
      hide Flush;
      FlushAppendOnlyFile(k);
      fd, ahead := NoFd, 0;
      state := Off;
      child := None;
      buf := [];
    }
  }
}
