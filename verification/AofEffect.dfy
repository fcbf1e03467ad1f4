// What every operation of the append-only protocol achieves: which state it ends in, what it writes and what it
// deletes, and that logging, once switched on, misses nothing.
module AofEffect {
  import opened Options
  import opened Repeats
  import opened AofProtocol

  // ---------- flushing ----------

  // With the append-only file on, a flush puts the first `k` bytes of the buffer behind what the disk replays to, and
  // keeps the others; while the first rewrite is running it puts them at the end of the temporary INCR file.
  lemma FlushReaches(s: Server, k: nat)
    requires Inv(s) && AtEnd(s, k)
    ensures var t := Flush(s, k);
            && t.state == s.state && t.buf == s.buf[k..] && t.disk.manifest == s.disk.manifest
            && (s.state == On ==> Holds(t.disk, s.durable + s.buf[..k]))
            && (s.state == WaitRewrite && s.child.Some? ==>
                  TempIncr in t.disk.files && t.disk.files[TempIncr] == s.disk.files[TempIncr] + s.buf[..k])
            && forall n | s.fd != Open(n) ::
                 (n in t.disk.files <==> n in s.disk.files)
                 && (n in s.disk.files ==> t.disk.files[n] == s.disk.files[n])
  {
    FlushKeeps(s, k);
    hide Holds, Ordered;
  }

  // Behind a short write that was taken back the descriptor may stand past the end of the file: the next write leaves
  // zeros in between, and then stands at the end again. Taking back `n` bytes puts it `n` bytes further, unless every
  // write goes to the end anyway.
  lemma FlushFills(s: Server, n: Name, k: nat, j: nat)
    requires s.fd == Open(n) && n in s.disk.files && k <= |s.buf|
    ensures var t := Flush(s, k);
            k > 0 ==>
              && t.disk.files == s.disk.files[n := s.disk.files[n] + Repeat<Byte>(0, s.ahead) + s.buf[..k]]
              && (j <= |t.buf| ==> AtEnd(t, j))
    ensures var t := ShortFlush(s, k);
            && t.disk == s.disk && t.buf == s.buf && t.fd == s.fd
            && t.ahead == if s.append then s.ahead else s.ahead + k
  {
    assert s.disk.files[n := s.disk.files[n]] == s.disk.files;
    if s.ahead == 0 {
      assert Repeat<Byte>(0, 0) == [];
      assert s.disk.files[n] + [] == s.disk.files[n];
    }
    var zeros := Repeat<Byte>(0, s.ahead);
    assert s.disk.files[n] + (zeros + s.buf[..k]) == s.disk.files[n] + zeros + s.buf[..k];
  }

  // Switching the append-only file off leaves on disk what the forced flush wrote, which is every write if and only if
  // it wrote the whole buffer.
  lemma StopReaches(s: Server, k: nat)
    requires Inv(s) && s.state == On && AtEnd(s, k)
    ensures var t := StopAppendOnly(s, k);
            && t.state == Off && t.fd.NoFd? && t.child.None? && t.buf == [] && t.all == s.all
            && Holds(t.disk, s.durable + s.buf[..k])
            && (Holds(t.disk, s.all) <==> k == |s.buf|)
  {
    FlushReaches(s, k);
    hide Inv, Ordered, Holds;
    var t := StopAppendOnly(s, k);
    AllIs(s);
    HoldsOne(t.disk, s.durable + s.buf[..k], s.all);
    assert |s.durable + s.buf[..k]| == |s.durable| + k;
    assert k == |s.buf| ==> s.buf[..k] == s.buf;
  }

  lemma AllIs(s: Server)
    requires Inv(s) && s.state == On
    ensures s.all == s.durable + s.buf
  {}

  // From every state in which it is not off, switching it off kills the child, closes the file and drops the buffer.
  lemma StopEnds(s: Server, k: nat)
    requires s.state != Off && k <= |s.buf|
    ensures var t := StopAppendOnly(s, k);
            && t.state == Off && t.fd.NoFd? && t.ahead == 0 && t.child.None? && t.buf == []
            && t.all == s.all && t.manifest == s.manifest
  {}

  // Unlinking a file that is open does not close it: the descriptor stays, and what is written to it is nowhere.
  lemma UnlinkedIsLost(s: Server, n: Name, k: nat)
    requires s.fd == Open(n) && k <= |s.buf|
    ensures var t := Unlink(s, n);
            && !t.fd.NoFd? && n !in t.disk.files && t.disk.manifest == s.disk.manifest
            && (forall m | m != n :: (m in t.disk.files <==> m in s.disk.files)
                                     && (m in s.disk.files ==> t.disk.files[m] == s.disk.files[m]))
            && Flush(t, k).disk == t.disk && Flush(t, k).fd == t.fd
  {}

  // ---------- starting a rewrite ----------

  // A number no file of the manifest has.
  predicate Unused(m: Manifest, n: nat) { n !in m.incr && Incr(n) !in m.history }

  // Opening the next INCR file: what is written from then on goes to a file that was empty, and the manifest records
  // it, unless the append-only file is still to be switched on.
  lemma OpenReaches(s: Server, openOk: bool, r: PersistResult)
    ensures var (t, ok) := OpenNewIncr(s, openOk, r);
            && ok == (s.state == Off || (openOk && (s.state == On ==> r.PersistOk?)))
            && t == s.(disk := t.disk, trace := t.trace, fd := t.fd, append := t.append, ahead := t.ahead,
                       manifest := t.manifest)
            && (!ok || s.state == Off ==>
                  t == s.(disk := t.disk, trace := t.trace) && (s.state == Off || !openOk ==> t == s))
            && (ok && s.state == WaitRewrite ==>
                  && t.manifest == s.manifest && t.disk.manifest == s.disk.manifest
                  && t.fd == Open(TempIncr) && TempIncr in t.disk.files && t.disk.files[TempIncr] == [])
            && (ok && s.state == On ==>
                  && t.manifest.base == s.manifest.base && t.manifest.history == s.manifest.history
                  && t.manifest.incr == s.manifest.incr + [s.manifest.currIncr + 1]
                  && t.disk.manifest == Printed(t.manifest) && t.fd == Open(LastIncr(t.manifest))
                  && LastIncr(t.manifest) in t.disk.files && t.disk.files[LastIncr(t.manifest)] == [])
            && (ok && s.state != Off ==> !t.append && t.ahead == 0)
  {}

  // A rewrite starts exactly when none is running, the new INCR file was opened and recorded, and fork succeeded. Its
  // snapshot is every write so far, and its INCR file is one that no file was before.
  lemma RewriteStarts(s: Server, k: nat, openOk: bool, r: PersistResult, forkOk: bool)
    requires Inv(s) && k <= |s.buf|
    ensures var t := BgRewrite(s, k, openOk, r, forkOk);
            var ready := s.state == Off || (openOk && (s.state == On ==> r.PersistOk?));
            && t.state == s.state && t.all == s.all
            && t.child == (if s.child.Some? then s.child else if ready && forkOk then Some(s.all) else None)
            && (s.child.Some? ==> t == s)
            && (s.child.None? ==> t.buf == s.buf[k..])
            && (s.child.None? && s.state == WaitRewrite && openOk ==>
                  t.fd == Open(TempIncr) && TempIncr in t.disk.files && t.disk.files[TempIncr] == [])
            && (s.child.None? && s.state == On && ready ==>
                  && t.manifest.base == s.manifest.base && t.manifest.history == s.manifest.history
                  && t.manifest.incr == s.manifest.incr + [s.manifest.currIncr + 1]
                  && Unused(s.manifest, s.manifest.currIncr + 1)
                  && t.disk.manifest == Printed(t.manifest) && t.fd == Open(LastIncr(t.manifest))
                  && LastIncr(t.manifest) in t.disk.files && t.disk.files[LastIncr(t.manifest)] == [])
            && (s.child.None? && (s.state != On || !ready) ==> t.manifest == s.manifest)
            && (s.child.None? && (s.state == Off || !openOk) ==> t.fd == s.fd)
  {
    NextUnused(s);
    FlushFrame(s, k);
    OpenReaches(Flush(s, k), openOk, r);
    hide Inv, Flush, OpenNewIncr, Unused, Printed;
  }

  lemma FlushFrame(s: Server, k: nat)
    requires k <= |s.buf|
    ensures var t := Flush(s, k);
            && t == s.(disk := t.disk, trace := t.trace, buf := s.buf[k..], durable := t.durable, ahead := t.ahead)
            && t.disk.manifest == s.disk.manifest
  {}

  lemma NextUnused(s: Server)
    requires Inv(s)
    ensures Unused(s.manifest, s.manifest.currIncr + 1)
  {}

  // ---------- deleting history ----------

  // Every file of the history is gone, every other one untouched, and neither manifest names history any more.
  lemma HistoryDeleted(s: Server, gc: bool, r: PersistResult)
    ensures var t := DelHistory(s, gc, r);
            && (!gc || s.manifest.history == [] ==> t == s)
            && (gc ==> t.manifest == s.manifest.(history := []))
            && (gc && s.manifest.history != [] ==>
                  t.disk.manifest == if r.FailBeforeRename? then s.disk.manifest else Printed(t.manifest))
            && forall n ::
                 && (n in t.disk.files <==> n in s.disk.files && !(gc && n in s.manifest.history))
                 && (n in t.disk.files ==> t.disk.files[n] == s.disk.files[n])
  {
    UnlinkAllExactly(s, s.manifest.history);
    hide UnlinkAll;
  }

  lemma {:induction false} UnlinkAllExactly(s: Server, names: seq<Name>)
    ensures var t := UnlinkAll(s, names);
            && t.manifest == s.manifest && t.disk.manifest == s.disk.manifest
            && forall n ::
                 && (n in t.disk.files <==> n in s.disk.files && n !in names)
                 && (n in t.disk.files ==> t.disk.files[n] == s.disk.files[n])
    decreases |names|
  {
    if names != [] {
      UnlinkAllExactly(Unlink(s, names[0]), names[1..]);
      assert names == [names[0]] + names[1..];
    }
  }

  // ---------- finishing a rewrite ----------

  // Everything up to the new manifest went well.
  predicate Committed(s: Server, o: Outcome)
  {
    o.written && o.renameBase && (s.state == WaitRewrite ==> o.renameIncr) && o.persist.PersistOk?
  }

  // The manifest on disk was replaced: it names a base it did not name before.
  predicate Replaced(s: Server, t: Server)
  {
    t.disk.manifest.base != s.disk.manifest.base && t.disk.manifest.base == Some(s.manifest.currBase + 1)
  }

  // Whether adopting a snapshot commits, and what the manifests name then.
  lemma AdoptEnds(s: Server, snapshot: History, o: Outcome)
    requires TempBase in s.disk.files && (s.state == WaitRewrite ==> TempIncr in s.disk.files)
    requires Agree(s) && Ordered(s.manifest)
    ensures var (t, ok) := Adopt(s, snapshot, o);
            && ok == (o.renameBase && (s.state == WaitRewrite ==> o.renameIncr) && o.persist.PersistOk?)
            && (ok <==> Replaced(s, t) && o.persist.PersistOk?)
            && (!ok ==> t.manifest == s.manifest && t.durable == s.durable)
            && (ok ==> t.manifest.base == Some(s.manifest.currBase + 1))
  {
    BaseIsOld(s.manifest);
    hide Ordered, Agree, Adopt;
    if !o.renameBase {
      AdoptNothing(s, snapshot, o);
    } else if s.state == WaitRewrite && !o.renameIncr {
      AdoptHalfEnds(s, snapshot, o);
    } else if o.persist.PersistOk? {
      AdoptCommits(s, snapshot, o);
    } else {
      AdoptFails(s, snapshot, o);
    }
  }

  lemma AdoptHalfEnds(s: Server, snapshot: History, o: Outcome)
    requires TempBase in s.disk.files && o.renameBase && s.state == WaitRewrite && !o.renameIncr
    ensures var (t, ok) := Adopt(s, snapshot, o);
            !ok && t == s.(disk := t.disk, trace := t.trace, fd := t.fd) && t.disk.manifest == s.disk.manifest
  {
    AdoptHalfIs(s, snapshot, o);
  }

  lemma AdoptFails(s: Server, snapshot: History, o: Outcome)
    requires TempBase in s.disk.files && o.renameBase && !o.persist.PersistOk?
    requires s.state == WaitRewrite ==> o.renameIncr && TempIncr in s.disk.files
    ensures var (t, ok) := Adopt(s, snapshot, o);
            && !ok && t == s.(disk := t.disk, trace := t.trace, fd := t.fd)
            && (o.persist.FailBeforeRename? ==> t.disk.manifest == s.disk.manifest)
            && (o.persist.FailAfterRename? ==> t.disk.manifest.base == Some(s.manifest.currBase + 1))
  {
    hide DelHistory;
  }

  lemma AdoptCommits(s: Server, snapshot: History, o: Outcome)
    requires TempBase in s.disk.files && o.renameBase && o.persist.PersistOk?
    requires s.state == WaitRewrite ==> o.renameIncr && TempIncr in s.disk.files
    ensures var (t, ok) := Adopt(s, snapshot, o);
            ok && t.manifest.base == t.disk.manifest.base == Some(s.manifest.currBase + 1)
  {
    RenamedHas(s);
    AdoptIs(s, snapshot, o);
    RenamedBase(s);
    hide Adopt, DelHistory, Renamed, Adopted;
    var durable := match s.state
                   case On => s.durable
                   case WaitRewrite => snapshot + Renamed(s).disk.files[Incr(s.manifest.currIncr + 1)]
                   case Off => snapshot;
    HistoryDeleted(Persist(Renamed(s), Adopted(s), PersistOk).(manifest := Adopted(s), durable := durable), o.gc,
                   o.persistHistory);
  }

  lemma RenamedHas(s: Server)
    requires TempBase in s.disk.files && (s.state == WaitRewrite ==> TempIncr in s.disk.files)
    ensures s.state == WaitRewrite ==> Incr(s.manifest.currIncr + 1) in Renamed(s).disk.files
  {}

  lemma RenamedBase(s: Server)
    requires TempBase in s.disk.files && (s.state == WaitRewrite ==> TempIncr in s.disk.files)
    ensures Adopted(s).base == Some(s.manifest.currBase + 1)
  {
    hide Renamed;
  }

  // Where a finished rewrite leaves the server.
  predicate DoneEnds(s: Server, o: Outcome, t: Server)
  {
    && t.child.None? && t.all == s.all
    && (Committed(s, o) <==> Replaced(s, t) && o.persist.PersistOk?)
    && t.state == (if s.state == WaitRewrite && Committed(s, o) then On else s.state)
    && t.buf == (if s.state == WaitRewrite && !Committed(s, o) then [] else s.buf)
    && t.manifest.base == (if Committed(s, o) then Some(s.manifest.currBase + 1) else s.manifest.base)
    && (!Committed(s, o) ==> t.manifest == s.manifest && t.durable == s.durable)
  }

  // Whatever happens on the way, a finished rewrite leaves no child. It switches the append-only file on if and only
  // if that was what it was for, the manifest on disk was replaced and the directory synced; no other state changes.
  // A rewrite that fails leaves the manifest in memory as it was, and no rewrite loses what has been buffered, unless
  // it was the first one and fails: then the buffer is of no use and is dropped.
  lemma DoneSwitches(s: Server, o: Outcome)
    requires Inv(s) && s.child.Some?
    ensures DoneEnds(s, o, RewriteDone(s, o))
  {
    InvParts(s);
    if o.written {
      hide Inv, RewriteDone, DoneEnds, Agree, Ordered;
      DoneWritten(s, o);
    } else {
      hide Inv, Cleanup, Agree, Ordered;
      CleanupEnds(s);
    }
  }

  lemma DoneWritten(s: Server, o: Outcome)
    requires s.child.Some? && Agree(Put(s, TempBase, s.child.value)) && Ordered(s.manifest) && o.written
    requires s.state == WaitRewrite ==> TempIncr in s.disk.files
    ensures DoneEnds(s, o, RewriteDone(s, o))
  {
    hide Ordered, Adopt, Agree, Cleanup, Put;
    var s1 := Put(s, TempBase, s.child.value);
    PutFrame(s, TempBase, s.child.value);
    AdoptFrame(s1, s.child.value, o);
    AdoptEnds(s1, s.child.value, o);
    var (s2, ok) := Adopt(s1, s.child.value, o);
    CleanupEnds(if ok && s.state == WaitRewrite then s2.(state := On) else s2);
  }

  lemma CleanupEnds(s: Server)
    ensures var t := Cleanup(s);
            && t == s.(disk := t.disk, trace := t.trace, fd := t.fd, child := None,
                       buf := if s.state == WaitRewrite then [] else s.buf)
            && t.disk.manifest == s.disk.manifest && TempBase !in t.disk.files
            && (s.state == WaitRewrite ==> TempIncr !in t.disk.files)
  {}

  lemma PutFrame(s: Server, name: Name, content: History)
    ensures var t := Put(s, name, content);
            && t == s.(disk := t.disk, trace := t.trace) && t.disk.manifest == s.disk.manifest
            && name in t.disk.files && forall n | n in s.disk.files :: n in t.disk.files
  {}

  lemma InvParts(s: Server)
    requires Inv(s) && s.child.Some?
    ensures Agree(s) && Agree(Put(s, TempBase, s.child.value)) && Ordered(s.manifest)
    ensures s.disk.manifest.base == s.manifest.base && (s.state == WaitRewrite ==> TempIncr in s.disk.files)
  {}

  // ---------- what a committed rewrite names ----------

  // The INCR files a committed rewrite keeps: the one being written.
  function KeptIncr(s: Server): seq<nat>
  {
    match s.state
    case WaitRewrite => [s.manifest.currIncr + 1]
    case _ => if s.manifest.incr == [] || s.fd.NoFd? then [] else [s.manifest.incr[|s.manifest.incr| - 1]]
  }

  // The new history has every file that was named before and is not live any more.
  lemma AdoptedNames(s: Server)
    requires TempBase in s.disk.files && (s.state == WaitRewrite ==> TempIncr in s.disk.files && !s.fd.NoFd?)
    requires Ordered(s.manifest)
    ensures var m := Adopted(s);
            && m.incr == KeptIncr(s)
            && m.currIncr == s.manifest.currIncr + (if s.state == WaitRewrite then 1 else 0)
            && forall n :: n in m.history <==>
                 || n in s.manifest.history || (n.Base? && s.manifest.base == Some(n.n))
                 || (n.Incr? && n.n in s.manifest.incr && n.n !in KeptIncr(s))
  {
    hide Renamed, Ordered, MarkRewritten;
    RenamedFd(s);
    var m1 := NewBase(s.manifest);
    var m2 := if s.state == WaitRewrite then NewIncr(m1) else m1;
    assert Adopted(s) == MarkRewritten(m2, !s.fd.NoFd?);
    MarkedNumbers(s.manifest, m2, s.state == WaitRewrite, !s.fd.NoFd?);
    forall n
      ensures n in Adopted(s).history <==>
              n in m1.history || (n.Incr? && n.n in s.manifest.incr && n.n !in KeptIncr(s))
    {
      hide NewBase, NewIncr;
      MarkedNames(s.manifest, m2, s.state == WaitRewrite, !s.fd.NoFd?, n);
    }
  }

  lemma MarkedNumbers(m: Manifest, m2: Manifest, adding: bool, writing: bool)
    requires adding ==> writing
    requires m2.incr == if adding then m.incr + [m.currIncr + 1] else m.incr
    ensures var a := MarkRewritten(m2, writing);
            && a.currIncr == m2.currIncr
            && a.incr == if adding then [m.currIncr + 1]
                         else if m.incr == [] || !writing then [] else [m.incr[|m.incr| - 1]]
  {}

  lemma MarkedNames(m: Manifest, m2: Manifest, adding: bool, writing: bool, n: Name)
    requires Ordered(m) && (adding ==> writing)
    requires m2.incr == if adding then m.incr + [m.currIncr + 1] else m.incr
    ensures var kept := if adding then [m.currIncr + 1]
                        else if m.incr == [] || !writing then [] else [m.incr[|m.incr| - 1]];
            n in MarkRewritten(m2, writing).history <==>
            n in m2.history || (n.Incr? && n.n in m.incr && n.n !in kept)
  {
    var k := |m2.incr| - if writing && m2.incr != [] then 1 else 0;
    assert m2.incr[..k] == if adding then m.incr else m.incr[..k];
    IncrNamesIn(m2.incr[..k], n);
    assert m2.incr == m2.incr[..k] + m2.incr[k..];
  }

  lemma IncrNamesIn(incr: seq<nat>, n: Name)
    ensures n in IncrNames(incr) <==> n.Incr? && n.n in incr
  {
    if n.Incr? && n.n in incr {
      var i :| 0 <= i < |incr| && incr[i] == n.n;
      assert IncrNames(incr)[i] == n;
    }
  }

  // A file that was named, and is not live once the rewrite has been committed.
  predicate Superseded(s: Server, n: Name)
  {
    || n in s.manifest.history || (n.Base? && s.manifest.base == Some(n.n))
    || (n.Incr? && n.n in s.manifest.incr && n.n !in KeptIncr(s))
  }

  // The INCR file being written is kept; every other file that was named is deleted, or history.
  ghost predicate NamesLeft(s: Server, t: Server, gc: bool)
  {
    && t.manifest.incr == t.disk.manifest.incr == KeptIncr(s)
    && forall n ::
         && (n in t.manifest.history <==> Superseded(s, n) && !gc)
         && (Superseded(s, n) && gc ==> n !in t.disk.files)
  }

  lemma DoneNames(s: Server, o: Outcome)
    requires Inv(s) && s.child.Some? && Committed(s, o)
    ensures NamesLeft(s, RewriteDone(s, o), o.gc)
  {
    InvParts(s);
    var s1 := Put(s, TempBase, s.child.value);
    PutFrame(s, TempBase, s.child.value);
    WaitingFd(s);
    hide Inv, Adopt, Ordered, Cleanup, Agree, Put, NamesLeft;
    AdoptFrame(s1, s.child.value, o);
    AdoptEnds(s1, s.child.value, o);
    AdoptNames(s1, s.child.value, o);
    var (s4, ok) := Adopt(s1, s.child.value, o);
    var s5 := if s.state == WaitRewrite then s4.(state := On) else s4;
    CleanupNames(s, s1, s4, s5, o.gc);
  }

  lemma AdoptNames(s: Server, snapshot: History, o: Outcome)
    requires Ordered(s.manifest) && TempBase in s.disk.files && o.renameBase && o.persist.PersistOk?
    requires s.state == WaitRewrite ==> o.renameIncr && TempIncr in s.disk.files && !s.fd.NoFd?
    ensures NamesLeft(s, Adopt(s, snapshot, o).0, o.gc)
  {
    hide Adopt, Ordered, KeptIncr, DelHistory, Renamed, Adopted;
    RenamedHas(s);
    AdoptIs(s, snapshot, o);
    AdoptedNames(s);
    var durable := match s.state
                   case On => s.durable
                   case WaitRewrite => snapshot + Renamed(s).disk.files[Incr(s.manifest.currIncr + 1)]
                   case Off => snapshot;
    var s3 := Persist(Renamed(s), Adopted(s), PersistOk).(manifest := Adopted(s), durable := durable);
    HistoryDeleted(s3, o.gc, o.persistHistory);
  }

  lemma CleanupNames(s: Server, s1: Server, s4: Server, s5: Server, gc: bool)
    requires s1 == s.(disk := s1.disk, trace := s1.trace) && NamesLeft(s1, s4, gc)
    requires s5 == s4.(state := s5.state)
    ensures NamesLeft(s, Cleanup(s5), gc)
  {
    hide KeptIncr;
    KeptSame(s, s1);
  }

  lemma WaitingFd(s: Server)
    requires Inv(s) && s.child.Some?
    ensures s.state == WaitRewrite ==> !s.fd.NoFd?
  {}

  lemma KeptSame(s: Server, s1: Server)
    requires s1 == s.(disk := s1.disk, trace := s1.trace)
    ensures KeptIncr(s1) == KeptIncr(s)
  {}

  // ---------- no file is forgotten on disk ----------

  predicate Named(m: Manifest, n: Name)
  {
    (n.Base? && m.base == Some(n.n)) || (n.Incr? && n.n in m.incr) || n in m.history
  }

  // A file that need not be deleted: the manifest names it, or it has the number of an INCR file still to be opened,
  // which empties it.
  predicate Accounted(m: Manifest, n: Name)
  {
    (n.Base? ==> Named(m, n)) && (n.Incr? ==> Named(m, n) || n.n > m.currIncr)
  }

  predicate NamesOnly(s: Server) { forall n | n in s.disk.files :: Accounted(s.manifest, n) }

  predicate Tidy(s: Server) { TempBase !in s.disk.files && NamesOnly(s) }

  lemma FewerFiles(s: Server, t: Server)
    requires NamesOnly(s) && t.manifest == s.manifest && forall n | n in t.disk.files :: n in s.disk.files
    ensures NamesOnly(t)
  {}

  lemma OpenTidy(s: Server, openOk: bool, r: PersistResult)
    requires Tidy(s)
    ensures Tidy(OpenNewIncr(s, openOk, r).0)
  {}

  lemma FlushTidy(s: Server, k: nat)
    requires Tidy(s) && k <= |s.buf|
    ensures Tidy(Flush(s, k)) && Tidy(ShortFlush(s, k))
  {}

  lemma DelHistoryTidy(s: Server, gc: bool, r: PersistResult)
    requires NamesOnly(s)
    ensures NamesOnly(DelHistory(s, gc, r))
  {
    HistoryDeleted(s, gc, r);
    hide DelHistory;
  }

  lemma AdoptTidy(s: Server, snapshot: History, o: Outcome)
    requires NamesOnly(s) && Ordered(s.manifest)
    requires TempBase in s.disk.files && (s.state == WaitRewrite ==> TempIncr in s.disk.files && !s.fd.NoFd?)
    ensures NamesOnly(Adopt(s, snapshot, o).0)
  {
    hide NamesOnly, Adopt, Ordered, Renamed, Adopted, DelHistory;
    if !o.renameBase {
      AdoptNothing(s, snapshot, o);
    } else if s.state == WaitRewrite && !o.renameIncr {
      AdoptHalfFiles(s, snapshot, o);
      FewerFiles(s, Adopt(s, snapshot, o).0);
    } else if !o.persist.PersistOk? {
      AdoptFails(s, snapshot, o);
      AdoptFailsFiles(s, snapshot, o);
      FewerFiles(s, Adopt(s, snapshot, o).0);
    } else {
      RenamedHas(s);
      AdoptIs(s, snapshot, o);
      var durable := match s.state
                     case On => s.durable
                     case WaitRewrite => snapshot + Renamed(s).disk.files[Incr(s.manifest.currIncr + 1)]
                     case Off => snapshot;
      CommitTidy(s, durable);
      var s3 := Persist(Renamed(s), Adopted(s), PersistOk).(manifest := Adopted(s), durable := durable);
      DelHistoryTidy(s3, o.gc, o.persistHistory);
    }
  }

  lemma AdoptHalfFiles(s: Server, snapshot: History, o: Outcome)
    requires TempBase in s.disk.files && o.renameBase && s.state == WaitRewrite && !o.renameIncr
    ensures var t := Adopt(s, snapshot, o).0;
            t.manifest == s.manifest && forall n | n in t.disk.files :: n in s.disk.files
  {
    AdoptHalfIs(s, snapshot, o);
    hide Adopt;
  }

  lemma AdoptFailsFiles(s: Server, snapshot: History, o: Outcome)
    requires TempBase in s.disk.files && o.renameBase && !o.persist.PersistOk?
    requires s.state == WaitRewrite ==> o.renameIncr && TempIncr in s.disk.files
    ensures forall n | n in Adopt(s, snapshot, o).0.disk.files :: n in s.disk.files
  {
    hide DelHistory, MarkRewritten;
  }

  lemma CommitTidy(s: Server, durable: History)
    requires NamesOnly(s) && Ordered(s.manifest)
    requires TempBase in s.disk.files && (s.state == WaitRewrite ==> TempIncr in s.disk.files && !s.fd.NoFd?)
    ensures NamesOnly(Persist(Renamed(s), Adopted(s), PersistOk).(manifest := Adopted(s), durable := durable))
  {
    hide Ordered, Renamed, Adopted, Accounted;
    AdoptedNames(s);
    RenamedBase(s);
    var m := Adopted(s);
    forall n | n in Renamed(s).disk.files
      ensures Accounted(m, n)
    {
      RenamedFrom(s, n);
      AccountedAfter(s, n);
    }
  }

  lemma RenamedFrom(s: Server, n: Name)
    requires TempBase in s.disk.files && (s.state == WaitRewrite ==> TempIncr in s.disk.files)
    requires n in Renamed(s).disk.files
    ensures || n in s.disk.files || n == Base(s.manifest.currBase + 1)
            || (s.state == WaitRewrite && n == Incr(s.manifest.currIncr + 1))
  {}

  lemma AccountedAfter(s: Server, n: Name)
    requires TempBase in s.disk.files && (s.state == WaitRewrite ==> TempIncr in s.disk.files && !s.fd.NoFd?)
    requires Ordered(s.manifest)
    requires || Accounted(s.manifest, n) || n == Base(s.manifest.currBase + 1)
             || (s.state == WaitRewrite && n == Incr(s.manifest.currIncr + 1))
    ensures Accounted(Adopted(s), n)
  {
    hide Ordered, Adopted;
    AdoptedNames(s);
    RenamedBase(s);
  }

  lemma DoneTidy(s: Server, o: Outcome)
    requires Inv(s) && s.child.Some? && Tidy(s)
    ensures Tidy(RewriteDone(s, o))
  {
    InvParts(s);
    hide Inv, Adopt, Ordered, Cleanup, NamesOnly;
    if o.written {
      var s1 := Put(s, TempBase, s.child.value);
      TempTidy(s, s.child.value);
      AdoptTidy(s1, s.child.value, o);
      var (s2, ok) := Adopt(s1, s.child.value, o);
      var s3 := if ok && s.state == WaitRewrite then s2.(state := On) else s2;
      CleanupTidy(s2);
      CleanupTidy(s3);
    } else {
      CleanupTidy(s);
    }
  }

  lemma TempTidy(s: Server, content: History)
    requires NamesOnly(s)
    ensures NamesOnly(Put(s, TempBase, content))
  {}

  lemma CleanupTidy(s: Server)
    requires NamesOnly(s)
    ensures Tidy(Cleanup(s)) && Tidy(Cleanup(s.(state := On)))
  {}

  // The synchronous start leaves the temporary snapshot behind if and only if renaming it fails; the background rewrite
  // never does.
  predicate LeavesTemp(e: Event) { e.Start? && e.openOk && e.o.written && !e.o.renameBase }

  lemma StartTidy(s: Server, openOk: bool, o: Outcome)
    requires Inv(s) && s.state == Off && s.child.None? && Tidy(s)
    ensures var t := StartAppendOnly(s, openOk, o);
            NamesOnly(t) && (TempBase in t.disk.files <==> LeavesTemp(Start(openOk, o)))
  {
    var w := s.(state := WaitRewrite);
    var s1 := OpenNewIncr(w, openOk, PersistOk).0;
    OpenTidy(w, openOk, PersistOk);
    OpenReaches(w, openOk, PersistOk);
    if openOk && o.written {
      var s2 := Put(s1, TempBase, s.all);
      TempTidy(s1, s.all);
      StartParts(s, s1);
      AdoptTidy(s2, s.all, o);
      AdoptTemp(s2, s.all, o);
    }
    hide Inv, Adopt, OpenNewIncr, Holds, Agree, Ordered;
  }

  lemma AdoptTemp(s: Server, snapshot: History, o: Outcome)
    requires TempBase in s.disk.files && (s.state == WaitRewrite ==> TempIncr in s.disk.files)
    ensures TempBase in Adopt(s, snapshot, o).0.disk.files <==> !o.renameBase
  {
    if o.renameBase && o.persist.PersistOk? && (s.state == WaitRewrite ==> o.renameIncr) {
      RenamedHas(s);
      AdoptIs(s, snapshot, o);
      var durable := match s.state
                     case On => s.durable
                     case WaitRewrite => snapshot + Renamed(s).disk.files[Incr(s.manifest.currIncr + 1)]
                     case Off => snapshot;
      var s3 := Persist(Renamed(s), Adopted(s), PersistOk).(manifest := Adopted(s), durable := durable);
      HistoryDeleted(s3, o.gc, o.persistHistory);
    }
    hide DelHistory, MarkRewritten;
  }

  lemma StepTidy(s: Server, e: Event)
    requires Inv(s) && Allowed(s, e) && Tidy(s)
    ensures NamesOnly(Step(s, e)) && (TempBase in Step(s, e).disk.files <==> LeavesTemp(e))
  {
    hide Inv, Flush, ShortFlush, OpenNewIncr, RewriteDone, StartAppendOnly, NamesOnly;
    match e {
      case Command(w) => SameTidy(s, WriteCommand(s, w));
      case FlushBuffer(k) => FlushTidy(s, k);
      case TakenBack(n) => FlushTidy(s, n);
      case Rewrite(k, openOk, r, forkOk) => RewriteTidy(s, k, openOk, r, forkOk);
      case Done(o) => DoneTidy(s, o);
      case Start(openOk, o) => StartTidy(s, openOk, o);
      case StartFork(openOk, forkOk) =>
        hide BgRewrite;
        var w := s.(state := WaitRewrite, child := None);
        SameTidy(s, w);
        RewriteTidy(w, 0, openOk, PersistOk, forkOk);
        SameTidy(BgRewrite(w, 0, openOk, PersistOk, forkOk), Step(s, e));
      case StartLater => SameTidy(s, Step(s, e));
      case Stop(k) =>
        FlushTidy(s, k);
        SameTidy(Flush(s, k), Step(s, e));
    }
  }

  lemma SameTidy(s: Server, t: Server)
    requires Tidy(s) && t.disk == s.disk && t.manifest == s.manifest
    ensures Tidy(t)
  {}

  lemma RewriteTidy(s: Server, k: nat, openOk: bool, r: PersistResult, forkOk: bool)
    requires Tidy(s) && k <= |s.buf|
    ensures Tidy(BgRewrite(s, k, openOk, r, forkOk))
  {
    hide Tidy, Flush, OpenNewIncr;
    if s.child.None? {
      FlushTidy(s, k);
      OpenTidy(Flush(s, k), openOk, r);
      var (s1, ok) := OpenNewIncr(Flush(s, k), openOk, r);
      SameTidy(s1, BgRewrite(s, k, openOk, r, forkOk));
    }
  }

  // Over every run, nothing is on disk that no manifest accounts for, and the temporary snapshot only after a
  // synchronous start that could not rename it.
  lemma {:induction false} RunTidy(s: Server, events: seq<Event>)
    requires Inv(s) && Tidy(s) && AllAllowed(s, events) && forall i | 0 <= i < |events| :: !LeavesTemp(events[i])
    ensures Tidy(Run(s, events))
    decreases |events|
  {
    hide Inv, Step, NamesOnly, Allowed, LeavesTemp;
    if events != [] {
      StepKeeps(s, events[0]);
      StepTidy(s, events[0]);
      RunTidy(Step(s, events[0]), events[1..]);
    }
  }

  // ---------- switching on ----------

  // Every step of the synchronous start went well.
  predicate AllDone(openOk: bool, o: Outcome)
  {
    openOk && o.written && o.renameBase && o.renameIncr && o.persist.PersistOk?
  }

  // The synchronous start switches the append-only file on if and only if every step went well; then the log is every
  // write so far. Otherwise it stays off, and the manifest in memory with it.
  lemma StartEnds(s: Server, openOk: bool, o: Outcome)
    requires Inv(s) && s.state == Off && s.child.None?
    ensures var t := StartAppendOnly(s, openOk, o);
            && t.state == (if AllDone(openOk, o) then On else Off)
            && t.all == s.all && t.buf == [] && t.child.None?
            && t.manifest.base == (if AllDone(openOk, o) then Some(s.manifest.currBase + 1) else s.manifest.base)
            && (AllDone(openOk, o) ==> Holds(t.disk, s.all))
            && (!AllDone(openOk, o) ==> t.manifest == s.manifest)
  {
    WaitInv(s);
    var w := s.(state := WaitRewrite);
    var s1 := OpenNewIncr(w, openOk, PersistOk).0;
    OpenReaches(w, openOk, PersistOk);
    if openOk && o.written {
      StartParts(s, s1);
      StartAdopts(s, s1, o);
    }
    if AllDone(openOk, o) {
      StartKeeps(s, openOk, o);
      hide Inv, StartAppendOnly, OpenNewIncr, Holds;
      OnHolds(StartAppendOnly(s, openOk, o));
    }
    hide Inv, Adopt, OpenNewIncr, Holds, Agree, Ordered;
  }

  lemma StartAdopts(s: Server, s1: Server, o: Outcome)
    requires s1 == s.(state := WaitRewrite, disk := s1.disk, trace := s1.trace, fd := s1.fd, append := s1.append,
                      ahead := s1.ahead)
    requires Ordered(s.manifest) && Agree(Put(s1, TempBase, s.all)) && TempIncr in s1.disk.files
    ensures var (t, ok) := Adopt(Put(s1, TempBase, s.all), s.all, o);
            && t.all == s.all && t.buf == s.buf && t.child == s.child
            && ok == (o.renameBase && o.renameIncr && o.persist.PersistOk?)
            && t.manifest.base == (if ok then Some(s.manifest.currBase + 1) else s.manifest.base)
            && (!ok ==> t.manifest == s.manifest)
  {
    hide Ordered, Agree, Adopt, Put;
    var s2 := Put(s1, TempBase, s.all);
    PutFrame(s1, TempBase, s.all);
    AdoptFrame(s2, s.all, o);
    AdoptEnds(s2, s.all, o);
  }

  lemma OnHolds(s: Server)
    requires Inv(s) && s.state == On && s.buf == []
    ensures Holds(s.disk, s.all)
  {
    hide Holds;
    assert s.durable + [] == s.durable;
  }

  lemma StartParts(s: Server, s1: Server)
    requires Inv(s) && s1.manifest == s.manifest && s1.disk.manifest == s.disk.manifest
    ensures Ordered(s.manifest) && Agree(Put(s1, TempBase, s.all))
  {}

  lemma StartForkEnds(s: Server, openOk: bool, forkOk: bool)
    requires Inv(s) && s.state == Off
    ensures var t := StartAppendOnlyFork(s, openOk, forkOk);
            && t.state == (if openOk && forkOk then WaitRewrite else Off)
            && t.child == (if openOk && forkOk then Some(s.all) else None)
            && t.all == s.all && t.buf == [] && t.manifest == s.manifest
            && (openOk && forkOk ==> t.fd == Open(TempIncr) && TempIncr in t.disk.files && t.disk.files[TempIncr] == [])
  {
    var w := s.(state := WaitRewrite, child := None);
    WaitInv(s);
    RewriteStarts(w, 0, openOk, PersistOk, forkOk);
    hide Inv, BgRewrite;
  }

  lemma WaitInv(s: Server)
    requires Inv(s) && s.state == Off
    ensures Inv(s.(state := WaitRewrite, child := None)) && s.buf == []
  {
    hide Holds, Ordered;
  }

  // ---------- the state, over runs ----------

  // When the append-only file is off, waiting for its first rewrite, and on.
  function NextState(s: Server, e: Event): AofState
  {
    match e
    case Done(o) => if s.state == WaitRewrite && Committed(s, o) then On else s.state
    case Start(openOk, o) => if AllDone(openOk, o) then On else Off
    case StartFork(openOk, forkOk) => if openOk && forkOk then WaitRewrite else Off
    case StartLater => WaitRewrite
    case Stop(_) => Off
    case _ => s.state
  }

  function WrittenBy(e: Event): History { if e.Command? then e.w else [] }

  lemma StepState(s: Server, e: Event)
    requires Inv(s) && Allowed(s, e)
    ensures Step(s, e).state == NextState(s, e) && Step(s, e).all == s.all + WrittenBy(e)
  {
    hide Inv, Flush, ShortFlush, BgRewrite, RewriteDone, StartAppendOnly, StartAppendOnlyFork, StopAppendOnly;
    assert s.all + [] == s.all;
    match e {
      case Command(w) =>
      case FlushBuffer(k) => FlushFrame(s, k);
      case TakenBack(n) => ShortFlushFrame(s, n);
      case Rewrite(k, openOk, r, forkOk) => RewriteStarts(s, k, openOk, r, forkOk);
      case Done(o) => DoneSwitches(s, o);
      case Start(openOk, o) => StartEnds(s, openOk, o);
      case StartFork(openOk, forkOk) => StartForkEnds(s, openOk, forkOk);
      case StartLater =>
      case Stop(k) => StopEnds(s, k);
    }
  }

  lemma ShortFlushFrame(s: Server, n: nat)
    requires n <= |s.buf|
    ensures var t := ShortFlush(s, n);
            t == s.(disk := t.disk, trace := t.trace, ahead := t.ahead)
  {}

  // Every write the server has executed since the start of the run, in order.
  function Written(events: seq<Event>): History
    decreases |events|
  {
    if events == [] then [] else WrittenBy(events[0]) + Written(events[1..])
  }

  lemma {:induction false} RunWrites(s: Server, events: seq<Event>)
    requires Inv(s) && AllAllowed(s, events)
    ensures Run(s, events).all == s.all + Written(events)
    decreases |events|
  {
    hide Inv, Step, Allowed, WrittenBy;
    if events == [] {
      assert s.all + [] == s.all;
    } else {
      StepState(s, events[0]);
      StepKeeps(s, events[0]);
      var s1 := Step(s, events[0]);
      RunWrites(s1, events[1..]);
      Regroup(s.all, WrittenBy(events[0]), Written(events[1..]));
    }
  }

  predicate NeverStopped(events: seq<Event>) { forall i | 0 <= i < |events| :: !events[i].Stop? }

  lemma {:induction false} StaysOn(s: Server, events: seq<Event>)
    requires Inv(s) && AllAllowed(s, events) && s.state == On && NeverStopped(events)
    ensures Run(s, events).state == On
    decreases |events|
  {
    hide Inv, Step;
    if events != [] {
      StepState(s, events[0]);
      StepKeeps(s, events[0]);
      StaysOn(Step(s, events[0]), events[1..]);
    }
  }

  // Once on, and as long as it is not switched off, the log followed by the buffer is what they were, followed by
  // every write since.
  lemma LoggingGoesOn(s: Server, events: seq<Event>)
    requires Inv(s) && AllAllowed(s, events) && s.state == On && NeverStopped(events)
    ensures var t := Run(s, events);
            && t.state == On && Holds(t.disk, t.durable)
            && t.durable + t.buf == s.durable + s.buf + Written(events)
  {
    StaysOn(s, events);
    RunWrites(s, events);
    RunKeeps(s, events);
    AllIs(s);
    AllIs(Run(s, events));
    hide Run, Ordered, Holds, Written;
  }

  // The first rewrite that commits switches logging on: from then on no write is missing, neither those executed while
  // the rewrite was running nor those that follow.
  lemma FirstRewriteLogs(s: Server, o: Outcome, events: seq<Event>)
    requires Inv(s) && s.state == WaitRewrite && Allowed(s, Done(o)) && Committed(s, o)
    requires AllAllowed(Step(s, Done(o)), events) && NeverStopped(events)
    ensures var t := Run(Step(s, Done(o)), events);
            && t.state == On && Holds(t.disk, t.durable)
            && t.durable + t.buf == s.all + Written(events)
  {
    var s1 := Step(s, Done(o));
    StepKeeps(s, Done(o));
    StepState(s, Done(o));
    hide Inv, Step, Run, Holds, Written;
    assert s.all + [] == s.all;
    AllIs(s1);
    LoggingGoesOn(s1, events);
  }

  // ---------- switching on inside a transaction, while a rewrite is running ----------

  // Everything the end of a rewrite can run into goes well.
  predicate Smooth(o: Outcome) { o.written && o.renameBase && o.renameIncr && o.persist.PersistOk? }

  // Inside a transaction a rewrite that is running is not killed, although it has not been filling the buffer. When it
  // ends, the append-only file is switched on if and only if an old temporary INCR file is there to be renamed; the
  // log then replays to the snapshot alone, names no INCR file, and misses every write since the rewrite began.
  lemma LaterDuringRewrite(s: Server, o: Outcome)
    requires Inv(s) && s.state == Off && s.child.Some? && s.fd.NoFd? && Smooth(o)
    ensures var t := RewriteDone(StartAppendOnlyLater(s), o);
            && t.state == (if TempIncr in s.disk.files then On else WaitRewrite)
            && (t.state == WaitRewrite ==> t.manifest == s.manifest && Holds(t.disk, s.durable))
            && (t.state == On ==>
                  && t.fd.NoFd? && t.disk.manifest.incr == [] && Holds(t.disk, s.child.value) && t.all == s.all
                  && (Holds(t.disk, t.all) <==> s.all == s.child.value))
  {
    var u := StartAppendOnlyLater(s);
    var u1 := Put(u, TempBase, s.child.value);
    hide Holds, Ordered, Agree;
    if TempIncr in s.disk.files {
      LaterCommits(u1, s.child.value, o);
      hide Inv, Adopt;
      var s2 := Adopt(u1, s.child.value, o).0.(state := On);
      CleanupKeeps(s2.(durable := s.child.value));
      CleanupDurable(s2, s.child.value);
      CleanupNoFd(s2);
      var t := RewriteDone(u, o);
      HoldsOne(t.disk, s.child.value, t.all);
    } else {
      hide Inv;
      PutKeeps(u, TempBase, s.child.value);
      LaterFails(u1, s.child.value, o);
      var s2 := Adopt(u1, s.child.value, o).0;
      hide Adopt;
      CleanupKeeps(s2);
    }
  }

  lemma CleanupNoFd(s: Server)
    ensures Cleanup(s).disk.manifest == s.disk.manifest && (s.fd.NoFd? ==> Cleanup(s).fd.NoFd?)
  {}

  lemma LaterCommits(s: Server, snapshot: History, o: Outcome)
    requires Agree(s) && Ordered(s.manifest) && s.state == WaitRewrite && s.fd.NoFd? && Smooth(o)
    requires TempIncr in s.disk.files && TempBase in s.disk.files && s.disk.files[TempBase] == snapshot
    ensures var (t, ok) := Adopt(s, snapshot, o);
            && ok && t.fd.NoFd? && t.disk.manifest.incr == [] && t.all == s.all && t.state == s.state
            && t.child == s.child
            && Holds(t.disk, snapshot) && Agree(t) && Ordered(t.manifest)
  {
    hide Holds, Ordered, Adopt, Renamed, DelHistory, Agree;
    RenamedHas(s);
    AdoptIs(s, snapshot, o);
    AdoptFrame(s, snapshot, o);
    RenamedPlaces(s);
    LaterNames(s);
    var durable := snapshot + Renamed(s).disk.files[Incr(s.manifest.currIncr + 1)];
    var s3 := Persist(Renamed(s), Adopted(s), PersistOk).(manifest := Adopted(s), durable := durable);
    LaterAgree(s3.(durable := snapshot));
    ReplayAdopted(s3.disk, s.manifest.currBase + 1, []);
    assert snapshot + [] == snapshot;
    DelHistoryKeeps(s3.(durable := snapshot), o.gc, o.persistHistory);
    DelHistoryDurable(s3, snapshot, o.gc, o.persistHistory);
    LaterDeleted(s3, o);
    SameAgree(DelHistory(s3.(durable := snapshot), o.gc, o.persistHistory), Adopt(s, snapshot, o).0);
  }

  lemma SameAgree(s: Server, t: Server)
    requires Agree(s) && t.disk == s.disk && t.manifest == s.manifest
    ensures Agree(t)
  {}

  lemma LaterAgree(s: Server)
    requires s.disk.manifest == Printed(s.manifest)
    ensures Agree(s)
  {}

  lemma LaterDeleted(s: Server, o: Outcome)
    requires s.fd.NoFd? && s.manifest.incr == s.disk.manifest.incr == []
    ensures var t := DelHistory(s, o.gc, o.persistHistory);
            t.fd.NoFd? && t.disk.manifest.incr == []
  {
    HistoryDeleted(s, o.gc, o.persistHistory);
    UnlinkAllNoFd(s, s.manifest.history);
    hide UnlinkAll;
  }

  lemma RenamedPlaces(s: Server)
    requires TempBase in s.disk.files && TempIncr in s.disk.files && s.state == WaitRewrite && s.fd.NoFd?
    ensures var (t, base) := (Renamed(s), Base(s.manifest.currBase + 1));
            && t == s.(disk := t.disk, trace := t.trace)
            && base in t.disk.files && t.disk.files[base] == s.disk.files[TempBase]
  {}

  lemma LaterNames(s: Server)
    requires TempBase in s.disk.files && TempIncr in s.disk.files && s.state == WaitRewrite && s.fd.NoFd?
    requires Ordered(s.manifest)
    ensures Adopted(s).incr == [] && Adopted(s).base == Some(s.manifest.currBase + 1) && Ordered(Adopted(s))
  {
    RenamedFd(s);
    hide Renamed, Ordered, MarkRewritten;
    var m1 := NewBase(s.manifest);
    NewBaseOrdered(s.manifest);
    NewIncrOrdered(m1);
    MarkOrdered(NewIncr(m1), false);
  }

  lemma LaterFails(s: Server, snapshot: History, o: Outcome)
    requires Holds(s.disk, s.durable) && Agree(s) && Ordered(s.manifest) && s.state == WaitRewrite && Smooth(o)
    requires TempIncr !in s.disk.files && TempBase in s.disk.files
    ensures var (t, ok) := Adopt(s, snapshot, o);
            && !ok && t == s.(disk := t.disk, trace := t.trace, fd := t.fd)
            && Holds(t.disk, s.durable) && Agree(t)
  {
    hide Holds, Ordered, Agree;
    var base := Base(s.manifest.currBase + 1);
    BaseIsOld(s.manifest);
    RenameKeeps(s, TempBase, base);
    UnlinkKeeps(Rename(s, TempBase, base), base);
    hide MarkRewritten, DelHistory;
  }

  // Switched on and off again before its first rewrite has ended, then a rewrite and a write.
  const BEGUN: seq<Event> := [StartFork(true, true)]
  const STOPPED: seq<Event> := BEGUN + [Stop(0)]
  const REWRITING: seq<Event> := STOPPED + [Rewrite(0, true, PersistOk, true)]

  // Switching on inside a transaction, the rewrite then going well: the log misses what was written.
  predicate MissesWrite(s: Server)
  {
    && s.state == Off
    && var t := StartAppendOnlyLater(s);
    t.child.Some? && RewriteDone(t, ALL_WELL).state == On && !Holds(RewriteDone(t, ALL_WELL).disk, t.all)
  }

  lemma LaterExample(all: History, w: History)
    requires w != []
    ensures exists events :: AllAllowed(Initial(all), events) && MissesWrite(Run(Initial(all), events))
  {
    hide Inv, RewriteDone, BgRewrite, StartAppendOnlyFork, Holds, Run, AllAllowed, REWRITING;
    RewritingExample(all);
    var s := Run(Initial(all), REWRITING);
    RunSnoc(Initial(all), REWRITING, Command(w));
    StepKeeps(s, Command(w));
    var t := Step(s, Command(w));
    LaterDuringRewrite(t, ALL_WELL);
    assert |t.all| == |all| + |w|;
    assert MissesWrite(Run(Initial(all), REWRITING + [Command(w)]));
  }

  lemma RewritingExample(all: History)
    ensures AllAllowed(Initial(all), REWRITING)
    ensures var s := Run(Initial(all), REWRITING);
            && Inv(s) && s.state == Off && s.child == Some(all) && s.all == all && s.fd.NoFd?
            && TempIncr in s.disk.files
  {
    hide Inv, BgRewrite, StartAppendOnlyFork, StopAppendOnly, Run, AllAllowed;
    var s0 := Initial(all);
    StoppedShape(all);
    var s1 := StopAppendOnly(StartAppendOnlyFork(s0, true, true), 0);
    InitialInv(all);
    StepKeeps(s0, StartFork(true, true));
    StepKeeps(StartAppendOnlyFork(s0, true, true), Stop(0));
    RunOne(s0, StartFork(true, true));
    RunSnoc(s0, BEGUN, Stop(0));
    RunSnoc(s0, STOPPED, Rewrite(0, true, PersistOk, true));
    RewriteStarts(s1, 0, true, PersistOk, true);
    StepKeeps(s1, Rewrite(0, true, PersistOk, true));
    OffRewriteFiles(s1);
  }

  lemma RunOne(s: Server, e: Event)
    requires Allowed(s, e)
    ensures AllAllowed(s, [e]) && Run(s, [e]) == Step(s, e)
  {
    hide Allowed, Step;
    assert [e][1..] == [];
  }

  lemma StoppedShape(all: History)
    ensures var s := StartAppendOnlyFork(Initial(all), true, true);
            && s.state == WaitRewrite && s.child.Some? && s.buf == [] && s.ahead == 0
            && var t := StopAppendOnly(s, 0);
            t.state == Off && t.child.None? && t.buf == [] && t.fd.NoFd? && t.all == all && TempIncr in t.disk.files
  {}

  lemma OffRewriteFiles(s: Server)
    requires s.state == Off && s.child.None? && s.fd.NoFd?
    ensures BgRewrite(s, 0, true, PersistOk, true).disk == s.disk
  {}
}
