// Starting the server again from what a crash left on disk, and lives of several runs with crashes in between.
module AofRestart {
  import opened Options
  import opened AofProtocol
  import M = AofManifestRun

  // ---------- starting ----------

  // The manifest in memory after loading the one on disk: the numbers are those of the files named.
  function FromDisk(d: OnDisk): Manifest
  {
    Manifest(d.base, d.incr, d.history, if d.base.Some? then d.base.value else 0,
             if d.incr != [] then d.incr[|d.incr| - 1] else 0)
  }

  // How the server is started: with the append-only file on or off, what an RDB file holds (read only when it is off),
  // and what deleting the history runs into.
  datatype Boot = Boot(on: bool, rdb: History, gc: bool, r: PersistResult)

  // Before the history is deleted: aofLoadManifestFromDisk, loadDataFromDisk and aofOpenIfNeededOnServerStart. The
  // file to write is opened with O_APPEND and not emptied.
  function Opened(d: Disk, b: Boot): Server
    requires Exist(d.files, Live(d.manifest))
  {
    var h := Replay(d.files, Live(d.manifest));
    var m0 := FromDisk(d.manifest);
    if !b.on then Server(d, [], m0, Off, NoFd, false, 0, [], None, b.rdb, h)
    else
      var s0 := Server(d, [], m0, On, NoFd, true, 0, [], None, h, h);
      var m1 := if m0.base.None? && m0.incr == [] then NewBase(m0) else m0;
      var s1 := if m1 == m0 then s0 else Rename(Put(s0, TempBase, h), TempBase, Base(m1.currBase));
      var m2 := if m1.incr == [] then NewIncr(m1) else m1;
      var s2 := if LastIncr(m2) in s1.disk.files then s1 else Put(s1, LastIncr(m2), []);
      (if m2 == m0 then s2 else Persist(s2, m2, PersistOk)).(manifest := m2, fd := Open(LastIncr(m2)))
  }

  // Then aofDelHistoryFiles.
  function Restart(d: Disk, b: Boot): Server
    requires Exist(d.files, Live(d.manifest))
  {
    DelHistory(Opened(d, b), b.gc, b.r)
  }

  // ---------- manifests that can be on disk ----------

  // Numbers are positive and increase; without a base there is nothing; history names are older than the live ones.
  predicate Sane(m: OnDisk)
  {
    && (if m.base.Some? then m.base.value > 0 else m.incr == [] && m.history == [])
    && (forall i | 0 <= i < |m.incr| :: m.incr[i] > 0)
    && (forall i, j | 0 <= i < j < |m.incr| :: m.incr[i] < m.incr[j])
    && forall i | 0 <= i < |m.history| :: Older(m, m.history[i])
  }

  predicate Older(m: OnDisk, n: Name)
  {
    || (n.Base? && n.n > 0 && m.base.Some? && n.n < m.base.value)
    || (n.Incr? && n.n > 0 && n.n !in m.incr && (m.incr != [] ==> n.n < m.incr[|m.incr| - 1]))
  }

  // The same in memory.
  predicate Begun(m: Manifest) { M.Positive(m) && (m.base.None? ==> m.incr == [] && m.history == []) }

  lemma OrderedSane(m: Manifest)
    requires Ordered(m) && Begun(m)
    ensures Sane(Printed(m))
  {
    forall i | 0 <= i < |m.history|
      ensures Older(Printed(m), m.history[i])
    {
      assert Retired(m, m.history[i]);
      if m.history[i].Incr? && m.incr != [] {
        assert m.incr[|m.incr| - 1] in m.incr;
      }
    }
  }

  // What is found in a file of the first INCR name.
  function Leftover(d: Disk): History { if Incr(1) in d.files then d.files[Incr(1)] else [] }

  predicate AnyIncr(names: seq<Name>) { exists i | 0 <= i < |names| :: names[i].Incr? }

  // When there is no INCR file to go on with, the numbers start again: then no INCR file may be in the history, and no
  // content may be left in a file of the first name by a rewrite that was never committed.
  predicate NamesFree(d: Disk, b: Boot)
  {
    || d.manifest.incr != []
    || (if b.on then !AnyIncr(d.manifest.history) && Leftover(d) == [] else b.gc || !AnyIncr(d.manifest.history))
  }

  // ---------- what starting does ----------

  lemma FromDiskOrdered(d: OnDisk)
    requires Sane(d) && (d.incr != [] || forall i | 0 <= i < |d.history| :: !d.history[i].Incr?)
    ensures Ordered(FromDisk(d))
  {
    var m := FromDisk(d);
    forall i | 0 <= i < |m.history|
      ensures Retired(m, m.history[i])
    {
      assert Older(d, d.history[i]);
    }
  }

  lemma FromDiskBegun(d: OnDisk)
    requires Sane(d)
    ensures Begun(FromDisk(d))
  {
    forall i | 0 <= i < |d.history|
      ensures M.Numbered(d.history[i])
    {
      assert Older(d, d.history[i]);
    }
  }

  // With no INCR file the base is all there is to replay.
  lemma BaseOnly(d: Disk, h: History)
    requires Holds(d, h) && d.manifest.incr == []
    ensures d.manifest.base.Some? ==>
              Base(d.manifest.base.value) in d.files && h == d.files[Base(d.manifest.base.value)]
    ensures d.manifest.base.None? ==> h == []
  {
    if d.manifest.base.Some? {
      ReplayAdopted(d, d.manifest.base.value, []);
      assert Live(d.manifest)[0] == Base(d.manifest.base.value);
      var x := d.files[Base(d.manifest.base.value)];
      assert x + [] == x;
    }
  }

  // The manifest after opening the first INCR file.
  function FirstIncr(m: Manifest): Manifest { NewIncr(if m.base.None? then NewBase(m) else m) }

  predicate TraceHolds(trace: seq<Disk>, h: History) { forall i | 0 <= i < |trace| :: Holds(trace[i], h) }

  // Going on with the last INCR file.
  lemma OpenedLast(d: Disk, b: Boot, h: History)
    requires Holds(d, h) && b.on && d.manifest.incr != [] && d.manifest.base.Some?
    ensures var s := Opened(d, b);
            s == Server(d, [], FromDisk(d.manifest), On, Open(LastIncr(s.manifest)), true, 0, [], None, h, h)
  {
    var m := FromDisk(d.manifest);
    var live := Live(d.manifest);
    assert live[|live| - 1] == LastIncr(m);
  }

  lemma OpenedFirstIs(d: Disk, b: Boot, h: History)
    requires Exist(d.files, Live(d.manifest)) && Replay(d.files, Live(d.manifest)) == h
    requires b.on && d.manifest.incr == [] && (d.manifest.base.None? ==> d.manifest.history == [])
    ensures var s := Opened(d, b);
            var m := FirstIncr(FromDisk(d.manifest));
            && s == Server(s.disk, s.trace, m, On, Open(Incr(1)), true, 0, [], None, h, h)
            && m.incr == [1] && m.base == (if d.manifest.base.Some? then d.manifest.base else Some(1))
            && s.disk.manifest == Printed(m)
            && Incr(1) in s.disk.files && s.disk.files[Incr(1)] == Leftover(d)
            && (d.manifest.base.Some? && Base(d.manifest.base.value) in d.files ==>
                  Base(d.manifest.base.value) in s.disk.files
                  && s.disk.files[Base(d.manifest.base.value)] == d.files[Base(d.manifest.base.value)])
            && (d.manifest.base.None? ==> Base(1) in s.disk.files && s.disk.files[Base(1)] == h)
  {
    hide Exist, Replay, Live;
  }

  // Opening a first one: what a file of that name held is replayed behind the rest.
  lemma OpenedFirst(d: Disk, b: Boot, h: History)
    requires Holds(d, h) && b.on && d.manifest.incr == [] && (d.manifest.base.None? ==> d.manifest.history == [])
    ensures var s := Opened(d, b);
            var m := FirstIncr(FromDisk(d.manifest));
            && s == Server(s.disk, s.trace, m, On, Open(Incr(1)), true, 0, [], None, h, h)
            && m.incr == [1] && s.disk.manifest == Printed(m)
            && Incr(1) in s.disk.files && s.disk.files[Incr(1)] == Leftover(d)
            && Holds(s.disk, h + Leftover(d))
  {
    BaseOnly(d, h);
    ReplayIs(d, h);
    hide Holds, Opened, FirstIncr, Live;
    OpenedFirstIs(d, b, h);
    var s := Opened(d, b);
    ReplayAdopted(s.disk, s.manifest.base.value, [1]);
  }

  lemma OpenedTrace(d: Disk, b: Boot, h: History)
    requires Holds(d, h) && b.on && d.manifest.incr == [] && (d.manifest.base.None? ==> d.manifest.history == [])
    requires Leftover(d) == []
    ensures TraceHolds(Opened(d, b).trace, h)
    ensures var s := Opened(d, b);
            forall i | 0 <= i < |s.trace| :: s.trace[i].manifest in {d.manifest, s.disk.manifest}
  {
    BaseOnly(d, h);
    OpenedFirst(d, b, h);
    assert h + [] == h;
    var m0 := FromDisk(d.manifest);
    var s0 := Server(d, [], m0, On, NoFd, true, 0, [], None, h, h);
    var s1 := if m0.base.None? then Rename(Put(s0, TempBase, h), TempBase, Base(1)) else s0;
    BeforeCommit(s0);
    hide Holds;
    var s2 := if Incr(1) in s1.disk.files then s1 else Put(s1, Incr(1), []);
    assert Opened(d, b).trace == s2.trace + [Opened(d, b).disk];
  }

  // Everything before the manifest is written leaves the live files alone.
  lemma BeforeCommit(s: Server)
    requires Holds(s.disk, s.durable) && s.trace == [] && s.manifest == FromDisk(s.disk.manifest)
    requires s.manifest.incr == []
    ensures var s1 := if s.manifest.base.None? then Rename(Put(s, TempBase, s.durable), TempBase, Base(1)) else s;
            var s2 := if Incr(1) in s1.disk.files then s1 else Put(s1, Incr(1), []);
            TraceHolds(s2.trace, s.durable) && forall i | 0 <= i < |s2.trace| :: s2.trace[i].manifest == s.disk.manifest
  {
    hide Holds;
    var s0 := Put(s, TempBase, s.durable);
    PutKeeps(s, TempBase, s.durable);
    var s1 := if s.manifest.base.None? then Rename(s0, TempBase, Base(1)) else s;
    if s.manifest.base.None? {
      RenameKeeps(s0, TempBase, Base(1));
    }
    PutKeeps(s1, Incr(1), []);
  }

  lemma FirstIs(d: OnDisk)
    requires d.incr == []
    ensures var m := FirstIncr(FromDisk(d));
            && m.history == (if d.base.None? then [] + d.history else d.history) && m.incr == [1] && m.currIncr == 1
            && m.base == Some(m.currBase) && (d.base.Some? ==> m.base == d.base) && (d.base.None? ==> m.currBase == 1)
  {}

  // A name of the history, once a first INCR file has been opened.
  lemma FirstName(d: OnDisk, m: Manifest, n: Name)
    requires Older(d, n) && d.incr == [] && m.incr == [1] && m.currIncr == 1
    requires d.base.Some? ==> m.base == d.base && m.currBase == d.base.value
    ensures Retired(m, n) <==> !n.Incr?
    ensures NotLive(m, n) <==> n != Incr(1)
  {}

  // The numbering after opening a first INCR file.
  lemma FirstOrdered(d: OnDisk)
    requires Sane(d) && d.incr == []
    ensures var m := FirstIncr(FromDisk(d));
            && m.history == d.history && Ordered(m.(history := [])) && Begun(m)
            && (Ordered(m) <==> !AnyIncr(d.history))
            && (NoneLive(m, m.history) <==> Incr(1) !in d.history)
  {
    hide Older, Retired, NotLive, FirstIncr, FromDisk;
    var m := FirstIncr(FromDisk(d));
    FirstIs(d);
    FirstBegun(d);
    assert [] + d.history == d.history;
    forall i | 0 <= i < |d.history|
      ensures Retired(m, d.history[i]) <==> !d.history[i].Incr?
      ensures NotLive(m, d.history[i]) <==> d.history[i] != Incr(1)
    {
      FirstName(d, m, d.history[i]);
    }
    hide Begun;
  }

  lemma FirstBegun(d: OnDisk)
    requires Sane(d) && d.incr == []
    ensures Begun(FirstIncr(FromDisk(d)))
  {
    hide Sane, FromDisk, M.Positive;
    FromDiskBegun(d);
    var m := FromDisk(d);
    M.NewNamesPositive(m, false);
    M.NewNamesPositive(NewBase(m), false);
  }

  // The numbering with the append-only file off.
  lemma OffOrdered(d: OnDisk)
    requires Sane(d) && d.incr == []
    ensures var m := FromDisk(d);
            && Ordered(m.(history := [])) && (Ordered(m) <==> !AnyIncr(d.history)) && NoneLive(m, m.history)
  {
    var m := FromDisk(d);
    forall i | 0 <= i < |d.history|
      ensures Retired(m, d.history[i]) <==> !d.history[i].Incr?
      ensures NotLive(m, d.history[i])
    {
      assert Older(d, d.history[i]);
    }
    hide Older, Retired, NotLive;
  }

  // Deleting history of which nothing is live.
  lemma DelHistoryHolds(s: Server, gc: bool, r: PersistResult)
    requires Holds(s.disk, s.durable) && Agree(s) && NoneLive(s.manifest, s.manifest.history)
    ensures var t := DelHistory(s, gc, r);
            && Holds(t.disk, s.durable) && Agree(t) && CrashSafe(s, t)
            && t == s.(disk := t.disk, trace := t.trace, fd := t.fd, manifest := t.manifest)
            && t.manifest == (if gc then s.manifest.(history := []) else s.manifest)
            && SameIncr(s.manifest.incr, s.disk.files, t.disk.files)
            && (s.fd.NoFd? ==> t.fd.NoFd?)
            && (s.fd.Open? && s.fd.name.Incr? && s.fd.name.n in s.manifest.incr ==> t.fd == s.fd)
  {
    hide UnlinkAll, SameIncr, Holds;
    if gc && s.manifest.history != [] {
      UnlinkAllHolds(s, s.manifest.history);
      UnlinkAllFiles(s, s.manifest.history);
      UnlinkAllNoFd(s, s.manifest.history);
      Renames(UnlinkAll(s, s.manifest.history).disk, Printed(s.manifest.(history := [])), s.durable);
    } else {
      SameIncrHere(s.manifest.incr, s.disk.files);
    }
  }

  // The disks that deleting history passes through name what was on disk, or what is in memory.
  lemma DelHistoryManifests(s: Server, gc: bool, r: PersistResult)
    ensures var t := DelHistory(s, gc, r);
            && s.trace <= t.trace && t.disk.manifest in {s.disk.manifest, Printed(s.manifest.(history := []))}
            && forall i | |s.trace| <= i < |t.trace| ::
                 t.trace[i].manifest in {s.disk.manifest, Printed(s.manifest.(history := []))}
  {
    UnlinkAllManifests(s, s.manifest.history);
    hide UnlinkAll;
  }

  lemma {:induction false} UnlinkAllManifests(s: Server, names: seq<Name>)
    ensures var t := UnlinkAll(s, names);
            && s.trace <= t.trace && t.disk.manifest == s.disk.manifest
            && forall i | |s.trace| <= i < |t.trace| :: t.trace[i].manifest == s.disk.manifest
    decreases |names|
  {
    if names != [] {
      UnlinkAllManifests(Unlink(s, names[0]), names[1..]);
    }
  }

  // The server just before deleting history, when nothing but old names is in the history.
  predicate Ready(s: Server, h: History)
  {
    && s.durable == h && s.buf == [] && s.child.None? && Holds(s.disk, h) && Agree(s)
    && (s.state == On ==> && s.manifest.incr != [] && s.fd == Open(LastIncr(s.manifest)) && s.all == h
                          && LastIncr(s.manifest) in s.disk.files)
    && s.state != WaitRewrite
  }

  lemma ReadyKeeps(s: Server, h: History, gc: bool, r: PersistResult)
    requires Ready(s, h) && NoneLive(s.manifest, s.manifest.history)
    ensures var t := DelHistory(s, gc, r);
            Inv(t) <==> Ordered(if gc then s.manifest.(history := []) else s.manifest)
  {
    hide Holds, Ordered, Agree, DelHistory;
    DelHistoryHolds(s, gc, r);
  }

  // Every disk named sanely.
  predicate TraceSane(trace: seq<Disk>) { forall i | 0 <= i < |trace| :: Sane(trace[i].manifest) }

  // A server in order: the invariant holds, and so far every disk replays to what is durable and is named sanely.
  predicate Good(s: Server)
  {
    && Inv(s) && Begun(s.manifest) && Sane(s.disk.manifest)
    && TraceHolds(s.trace, s.durable) && TraceSane(s.trace)
  }

  lemma TraceGrows(s: Server, t: Server)
    requires CrashSafe(s, t) && t.durable == s.durable && TraceHolds(s.trace, s.durable)
    ensures TraceHolds(t.trace, s.durable)
  {
    hide Holds;
  }

  // What deleting history leaves behind is in order if the server was and its numbering is.
  lemma FinishGood(s: Server, h: History, gc: bool, r: PersistResult)
    requires Ready(s, h) && NoneLive(s.manifest, s.manifest.history) && Begun(s.manifest)
    requires Ordered(if gc then s.manifest.(history := []) else s.manifest)
    requires Sane(s.disk.manifest) && TraceHolds(s.trace, h) && TraceSane(s.trace)
    ensures Good(DelHistory(s, gc, r))
  {
    var t := DelHistory(s, gc, r);
    ReadyKeeps(s, h, gc, r);
    DelHistoryHolds(s, gc, r);
    hide Holds, Ordered, Agree, DelHistory, Inv;
    TraceGrows(s, t);
    DelHistoryManifests(s, gc, r);
    if gc {
      BegunEmpty(s.manifest);
      OrderedSane(s.manifest.(history := []));
    } else {
      SameManifest(s, r);
    }
    hide Sane, Begun;
    assert forall i | 0 <= i < |t.trace| :: Sane(t.trace[i].manifest);
  }

  lemma BegunEmpty(m: Manifest)
    requires Begun(m)
    ensures Begun(m.(history := []))
  {}

  lemma SameManifest(s: Server, r: PersistResult)
    ensures DelHistory(s, false, r) == s
  {}

  lemma StartLast(d: Disk, b: Boot, h: History)
    requires Holds(d, h) && Sane(d.manifest) && d.manifest.incr != []
    ensures Good(Restart(d, b))
  {
    FromDiskOrdered(d.manifest);
    FromDiskBegun(d.manifest);
    NoHistoryOrdered(FromDisk(d.manifest));
    var s := Opened(d, b);
    if b.on {
      OpenedLast(d, b, h);
    }
    ReplayIs(d, h);
    LastThere(d, h);
    HistoryRetired(FromDisk(d.manifest));
    hide Holds, Ordered, Sane, Begun, Live, Opened;
    FinishGood(s, h, b.gc, b.r);
  }

  lemma ReplayIs(d: Disk, h: History)
    requires Holds(d, h)
    ensures Exist(d.files, Live(d.manifest)) && Replay(d.files, Live(d.manifest)) == h
  {}

  lemma LastThere(d: Disk, h: History)
    requires Holds(d, h) && d.manifest.incr != []
    ensures Incr(d.manifest.incr[|d.manifest.incr| - 1]) in d.files
  {
    var live := Live(d.manifest);
    assert live[|live| - 1] == Incr(d.manifest.incr[|d.manifest.incr| - 1]);
  }

  lemma OffReady(d: Disk, b: Boot, h: History)
    requires Holds(d, h) && !b.on
    ensures var s := Opened(d, b);
            && Ready(s, h) && s.trace == [] && s.disk == d && s.manifest == FromDisk(d.manifest)
  {
    ReplayIs(d, h);
    hide Holds, Replay, Exist;
  }

  lemma StartOff(d: Disk, b: Boot, h: History)
    requires Holds(d, h) && Sane(d.manifest) && d.manifest.incr == [] && !b.on
    ensures Good(Restart(d, b)) <==> b.gc || !AnyIncr(d.manifest.history)
  {
    hide Holds, Ordered, Sane, Begun, Live, DelHistory, AnyIncr, Opened, Ready, Inv, NoneLive;
    OffOrdered(d.manifest);
    FromDiskBegun(d.manifest);
    ReplayIs(d, h);
    OffReady(d, b, h);
    var s := Opened(d, b);
    ReadyKeeps(s, h, b.gc, b.r);
    if b.gc || !AnyIncr(d.manifest.history) {
      FinishGood(s, h, b.gc, b.r);
    }
  }

  // Opening a first INCR file whose name is in the history: it is unlinked, or its number is used twice.
  lemma StartReused(d: Disk, b: Boot, h: History)
    requires Holds(d, h) && Sane(d.manifest) && d.manifest.incr == [] && b.on && Incr(1) in d.manifest.history
    ensures !Inv(Restart(d, b)) && (b.gc ==> !Holds(Restart(d, b).disk, h))
  {
    OpenedFirst(d, b, h);
    FirstOrdered(d.manifest);
    var s := Opened(d, b);
    var t := Restart(d, b);
    if b.gc {
      M.UnlinkAllRemoves(s, s.manifest.history, Incr(1));
      UnlinkAllManifests(s, s.manifest.history);
      UnlinkAllFrame(s, s.manifest.history);
      hide Opened, UnlinkAll, Ordered;
      FileMissing(t);
    } else {
      hide Holds, Opened;
      SameManifest(s, b.r);
    }
  }

  lemma FileMissing(t: Server)
    requires t.disk.manifest.incr == [1] && Incr(1) !in t.disk.files
    ensures forall h :: !Holds(t.disk, h)
  {
    var live := Live(t.disk.manifest);
    assert live[|live| - 1] == Incr(1);
  }

  // Opening a first INCR file of a free name: the log replays to what a file of that name held as well.
  lemma StartLeftover(d: Disk, b: Boot, h: History)
    requires Holds(d, h) && Sane(d.manifest) && d.manifest.incr == [] && b.on && Incr(1) !in d.manifest.history
    ensures Holds(Restart(d, b).disk, h + Leftover(d)) && Restart(d, b).durable == h
    ensures Holds(Restart(d, b).disk, h) <==> Leftover(d) == []
  {
    hide Holds, Ordered, Begun, Live, DelHistory, Opened, Sane, NoneLive;
    ReplayIs(d, h);
    if d.manifest.base.None? {
      NothingYet(d.manifest);
    }
    OpenedFirst(d, b, h);
    FirstOrdered(d.manifest);
    var s := Opened(d, b);
    DelHistoryHolds(s.(durable := h + Leftover(d)), b.gc, b.r);
    DelHistoryDurable(s, h + Leftover(d), b.gc, b.r);
    HoldsOne(Restart(d, b).disk, h + Leftover(d), h);
    assert h + [] == h;
    assert |h + Leftover(d)| == |h| + |Leftover(d)|;
  }

  lemma FirstReady(d: Disk, b: Boot, h: History)
    requires Holds(d, h) && Sane(d.manifest) && d.manifest.incr == [] && b.on && Leftover(d) == []
    ensures Ready(Opened(d, b), h)
  {
    hide Holds, Ordered, Begun, Live, Opened;
    OpenedFirst(d, b, h);
    assert h + [] == h;
  }

  lemma StartFirst(d: Disk, b: Boot, h: History)
    requires Holds(d, h) && Sane(d.manifest) && d.manifest.incr == [] && b.on
    requires Leftover(d) == [] && !AnyIncr(d.manifest.history)
    ensures Good(Restart(d, b))
  {
    hide Holds, Ordered, Begun, Live, DelHistory, Opened, Sane, NoneLive, Ready, Inv;
    ReplayIs(d, h);
    if d.manifest.base.None? {
      NothingYet(d.manifest);
    }
    OpenedFirst(d, b, h);
    FirstReady(d, b, h);
    FirstOrdered(d.manifest);
    var s := Opened(d, b);
    assert Incr(1) !in d.manifest.history;
    NoHistoryOrdered(s.manifest);
    OrderedSane(s.manifest);
    OpenedTrace(d, b, h);
    FinishGood(s, h, b.gc, b.r);
  }

  lemma NoHistoryOrdered(m: Manifest)
    requires Ordered(m)
    ensures Ordered(m.(history := []))
  {}

  // A first INCR file behind which the history holds a later one.
  lemma StartBehind(d: Disk, b: Boot, h: History)
    requires Holds(d, h) && Sane(d.manifest) && d.manifest.incr == [] && b.on && AnyIncr(d.manifest.history)
    ensures !Good(Restart(d, b))
  {
    hide Holds, Ordered, Begun, Live, DelHistory, Opened;
    ReplayIs(d, h);
    OpenedFirst(d, b, h);
    FirstInsane(d);
    OpenedCommits(d, b);
    DelHistoryManifests(Opened(d, b), b.gc, b.r);
    var (s, t) := (Opened(d, b), Restart(d, b));
    assert t.trace[|s.trace| - 1] == s.trace[|s.trace| - 1];
  }

  lemma OpenedCommits(d: Disk, b: Boot)
    requires Exist(d.files, Live(d.manifest)) && d.manifest.incr == [] && b.on
    ensures var s := Opened(d, b); s.trace != [] && s.trace[|s.trace| - 1] == s.disk
  {
    hide Live;
  }

  lemma FirstInsane(d: Disk)
    requires Sane(d.manifest) && d.manifest.incr == [] && AnyIncr(d.manifest.history)
    ensures !Sane(Printed(FirstIncr(FromDisk(d.manifest))))
  {
    var m := Printed(FirstIncr(FromDisk(d.manifest)));
    assert m.incr == [1] && m.history == d.manifest.history;
    var i :| 0 <= i < |m.history| && m.history[i].Incr?;
    assert !Older(m, m.history[i]);
  }

  // Starting gives a server in order, whose log replays to the dataset it starts with, if and only if the names it
  // needs are free.
  lemma StartExactly(d: Disk, b: Boot, h: History)
    requires Holds(d, h) && Sane(d.manifest)
    ensures var t := Restart(d, b);
            && t.durable == h && (b.on ==> t.state == On && t.all == h) && (!b.on ==> t.state == Off && t.all == b.rdb)
            && (Good(t) <==> NamesFree(d, b))
  {
    hide Holds, Sane, Live, Opened, DelHistory, Good, AnyIncr;
    ReplayIs(d, h);
    StartValues(d, b, h);
    if d.manifest.incr != [] {
      StartLast(d, b, h);
    } else if !b.on {
      StartOff(d, b, h);
    } else if AnyIncr(d.manifest.history) {
      StartBehind(d, b, h);
    } else if Leftover(d) != [] {
      NoFirst(d);
      StartLeftover(d, b, h);
      NotGood(Restart(d, b));
    } else {
      StartFirst(d, b, h);
    }
  }

  lemma NothingYet(d: OnDisk)
    requires Sane(d) && d.base.None?
    ensures d.history == []
  {}

  lemma NoFirst(d: Disk)
    requires !AnyIncr(d.manifest.history)
    ensures Incr(1) !in d.manifest.history
  {}

  lemma NotGood(t: Server)
    requires !Holds(t.disk, t.durable)
    ensures !Good(t)
  {
    hide Holds;
  }

  lemma StartValues(d: Disk, b: Boot, h: History)
    requires Holds(d, h)
    ensures var t := Restart(d, b);
            t.durable == h && (if b.on then t.state == On && t.all == h else t.state == Off && t.all == b.rdb)
  {
    ReplayIs(d, h);
    hide Holds, Live, UnlinkAll;
    var s := Opened(d, b);
    DelHistoryFrame(s, b.gc, b.r);
    hide DelHistory;
  }

  // And the log replays to that dataset, for now, if and only if there is an INCR file to go on with, or nothing is
  // left in a file of the first name and that name is not in the history that is deleted.
  lemma StartHolds(d: Disk, b: Boot, h: History)
    requires Holds(d, h) && Sane(d.manifest) && b.on
    ensures Holds(Restart(d, b).disk, h) <==>
            d.manifest.incr != [] || (Leftover(d) == [] && !(b.gc && Incr(1) in d.manifest.history))
  {
    hide Holds, Sane, Live, Opened, DelHistory, Restart;
    if d.manifest.incr != [] {
      StartLast(d, b, h);
      StartValues(d, b, h);
    } else if !b.gc {
      StartKept(d, b, h);
    } else if Incr(1) in d.manifest.history {
      StartReused(d, b, h);
    } else {
      StartLeftover(d, b, h);
    }
  }

  // While history is kept, opening is all that happens.
  lemma StartKept(d: Disk, b: Boot, h: History)
    requires Holds(d, h) && Sane(d.manifest) && d.manifest.incr == [] && b.on && !b.gc
    ensures Holds(Restart(d, b).disk, h) <==> Leftover(d) == []
  {
    hide Holds, Ordered, Begun, Live, DelHistory, Opened, Sane;
    ReplayIs(d, h);
    if d.manifest.base.None? {
      NothingYet(d.manifest);
    }
    OpenedFirst(d, b, h);
    SameManifest(Opened(d, b), b.r);
    HoldsOne(Opened(d, b).disk, h + Leftover(d), h);
    assert h + [] == h;
    assert |h + Leftover(d)| == |h| + |Leftover(d)|;
  }

  // ---------- every operation keeps the names sane ----------

  predicate SaneOn(s: Server, t: Server)
  {
    && s.trace <= t.trace && Sane(t.disk.manifest)
    && forall i | |s.trace| <= i < |t.trace| :: Sane(t.trace[i].manifest)
  }

  lemma SaneTrans(s: Server, t: Server, u: Server)
    requires SaneOn(s, t) && SaneOn(t, u)
    ensures SaneOn(s, u)
  {
    hide Sane;
  }

  // Steps that leave the manifest on disk alone.
  predicate SameNames(s: Server, t: Server)
  {
    && s.trace <= t.trace && t.disk.manifest == s.disk.manifest && t.manifest == s.manifest
    && forall i | |s.trace| <= i < |t.trace| :: t.trace[i].manifest == s.disk.manifest
  }

  lemma SameSane(s: Server, t: Server)
    requires SameNames(s, t) && Sane(s.disk.manifest)
    ensures SaneOn(s, t)
  {
    hide Sane;
  }

  lemma PersistSane(s: Server, m: Manifest, r: PersistResult)
    requires Sane(s.disk.manifest) && Ordered(m) && Begun(m)
    ensures SaneOn(s, Persist(s, m, r))
  {
    OrderedSane(m);
    hide Sane;
  }

  lemma NewIncrBegun(m: Manifest)
    requires Ordered(m) && Begun(m) && m.base.Some?
    ensures Ordered(NewIncr(m)) && Begun(NewIncr(m)) && NewIncr(m).base.Some?
  {
    NewIncrOrdered(m);
    M.NewNamesPositive(m, false);
  }

  lemma MarkedBegun(m: Manifest, adding: bool, writing: bool)
    requires Ordered(m) && Begun(m)
    ensures var m1 := NewBase(m);
            var a := MarkRewritten(if adding then NewIncr(m1) else m1, writing);
            Ordered(a) && Begun(a)
  {
    hide Ordered, MarkRewritten, M.Positive;
    var m1 := NewBase(m);
    NewBaseOrdered(m);
    M.NewNamesPositive(m, false);
    M.NewNamesPositive(m1, writing);
    M.NewNamesPositive(NewIncr(m1), writing);
    NewIncrOrdered(m1);
    MarkOrdered(m1, writing);
    MarkOrdered(NewIncr(m1), writing);
  }

  lemma DelHistorySane(s: Server, gc: bool, r: PersistResult)
    requires Ordered(s.manifest) && Begun(s.manifest) && Sane(s.disk.manifest)
    ensures var t := DelHistory(s, gc, r);
            SaneOn(s, t) && Begun(t.manifest)
  {
    NoHistoryOrdered(s.manifest);
    BegunEmpty(s.manifest);
    OrderedSane(s.manifest.(history := []));
    DelHistoryManifests(s, gc, r);
    UnlinkAllFrame(s, s.manifest.history);
    hide Sane, Ordered, Begun, UnlinkAll;
  }

  // What opening the next file needs of the manifest.
  lemma OpenSane(s: Server, openOk: bool, r: PersistResult)
    requires Ordered(s.manifest) && Begun(s.manifest) && Sane(s.disk.manifest)
    requires s.state == On ==> s.manifest.base.Some?
    ensures var t := OpenNewIncr(s, openOk, r).0;
            SaneOn(s, t) && Begun(t.manifest)
  {
    if s.state == On {
      NewIncrBegun(s.manifest);
      OrderedSane(NewIncr(s.manifest));
    }
    hide Sane, Ordered, Begun, NewIncr;
  }

  lemma FlushSame(s: Server, k: nat)
    requires k <= |s.buf|
    ensures SameNames(s, Flush(s, k))
  {}

  lemma BgRewriteSane(s: Server, k: nat, openOk: bool, r: PersistResult, forkOk: bool)
    requires Inv(s) && Begun(s.manifest) && Sane(s.disk.manifest) && k <= |s.buf|
    ensures var t := BgRewrite(s, k, openOk, r, forkOk);
            SaneOn(s, t) && Begun(t.manifest)
  {
    if s.child.None? {
      var s1 := Flush(s, k);
      FlushSame(s, k);
      SameSane(s, s1);
      OpenSane(s1, openOk, r);
      hide Sane, Begun, OpenNewIncr, Flush, Inv;
      SaneTrans(s, s1, OpenNewIncr(s1, openOk, r).0);
    } else {
      SameSane(s, s);
    }
  }

  lemma RenameSame(s: Server, from: Name, to: Name)
    requires from in s.disk.files
    ensures SameNames(s, Rename(s, from, to)) && (from != to ==> to in Rename(s, from, to).disk.files)
  {}

  lemma UnlinkSame(s: Server, n: Name)
    ensures SameNames(s, Unlink(s, n))
  {}

  lemma SameTrans(s: Server, t: Server, u: Server)
    requires SameNames(s, t) && SameNames(t, u)
    ensures SameNames(s, u)
  {}

  // The two ways a snapshot is not committed, and the one it is.
  lemma AdoptSane(s: Server, snapshot: History, o: Outcome)
    requires Ordered(s.manifest) && Begun(s.manifest) && Sane(s.disk.manifest) && TempBase in s.disk.files
    ensures var t := Adopt(s, snapshot, o).0;
            SaneOn(s, t) && Begun(t.manifest)
  {
    hide Sane, Ordered, Begun, MarkRewritten, DelHistory, Rename, Unlink, SaneOn, SameNames, NewBase, NewIncr, Persist;
    SelfSame(s);
    if o.renameBase {
      var m1 := NewBase(s.manifest);
      var base := Base(m1.currBase);
      var s1 := Rename(s, TempBase, base);
      RenameSame(s, TempBase, base);
      RenameFrame(s, TempBase, base);
      if s.state == WaitRewrite && !(o.renameIncr && TempIncr in s1.disk.files) {
        UnlinkSame(s1, base);
        UnlinkFrame(s1, base);
        SameTrans(s, s1, Unlink(s1, base));
        SameSane(s, Unlink(s1, base));
      } else {
        AdoptOn(s, s1, snapshot, o);
      }
    } else {
      SameSane(s, s);
    }
  }

  lemma SelfSame(s: Server)
    ensures SameNames(s, s)
  {}

  lemma UnlinkFrame(s: Server, n: Name)
    ensures var t := Unlink(s, n);
            t == s.(disk := t.disk, trace := t.trace, fd := t.fd)
  {}

  lemma SameDiskNames(s: Server, t: Server)
    requires SameNames(s, t)
    ensures t.disk.manifest == s.disk.manifest && t.manifest == s.manifest
  {}

  lemma PersistFrame(s: Server, m: Manifest, r: PersistResult)
    ensures var t := Persist(s, m, r);
            t == s.(disk := t.disk, trace := t.trace)
  {}

  lemma SaneDisk(s: Server, t: Server)
    requires SaneOn(s, t)
    ensures Sane(t.disk.manifest)
  {}

  lemma SaneValues(s: Server, t: Server, u: Server)
    requires SaneOn(s, t) && u.disk == t.disk && u.trace == t.trace
    ensures SaneOn(s, u)
  {
    hide Sane;
  }

  // From the first rename on.
  lemma AdoptOn(s: Server, s1: Server, snapshot: History, o: Outcome)
    requires Ordered(s.manifest) && Begun(s.manifest) && Sane(s.disk.manifest) && TempBase in s.disk.files
    requires o.renameBase && s1 == Rename(s, TempBase, Base(NewBase(s.manifest).currBase)) && SameNames(s, s1)
    requires s1 == s.(disk := s1.disk, trace := s1.trace, fd := s1.fd)
    requires s.state == WaitRewrite ==> o.renameIncr && TempIncr in s1.disk.files
    ensures var t := Adopt(s, snapshot, o).0;
            SaneOn(s, t) && Begun(t.manifest)
  {
    hide Sane, Ordered, Begun, MarkRewritten, DelHistory, Rename, Unlink, SaneOn, SameNames, NewBase, NewIncr, Persist;
    var wait := s.state == WaitRewrite;
    var m1 := NewBase(s.manifest);
    var base := Base(m1.currBase);
    var m2 := if wait then NewIncr(m1) else m1;
    var incr := Incr(m2.currIncr);
    var s2 := if wait then Rename(s1, TempIncr, incr) else s1;
    if wait {
      RenameSame(s1, TempIncr, incr);
      RenameFrame(s1, TempIncr, incr);
      SameTrans(s, s1, s2);
    }
    SameSane(s, s2);
    SameDiskNames(s, s2);
    var m3 := MarkRewritten(m2, !s2.fd.NoFd?);
    MarkedBegun(s.manifest, wait, !s2.fd.NoFd?);
    var s3 := Persist(s2, m3, o.persist);
    PersistSane(s2, m3, o.persist);
    PersistFrame(s2, m3, o.persist);
    SaneTrans(s, s2, s3);
    SaneDisk(s, s3);
    if o.persist.PersistOk? {
      var durable := match s.state
                     case On => s.durable
                     case WaitRewrite => snapshot + s2.disk.files[incr]
                     case Off => snapshot;
      var s4 := s3.(manifest := m3, durable := durable);
      DelHistorySane(s4, o.gc, o.persistHistory);
      SaneValues(s, s3, s4);
      SaneTrans(s, s4, DelHistory(s4, o.gc, o.persistHistory));
    } else {
      var s4 := Unlink(s3, base);
      UnlinkSame(s3, base);
      UnlinkFrame(s3, base);
      SameSane(s3, s4);
      SaneTrans(s, s3, s4);
      SaneDisk(s, s4);
      if wait {
        UnlinkSame(s4, incr);
        UnlinkFrame(s4, incr);
        SameSane(s4, Unlink(s4, incr));
        SaneTrans(s, s4, Unlink(s4, incr));
      }
    }
  }

  lemma PutSame(s: Server, n: Name, content: History)
    ensures var t := Put(s, n, content);
            SameNames(s, t) && t == s.(disk := t.disk, trace := t.trace)
  {}

  lemma CleanupSame(s: Server)
    ensures SameNames(s, Cleanup(s))
  {}

  lemma RewriteDoneSane(s: Server, o: Outcome)
    requires Inv(s) && Begun(s.manifest) && Sane(s.disk.manifest) && s.child.Some?
    ensures var t := RewriteDone(s, o);
            SaneOn(s, t) && Begun(t.manifest)
  {
    hide Sane, Begun, Ordered, Holds, Adopt, Cleanup, SaneOn, SameNames, Put;
    if !o.written {
      CleanupSame(s);
      SameSane(s, Cleanup(s));
      SameDiskNames(s, Cleanup(s));
    } else {
      var s0 := Put(s, TempBase, s.child.value);
      PutSame(s, TempBase, s.child.value);
      PutThere(s, TempBase, s.child.value);
      SameSane(s, s0);
      SameDiskNames(s, s0);
      AdoptSane(s0, s.child.value, o);
      var (s1, ok) := Adopt(s0, s.child.value, o);
      SaneTrans(s, s0, s1);
      SaneDisk(s, s1);
      var s2 := if ok && s.state == WaitRewrite then s1.(state := On) else s1;
      SaneValues(s, s1, s2);
      CleanupSame(s2);
      SameSane(s2, Cleanup(s2));
      SameDiskNames(s2, Cleanup(s2));
      SaneTrans(s, s2, Cleanup(s2));
    }
  }

  lemma PutThere(s: Server, n: Name, content: History)
    ensures n in Put(s, n, content).disk.files
  {}

  lemma StartSyncSane(s: Server, openOk: bool, o: Outcome)
    requires Inv(s) && Begun(s.manifest) && Sane(s.disk.manifest) && s.state == Off && s.child.None?
    ensures var t := StartAppendOnly(s, openOk, o);
            SaneOn(s, t) && Begun(t.manifest)
  {
    var w := s.(state := WaitRewrite);
    OpenSane(w, openOk, PersistOk);
    var (s1, ok) := OpenNewIncr(w, openOk, PersistOk);
    OpenWaitFrame(w, openOk, PersistOk);
    hide Sane, Begun, Ordered, Holds, Adopt, SaneOn, SameNames, Put, Inv, OpenNewIncr, Unlink;
    SaneFrom(s, w, s1);
    SaneDisk(s, s1);
    var off := s1.(state := Off);
    SaneValues(s, s1, off);
    if ok && !o.written {
      UnlinkStays(off, TempIncr);
      SaneTrans(s, off, Unlink(off, TempIncr));
    } else if ok {
      var s2 := Put(s1, TempBase, s.all);
      PutSame(s1, TempBase, s.all);
      PutThere(s1, TempBase, s.all);
      SameSane(s1, s2);
      SaneTrans(s, s1, s2);
      SaneDisk(s, s2);
      AdoptSane(s2, s.all, o);
      var (s3, committed) := Adopt(s2, s.all, o);
      SaneTrans(s, s2, s3);
      SaneDisk(s, s3);
      if committed {
        SaneValues(s, s3, s3.(state := On, buf := []));
      } else {
        var off3 := s3.(state := Off);
        SaneValues(s, s3, off3);
        UnlinkStays(off3, TempIncr);
        SaneTrans(s, off3, Unlink(off3, TempIncr));
      }
    }
  }

  lemma OpenWaitFrame(s: Server, openOk: bool, r: PersistResult)
    requires s.state == WaitRewrite
    ensures OpenNewIncr(s, openOk, r).0.manifest == s.manifest
  {}

  lemma UnlinkStays(s: Server, n: Name)
    requires Sane(s.disk.manifest)
    ensures SaneOn(s, Unlink(s, n)) && Unlink(s, n).manifest == s.manifest
  {
    UnlinkSame(s, n);
    hide Sane;
  }

  lemma SaneFrom(s: Server, w: Server, t: Server)
    requires SaneOn(w, t) && w.trace == s.trace
    ensures SaneOn(s, t)
  {
    hide Sane;
  }

  lemma ShortFlushSame(s: Server, n: nat)
    requires n <= |s.buf|
    ensures SameNames(s, ShortFlush(s, n))
  {}

  lemma StepSane(s: Server, e: Event)
    requires Inv(s) && Begun(s.manifest) && Sane(s.disk.manifest) && Allowed(s, e)
    ensures SaneOn(s, Step(s, e)) && Begun(Step(s, e).manifest)
  {
    hide Sane, Begun, Inv, SaneOn, SameNames, BgRewrite, RewriteDone, StartAppendOnly, Flush, ShortFlush;
    match e
    case Command(w) =>
      SelfSame(s);
      SameSane(s, s);
      SaneValues(s, s, WriteCommand(s, w));
    case FlushBuffer(k) =>
      FlushSame(s, k);
      SameSane(s, Flush(s, k));
      SameDiskNames(s, Flush(s, k));
    case TakenBack(n) =>
      ShortFlushSame(s, n);
      SameSane(s, ShortFlush(s, n));
      SameDiskNames(s, ShortFlush(s, n));
    case Rewrite(k, openOk, r, forkOk) => BgRewriteSane(s, k, openOk, r, forkOk);
    case Done(o) => RewriteDoneSane(s, o);
    case Start(openOk, o) => StartSyncSane(s, openOk, o);
    case StartFork(openOk, forkOk) => StartForkSane(s, openOk, forkOk);
    case StartLater =>
      SelfSame(s);
      SameSane(s, s);
      SaneValues(s, s, StartAppendOnlyLater(s));
    case Stop(k) =>
      FlushSame(s, k);
      SameSane(s, Flush(s, k));
      SameDiskNames(s, Flush(s, k));
      SaneValues(s, Flush(s, k), StopAppendOnly(s, k));
  }

  lemma StartForkSane(s: Server, openOk: bool, forkOk: bool)
    requires Inv(s) && Begun(s.manifest) && Sane(s.disk.manifest) && s.state == Off
    ensures var t := StartAppendOnlyFork(s, openOk, forkOk);
            SaneOn(s, t) && Begun(t.manifest)
  {
    var w := s.(state := WaitRewrite, child := None);
    BgRewriteSane(w, 0, openOk, PersistOk, forkOk);
    hide Sane, Begun, Inv, SaneOn, BgRewrite;
    var t := BgRewrite(w, 0, openOk, PersistOk, forkOk);
    SaneFrom(s, w, t);
    SaneValues(s, t, StartAppendOnlyFork(s, openOk, forkOk));
  }

  // ---------- lives ----------

  // When the server dies: while it is starting, between two operations, or after system call `at` of operation `e`.
  datatype Crash = Starting(at: nat) | Between | During(e: Event, at: nat)

  // From one start to the next.
  datatype Era = Era(events: seq<Event>, crash: Crash, boot: Boot)

  predicate Possible(s: Server, era: Era)
  {
    match era.crash
    case Starting(at) => at < |s.trace|
    case Between => AllAllowed(s, era.events)
    case During(e, at) =>
      && AllAllowed(s, era.events) && Allowed(Run(s, era.events), e)
      && |Run(s, era.events).trace| <= at < |Step(Run(s, era.events), e).trace|
  }

  // What is on disk then. The buffer and everything else in memory is lost.
  function Left(s: Server, era: Era): Disk
    requires Possible(s, era)
  {
    match era.crash
    case Starting(at) => s.trace[at]
    case Between => Run(s, era.events).disk
    case During(e, at) => Step(Run(s, era.events), e).trace[at]
  }

  // It replays to what was durable, or, in the middle of an operation, to what that operation makes durable or to a
  // beginning of the buffer more.
  predicate LeftSafe(s: Server, era: Era)
    requires Possible(s, era)
  {
    var d := Left(s, era);
    match era.crash
    case Starting(_) => Holds(d, s.durable)
    case Between => Holds(d, Run(s, era.events).durable)
    case During(e, _) => DiskOk(Run(s, era.events), e, d)
  }

  // The server started again, unless a file that the manifest names is missing.
  function Restarted(d: Disk, b: Boot): Option<Server>
  {
    if Exist(d.files, Live(d.manifest)) then Some(Restart(d, b)) else None
  }

  lemma {:induction false} RunSane(s: Server, events: seq<Event>)
    requires Inv(s) && Begun(s.manifest) && Sane(s.disk.manifest) && AllAllowed(s, events)
    ensures var t := Run(s, events);
            Inv(t) && Begun(t.manifest) && Sane(t.disk.manifest)
    decreases |events|
  {
    hide Inv, Begun, Sane, Step, Allowed, StepSafe;
    if events != [] {
      StepKeeps(s, events[0]);
      StepSane(s, events[0]);
      SaneDisk(s, Step(s, events[0]));
      RunSane(Step(s, events[0]), events[1..]);
    }
  }

  lemma InvHolds(s: Server)
    requires Inv(s)
    ensures Holds(s.disk, s.durable)
  {}

  lemma CrashLeaves(s: Server, era: Era)
    requires Good(s) && Possible(s, era)
    ensures LeftSafe(s, era) && Sane(Left(s, era).manifest)
  {
    hide Inv, Begun, Sane, Step, Allowed, Holds, Run, AllAllowed;
    match era.crash
    case Starting(_) =>
    case Between =>
      RunSane(s, era.events);
      InvHolds(Run(s, era.events));
    case During(e, at) =>
      RunSane(s, era.events);
      var u := Run(s, era.events);
      StepKeeps(u, e);
      StepSane(u, e);
      hide DiskOk;
  }

  lemma SafeHolds(s: Server, era: Era) returns (h: History)
    requires Possible(s, era) && LeftSafe(s, era)
    ensures Holds(Left(s, era), h)
  {
    hide Holds, Step, Run;
    var d := Left(s, era);
    match era.crash
    case Starting(_) => h := s.durable;
    case Between => h := Run(s, era.events).durable;
    case During(e, _) =>
      var u := Run(s, era.events);
      h := if Holds(d, u.durable) then u.durable
           else if Holds(d, Step(u, e).durable) then Step(u, e).durable
           else u.durable + u.buf[..e.n];
  }

  // Lives in which the names that a start needs are free.
  predicate Lives(s: Server, eras: seq<Era>)
    decreases |eras|
  {
    eras == [] ||
    (&& Possible(s, eras[0]) && NamesFree(Left(s, eras[0]), eras[0].boot)
     && match Restarted(Left(s, eras[0]), eras[0].boot)
        case None => true
        case Some(t) => Lives(t, eras[1..]))
  }

  // Every crash leaves a disk that replays, every start succeeds and gives a server in order, and one with the
  // append-only file on has exactly the dataset that the disk replays to.
  predicate LifeSafe(s: Server, eras: seq<Era>)
    requires Lives(s, eras)
    decreases |eras|
  {
    eras == [] ||
    (&& LeftSafe(s, eras[0])
     && match Restarted(Left(s, eras[0]), eras[0].boot)
        case None => false
        case Some(t) =>
          Good(t) && (eras[0].boot.on ==> Holds(Left(s, eras[0]), t.all)) && LifeSafe(t, eras[1..]))
  }

  lemma {:induction false} LifeKeeps(s: Server, eras: seq<Era>)
    requires Good(s) && Lives(s, eras)
    ensures LifeSafe(s, eras)
    decreases |eras|
  {
    hide Good, Possible, Left, LeftSafe, NamesFree, Restart, Holds, Sane;
    if eras != [] {
      var d := Left(s, eras[0]);
      CrashLeaves(s, eras[0]);
      var h := SafeHolds(s, eras[0]);
      ReplayIs(d, h);
      StartExactly(d, eras[0].boot, h);
      LifeKeeps(Restart(d, eras[0].boot), eras[1..]);
    }
  }

  // It is so for every life that begins with nothing on disk.
  lemma EveryLife(all: History, eras: seq<Era>)
    requires Lives(Initial(all), eras)
    ensures LifeSafe(Initial(all), eras)
  {
    InitialInv(all);
    assert Good(Initial(all));
    LifeKeeps(Initial(all), eras);
  }

  // A crash between two operations, with the append-only file on before and after, loses exactly what was in the
  // buffer.
  lemma CrashLosesBuffer(s: Server, events: seq<Event>, b: Boot)
    requires Good(s) && AllAllowed(s, events) && Run(s, events).state == On && b.on
    ensures var u := Run(s, events);
            Restarted(u.disk, b).Some? && Restarted(u.disk, b).value.all + u.buf == u.all
  {
    hide Run, AllAllowed, Holds, Restart, Sane, Begun;
    RunSane(s, events);
    var u := Run(s, events);
    InvHolds(u);
    ReplayIs(u.disk, u.durable);
    StartValues(u.disk, b, u.durable);
    OnBuffer(u);
  }

  lemma OnBuffer(s: Server)
    requires Inv(s) && s.state == On
    ensures s.all == s.durable + s.buf
  {
    hide Holds, Ordered;
  }

  // ---------- a life in which the names are not free ----------

  // The server starts with an empty dataset, and its log replays to `w`.
  predicate Resurfaces(s: Server, era: Era, w: History)
  {
    && Possible(s, era) && era.boot.on
    && match Restarted(Left(s, era), era.boot)
       case None => false
       case Some(t) => t.all == [] && t.durable == [] && Holds(t.disk, w)
  }

  // Switching the append-only file on for the first time in the background, with a write meanwhile.
  function Switching(w: History): seq<Event> { [StartFork(true, true)] + [Command(w)] + [FlushBuffer(|w|)] }

  // For example a crash after both renames, before the manifest is written: the INCR file that was never committed is
  // opened as the first one, and what was written to it comes back.
  lemma ResurfaceExample(all: History, w: History)
    requires w != []
    ensures exists era :: Resurfaces(Initial(all), era, w)
  {
    hide AllAllowed, Run, Restart, Switching, RewriteDone, Renaming, Waiting, Holds, Sane;
    var s := Initial(all);
    var b := Boot(true, [], false, PersistOk);
    var era := Era(Switching(w), During(Done(ALL_WELL), 4), b);
    SwitchingRuns(all, w);
    DoneTrace(Run(s, Switching(w)), all, w);
    WaitingTrace(all, w);
    assert Left(s, era) == Renaming(all, w);
    ComesBack(all, w, b);
    assert Resurfaces(s, era, w);
  }

  lemma WaitingTrace(all: History, w: History)
    ensures |Waiting(all, w).trace| == 2
  {}

  lemma ComesBack(all: History, w: History, b: Boot)
    requires b.on && w != []
    ensures match Restarted(Renaming(all, w), b)
            case None => false
            case Some(t) => t.all == [] && t.durable == [] && Holds(t.disk, w)
  {
    var d := Renaming(all, w);
    assert Holds(d, []);
    hide Holds, Restart, Sane, Exist;
    ReplayIs(d, []);
    SaneNothing();
    StartLeftover(d, b, []);
    StartValues(d, b, []);
    assert [] + w == w;
  }

  lemma SaneNothing()
    ensures Sane(OnDisk(None, [], []))
  {}

  // The server while its first rewrite is running.
  function Waiting(all: History, w: History): Server
  {
    var nothing := OnDisk(None, [], []);
    var (d0, d1) := (Disk(map[TempIncr := []], nothing), Disk(map[TempIncr := w], nothing));
    var m := Manifest(None, [], [], 0, 0);
    Server(d1, [d0, d1], m, WaitRewrite, Open(TempIncr), false, 0, [], Some(all), all + w, [])
  }

  lemma SwitchingRuns(all: History, w: History)
    requires w != []
    ensures AllAllowed(Initial(all), Switching(w)) && Run(Initial(all), Switching(w)) == Waiting(all, w)
  {
    var s := Initial(all);
    var e: Event := StartFork(true, true);
    RunSnoc(s, [], e);
    assert [] + [e] == [e];
    var s1 := Step(s, e);
    RunSnoc(s, [e], Command(w));
    var s2 := Step(s1, Command(w));
    assert s2.buf == w by { assert [] + w == w; }
    RunSnoc(s, [e] + [Command(w)], FlushBuffer(|w|));
    WaitingIs(all, w, s2);
  }

  lemma WaitingIs(all: History, w: History, s: Server)
    requires w != [] && s == Waiting(all, w).(disk := s.disk, trace := [s.disk], buf := w)
    requires s.disk == Disk(map[TempIncr := []], OnDisk(None, [], []))
    ensures Flush(s, |w|) == Waiting(all, w)
  {
    assert w[..|w|] == w && [] + w == w;
    assert s.disk.files[TempIncr := w] == map[TempIncr := w];
  }

  // The disk between the renames and the manifest.
  function Renaming(all: History, w: History): Disk
  {
    Disk(map[Base(1) := all, Incr(1) := w], OnDisk(None, [], []))
  }

  lemma DoneTrace(s: Server, all: History, w: History)
    requires s == Waiting(all, w)
    ensures Allowed(s, Done(ALL_WELL))
    ensures var t := RewriteDone(s, ALL_WELL);
            |t.trace| > 4 && t.trace[4] == Renaming(all, w)
  {
    var s0 := Put(s, TempBase, all);
    RenamedTrace(s, all, w);
    hide Renamed, Adopt, Adopted, Renaming;
    AdoptIs(s0, all, ALL_WELL);
  }

  lemma RenamedTrace(s: Server, all: History, w: History)
    requires s == Waiting(all, w)
    ensures var t := Renamed(Put(s, TempBase, all));
            |t.trace| == 5 && t.trace[4] == Renaming(all, w) && Incr(1) in t.disk.files
  {
    var t := Renamed(Put(s, TempBase, all));
    assert t.disk.files == map[Base(1) := all, Incr(1) := w];
  }
}
