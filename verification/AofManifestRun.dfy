// The manifests the protocol can reach, written to disk as text and loaded again.
module AofManifestRun {
  import opened AofLog
  import opened Options
  import T = AofManifest
  import P = AofProtocol

  const DOT: byte := 46

  // ".base", ".incr", ".rdb" and ".aof"
  const BASE_SUFFIX: Bytes := [46, 98, 97, 115, 101]
  const INCR_SUFFIX: Bytes := [46, 105, 110, 99, 114]
  const RDB_SUFFIX: Bytes := [46, 114, 100, 98]
  const AOF_SUFFIX: Bytes := [46, 97, 111, 102]

  // server.aof_filename, and which BASE files were written with the RDB preamble.
  datatype Naming = Naming(filename: Bytes, rdb: set<nat>)

  // The longest file name of the usual file systems.
  predicate Usable(c: Naming) { T.PlainName(c.filename) && |c.filename| <= 255 }

  predicate Numbered(n: P.Name) { (n.Base? || n.Incr?) && n.n > 0 }

  function Suffix(c: Naming, n: P.Name): Bytes
    requires n.Base? || n.Incr?
  {
    if n.Base? then BASE_SUFFIX + (if n.n in c.rdb then RDB_SUFFIX else AOF_SUFFIX) else INCR_SUFFIX + AOF_SUFFIX
  }

  // How getNewBaseFileNameAndMarkPreAsHistory and getNewIncrAofName spell a name.
  function FileName(c: Naming, n: P.Name): Bytes
    requires n.Base? || n.Incr?
  {
    c.filename + [DOT] + Decimal(n.n) + Suffix(c, n)
  }

  // As text: the configured name, the number, and what the file is.
  lemma FileNameText(c: Naming, n: nat)
    ensures FileName(c, P.Base(n)) ==
            c.filename + Ascii(".") + Decimal(n) + Ascii(if n in c.rdb then ".base.rdb" else ".base.aof")
    ensures FileName(c, P.Incr(n)) == c.filename + Ascii(".") + Decimal(n) + Ascii(".incr.aof")
  {
    hide Decimal;
    assert Ascii(".") == [DOT];
    assert Ascii(".base.rdb") == BASE_SUFFIX + RDB_SUFFIX && Ascii(".base.aof") == BASE_SUFFIX + AOF_SUFFIX;
    assert Ascii(".incr.aof") == INCR_SUFFIX + AOF_SUFFIX;
  }

  // Two files never get the same name.
  lemma FileNameInjective(c: Naming, a: P.Name, b: P.Name)
    requires (a.Base? || a.Incr?) && (b.Base? || b.Incr?)
    requires FileName(c, a) == FileName(c, b)
    ensures a == b
  {
    hide Suffix, Decimal, Number;
    var front := c.filename + [DOT];
    var (da, db) := (Decimal(a.n), Decimal(b.n));
    var (ra, rb) := (da + Suffix(c, a), db + Suffix(c, b));
    assert ra == FileName(c, a)[|front|..] == FileName(c, b)[|front|..] == rb;
    SuffixStart(c, a);
    SuffixStart(c, b);
    NumberOfDecimal(a.n, Suffix(c, a));
    NumberOfDecimal(b.n, Suffix(c, b));
    assert Suffix(c, a) == ra[|da|..] == rb[|db|..] == Suffix(c, b);
  }

  lemma SuffixStart(c: Naming, n: P.Name)
    requires n.Base? || n.Incr?
    ensures |Suffix(c, n)| > 1 && !IsDigit(Suffix(c, n)[0])
    ensures Suffix(c, n)[1] == if n.Base? then 98 else 105
  {}

  function Entry(c: Naming, n: P.Name, kind: byte): T.Info
    requires n.Base? || n.Incr?
  {
    T.Info(FileName(c, n), n.n, kind)
  }

  // Every number in use is positive and every history name is that of a BASE or INCR file.
  predicate Positive(m: P.Manifest)
  {
    && (m.base.Some? ==> m.base.value > 0)
    && (forall i | 0 <= i < |m.incr| :: m.incr[i] > 0)
    && (forall i | 0 <= i < |m.history| :: Numbered(m.history[i]))
  }

  // The manifest of the protocol with its entries spelled out.
  function Spelled(c: Naming, m: P.Manifest): T.Manifest
    requires Positive(m)
  {
    T.Manifest(
      if m.base.Some? then Some(Entry(c, P.Base(m.base.value), T.BASE)) else None,
      seq(|m.history|, i requires 0 <= i < |m.history| => Entry(c, m.history[i], T.HIST)),
      seq(|m.incr|, i requires 0 <= i < |m.incr| => Entry(c, P.Incr(m.incr[i]), T.INCR)),
      m.currBase, m.currIncr, false)
  }

  // Sequence numbers are C long longs.
  predicate Fits(m: P.Manifest) { m.currBase <= 0x7fffffffffffffff && m.currIncr <= 0x7fffffffffffffff }

  lemma EntryPrintable(c: Naming, n: P.Name, kind: byte)
    requires Usable(c) && Numbered(n) && n.n <= 0x7fffffffffffffff && T.Plain(kind)
    ensures T.Printable(Entry(c, n, kind))
  {
    DecimalDigits(n.n);
    DecimalSmall(n.n);
    var name := FileName(c, n);
    var (f, d) := (c.filename, Decimal(n.n));
    forall i | 0 <= i < |name|
      ensures T.Plain(name[i])
    {
      if i < |f| {
        assert name[i] == f[i];
      } else if |f| < i <= |f| + |d| {
        assert name[i] == d[i - |f| - 1];
      }
    }
  }

  lemma SpelledPrintable(c: Naming, m: P.Manifest, i: nat)
    requires Usable(c) && P.Ordered(m) && Positive(m) && Fits(m) && i < |T.Infos(Spelled(c, m))|
    ensures T.Printable(T.Infos(Spelled(c, m))[i])
  {
    hide FileName, T.Printable;
    var b := if m.base.Some? then 1 else 0;
    if i < b {
      EntryPrintable(c, P.Base(m.base.value), T.BASE);
    } else if i < b + |m.history| {
      assert P.Retired(m, m.history[i - b]);
      EntryPrintable(c, m.history[i - b], T.HIST);
    } else {
      var k := i - b - |m.history|;
      assert m.incr[k] <= m.currIncr;
      EntryPrintable(c, P.Incr(m.incr[k]), T.INCR);
    }
  }

  lemma SpelledValid(c: Naming, m: P.Manifest)
    requires Usable(c) && P.Ordered(m) && Positive(m) && Fits(m)
    ensures T.Valid(Spelled(c, m))
  {
    hide FileName, T.Printable, Fits, Usable;
    forall i | 0 <= i < |T.Infos(Spelled(c, m))|
      ensures T.Printable(T.Infos(Spelled(c, m))[i])
    {
      SpelledPrintable(c, m, i);
    }
    hide T.Infos;
  }

  // ---------- every run ----------

  lemma {:induction false} UnlinkAllManifest(s: P.Server, names: seq<P.Name>)
    ensures P.UnlinkAll(s, names).manifest == s.manifest
    decreases |names|
  {
    if names != [] {
      UnlinkAllManifest(P.Unlink(s, names[0]), names[1..]);
    }
  }

  lemma DelHistoryPositive(s: P.Server, gc: bool, r: P.PersistResult)
    requires Positive(s.manifest)
    ensures Positive(P.DelHistory(s, gc, r).manifest)
  {
    UnlinkAllManifest(s, s.manifest.history);
  }

  lemma NewNamesPositive(m: P.Manifest, writing: bool)
    requires Positive(m)
    ensures Positive(P.NewBase(m)) && Positive(P.NewIncr(m)) && Positive(P.MarkRewritten(m, writing))
  {}

  lemma AdoptPositive(s: P.Server, snapshot: P.History, o: P.Outcome)
    requires Positive(s.manifest) && P.TempBase in s.disk.files
    ensures Positive(P.Adopt(s, snapshot, o).0.manifest)
  {
    hide Positive, P.NewBase, P.NewIncr, P.MarkRewritten, P.DelHistory;
    var m1 := P.NewBase(s.manifest);
    var m2 := if s.state == P.WaitRewrite then P.NewIncr(m1) else m1;
    NewNamesPositive(s.manifest, false);
    NewNamesPositive(m1, false);
    NewNamesPositive(m2, false);
    NewNamesPositive(m2, true);
    forall t: P.Server, gc: bool, r: P.PersistResult | Positive(t.manifest)
      ensures Positive(P.DelHistory(t, gc, r).manifest)
    {
      DelHistoryPositive(t, gc, r);
    }
  }

  lemma OpenPositive(s: P.Server, openOk: bool, r: P.PersistResult)
    requires Positive(s.manifest)
    ensures Positive(P.OpenNewIncr(s, openOk, r).0.manifest)
  {
    NewNamesPositive(s.manifest, false);
    hide Positive, P.NewIncr;
  }

  lemma BgRewritePositive(s: P.Server, k: nat, openOk: bool, r: P.PersistResult, forkOk: bool)
    requires Positive(s.manifest) && k <= |s.buf|
    ensures Positive(P.BgRewrite(s, k, openOk, r, forkOk).manifest)
  {
    hide Positive, P.OpenNewIncr;
    OpenPositive(P.Flush(s, k), openOk, r);
  }

  lemma StartPositive(s: P.Server, openOk: bool, o: P.Outcome)
    requires Positive(s.manifest) && s.state == P.Off && s.child.None?
    ensures Positive(P.StartAppendOnly(s, openOk, o).manifest)
  {
    hide Positive, P.OpenNewIncr, P.Adopt;
    var (s1, ok) := P.OpenNewIncr(s.(state := P.WaitRewrite), openOk, P.PersistOk);
    OpenPositive(s.(state := P.WaitRewrite), openOk, P.PersistOk);
    AdoptPositive(P.Put(s1, P.TempBase, s.all), s.all, o);
  }

  lemma DonePositive(s: P.Server, o: P.Outcome)
    requires Positive(s.manifest) && s.child.Some?
    ensures Positive(P.RewriteDone(s, o).manifest)
  {
    hide Positive, P.Adopt;
    AdoptPositive(P.Put(s, P.TempBase, s.child.value), s.child.value, o);
  }

  lemma StepPositive(s: P.Server, e: P.Event)
    requires Positive(s.manifest) && P.Allowed(s, e)
    ensures Positive(P.Step(s, e).manifest)
  {
    hide Positive, P.BgRewrite, P.RewriteDone, P.StartAppendOnly;
    match e
    case Rewrite(k, openOk, r, forkOk) => BgRewritePositive(s, k, openOk, r, forkOk);
    case Done(o) => DonePositive(s, o);
    case Start(openOk, o) => StartPositive(s, openOk, o);
    case StartFork(openOk, forkOk) =>
      BgRewritePositive(s.(state := P.WaitRewrite, child := None), 0, openOk, P.PersistOk, forkOk);
    case _ =>
  }

  lemma {:induction false} RunPositive(s: P.Server, events: seq<P.Event>)
    requires Positive(s.manifest) && P.AllAllowed(s, events)
    ensures Positive(P.Run(s, events).manifest)
    decreases |events|
  {
    hide Positive, P.Step, P.Allowed;
    if events != [] {
      StepPositive(s, events[0]);
      RunPositive(P.Step(s, events[0]), events[1..]);
    }
  }

  // No name is used twice among the live files, and no live name is also a history name.
  predicate NamesApart(t: T.Manifest)
  {
    && (forall i, j | 0 <= i < j < |t.incr| :: t.incr[i].name != t.incr[j].name)
    && (t.base.Some? ==> forall i | 0 <= i < |t.incr| :: t.incr[i].name != t.base.value.name)
    && forall j | 0 <= j < |t.history| ::
         && (t.base.Some? ==> t.base.value.name != t.history[j].name)
         && forall i | 0 <= i < |t.incr| :: t.incr[i].name != t.history[j].name
  }

  // The same of the names before they are spelled out.
  predicate Apart(m: P.Manifest)
  {
    && (forall i, j | 0 <= i < j < |m.incr| :: m.incr[i] != m.incr[j])
    && forall j | 0 <= j < |m.history| :: NotUsed(m, m.history[j])
  }

  predicate NotUsed(m: P.Manifest, n: P.Name)
  {
    (n.Base? ==> m.base != Some(n.n)) && (n.Incr? ==> n.n !in m.incr)
  }

  lemma SpelledApart(c: Naming, m: P.Manifest)
    requires Positive(m)
    ensures NamesApart(Spelled(c, m)) <==> Apart(m)
  {
    forall a: P.Name, b: P.Name | (a.Base? || a.Incr?) && (b.Base? || b.Incr?)
      ensures FileName(c, a) == FileName(c, b) ==> a == b
    {
      if FileName(c, a) == FileName(c, b) {
        FileNameInjective(c, a, b);
      }
    }
    hide FileName;
    var t := Spelled(c, m);
    if NamesApart(t) {
      forall i, j | 0 <= i < j < |m.incr|
        ensures m.incr[i] != m.incr[j]
      {
        assert t.incr[i].name != t.incr[j].name;
      }
      forall j | 0 <= j < |m.history|
        ensures NotUsed(m, m.history[j])
      {
        var n := m.history[j];
        assert t.history[j].name == FileName(c, n);
        assert m.base.Some? ==> n != P.Base(m.base.value);
        forall i | 0 <= i < |m.incr|
          ensures n != P.Incr(m.incr[i])
        {
          assert t.incr[i].name != t.history[j].name && t.incr[i].name == FileName(c, P.Incr(m.incr[i]));
        }
      }
    }
    if Apart(m) {
      forall j | 0 <= j < |m.history|
        ensures t.base.Some? ==> t.base.value.name != t.history[j].name
        ensures forall i | 0 <= i < |t.incr| :: t.incr[i].name != t.history[j].name
      {
        assert NotUsed(m, m.history[j]);
      }
    }
  }

  lemma NamesAreApart(c: Naming, m: P.Manifest)
    requires P.Ordered(m) && Positive(m)
    ensures NamesApart(Spelled(c, m))
  {
    forall j | 0 <= j < |m.history|
      ensures NotUsed(m, m.history[j])
    {
      assert P.Retired(m, m.history[j]);
    }
    hide NamesApart;
    SpelledApart(c, m);
  }

  // At the end of every run of the protocol the manifest in memory, printed and loaded, is the same manifest, with
  // the same lists; the next sequence numbers are the same exactly when no list that was ever used is empty.
  lemma RunRoundTrip(c: Naming, s: P.Server, events: seq<P.Event>)
    requires Usable(c) && P.Inv(s) && Positive(s.manifest) && P.AllAllowed(s, events)
    requires Fits(P.Run(s, events).manifest)
    ensures var m := P.Run(s, events).manifest;
            && Positive(m) && T.Valid(Spelled(c, m)) && NamesApart(Spelled(c, m))
            && (m.base.Some? || m.incr != [] ==>
                 match T.Load(T.Print(Spelled(c, m)))
                 case Err(_) => false
                 case Ok(t) =>
                   && (t.base, t.history, t.incr) ==
                      (Spelled(c, m).base, Spelled(c, m).history, Spelled(c, m).incr)
                   && ((t.currBase, t.currIncr) == (m.currBase, m.currIncr) <==>
                       (m.base.Some? || m.currBase == 0) && (m.incr != [] || m.currIncr == 0)))
  {
    hide P.Run, P.AllAllowed, P.Ordered, T.Valid, T.Load, T.Print, NamesApart, Positive, Entry, P.Holds, P.Agree, Fits;
    var m := P.Run(s, events).manifest;
    P.RunKeeps(s, events);
    assert P.Ordered(m);
    RunPositive(s, events);
    SpelledValid(c, m);
    NamesAreApart(c, m);
    T.RoundTrip(Spelled(c, m));
  }

  // ---------- starting the server again ----------

  // What loading the printed manifest gives: a list that is empty forgets its number.
  function Reloaded(m: P.Manifest): P.Manifest
  {
    m.(currBase := if m.base.Some? then m.currBase else 0, currIncr := if m.incr != [] then m.currIncr else 0)
  }

  lemma ReloadedIs(c: Naming, m: P.Manifest)
    requires Usable(c) && P.Ordered(m) && Positive(m) && Fits(m)
    requires m.base.Some? || m.incr != [] || m.history != []
    ensures Positive(Reloaded(m)) && T.Valid(Spelled(c, m))
    ensures T.Load(T.Print(Spelled(c, m))) == T.Ok(Spelled(c, Reloaded(m)))
  {
    hide T.Valid, T.Load, T.Print, P.Ordered, Entry, Fits;
    SpelledValid(c, m);
    T.RoundTrip(Spelled(c, m));
  }

  // aofOpenIfNeededOnServerStart: a base if there is nothing, and an INCR file if there is none.
  function OnServerStart(m: P.Manifest): P.Manifest
  {
    var m0 := Reloaded(m);
    var m1 := if m0.base.None? && m0.incr == [] then P.NewBase(m0) else m0;
    if m1.incr == [] then P.NewIncr(m1) else m1
  }

  // Starting again gives a new file a name of its own if and only if there is an INCR file to go on with, or the
  // history does not hold the first name of its kind.
  lemma RestartNames(c: Naming, m: P.Manifest)
    requires P.Ordered(m) && Positive(m)
    ensures Positive(OnServerStart(m))
    ensures NamesApart(Spelled(c, OnServerStart(m))) <==>
            m.incr != [] || (P.Incr(1) !in m.history && (m.base.Some? || P.Base(1) !in m.history))
  {
    hide NamesApart;
    SpelledApart(c, OnServerStart(m));
    forall j | 0 <= j < |m.history|
      ensures NotUsed(m, m.history[j])
    {
      assert P.Retired(m, m.history[j]);
    }
    hide P.Ordered;
    if m.incr == [] {
      FirstNames(m, OnServerStart(m));
    } else {
      NamesAreApart(c, m);
      SpelledApart(c, m);
    }
  }

  lemma FirstNames(m: P.Manifest, m1: P.Manifest)
    requires m.incr == [] && m1 == OnServerStart(m)
    requires forall j | 0 <= j < |m.history| :: NotUsed(m, m.history[j])
    ensures Apart(m1) <==> P.Incr(1) !in m.history && (m.base.Some? || P.Base(1) !in m.history)
  {
    assert m1.history == m.history && m1.incr == [1];
    assert m1.base == if m.base.Some? then m.base else Some(1);
    forall j | 0 <= j < |m.history|
      ensures NotUsed(m1, m.history[j]) <==> m.history[j] != P.Incr(1) && (m.base.Some? || m.history[j] != P.Base(1))
    {
      assert NotUsed(m, m.history[j]);
    }
    hide NotUsed;
  }

  // When the name of the new INCR file is in the history, deleting the history, which comes next, unlinks the file
  // that is about to be written.
  lemma RestartDeletesLive(m: P.Manifest, s: P.Server, r: P.PersistResult)
    requires m.incr == [] && P.Incr(1) in m.history && s.manifest == OnServerStart(m)
    ensures s.manifest.incr == [1] && P.Incr(1) !in P.DelHistory(s, true, r).disk.files
  {
    UnlinkAllRemoves(s, s.manifest.history, P.Incr(1));
  }

  lemma {:induction false} UnlinkAllRemoves(s: P.Server, names: seq<P.Name>, n: P.Name)
    requires n in names || n !in s.disk.files
    ensures n !in P.UnlinkAll(s, names).disk.files
    decreases |names|
  {
    if names != [] {
      UnlinkAllRemoves(P.Unlink(s, names[0]), names[1..], n);
    }
  }

  // No INCR file to go on with, and the first name is in the history.
  predicate Reuses(m: P.Manifest) { m.incr == [] && P.Incr(1) in m.history }

  // For example after a rewrite with the append-only file switched off, while history files are kept.
  lemma ReuseExample(all: P.History)
    ensures exists events ::
              P.AllAllowed(P.Initial(all), events) && Reuses(P.Run(P.Initial(all), events).manifest)
  {
    hide P.Step, P.Run, P.AllAllowed, P.RewriteDone, P.MarkRewritten;
    var (stop, rewrite, done) := (P.Stop(0), P.Rewrite(0, true, P.PersistOk, true), P.Done(P.ALL_WELL));
    var s0 := P.Initial(all);
    P.StartExample(all);
    StartManifest(all);
    var s1 := P.Run(s0, P.STARTED);
    StopStep(s1);
    P.RunSnoc(s0, P.STARTED, stop);
    var s2 := P.Step(s1, stop);
    OffRewriteStep(s2);
    P.RunSnoc(s0, P.STARTED + [stop], rewrite);
    var s3 := P.Step(s2, rewrite);
    P.RunSnoc(s0, P.STARTED + [stop] + [rewrite], done);
    DoneStep(s3);
    assert Reuses(P.Run(s0, P.STARTED + [stop] + [rewrite] + [done]).manifest);
  }

  lemma StopStep(s: P.Server)
    requires P.Writing(s, []) && s.buf == []
    ensures P.Allowed(s, P.Stop(0))
    ensures var t := P.Step(s, P.Stop(0));
            t.state == P.Off && t.child.None? && t.fd.NoFd? && t.buf == [] && t.manifest == s.manifest
  {
    P.StopShape(s, []);
    hide P.StopAppendOnly;
  }

  lemma OffRewriteStep(s: P.Server)
    requires s.state == P.Off && s.child.None? && s.fd.NoFd? && s.buf == []
    ensures P.Allowed(s, P.Rewrite(0, true, P.PersistOk, true))
    ensures var t := P.Step(s, P.Rewrite(0, true, P.PersistOk, true));
            t.state == P.Off && t.child.Some? && t.fd.NoFd? && t.manifest == s.manifest
  {}

  lemma DoneStep(s: P.Server)
    requires s.state == P.Off && s.child.Some? && s.fd.NoFd? && s.manifest.incr == [1]
    ensures P.Allowed(s, P.Done(P.ALL_WELL))
    ensures var m := P.Step(s, P.Done(P.ALL_WELL)).manifest;
            m.incr == [] && P.Incr(1) in m.history
  {
    OffDoneManifest(s);
    hide P.RewriteDone;
  }

  lemma StartManifest(all: P.History)
    ensures P.AllAllowed(P.Initial(all), P.STARTED)
    ensures P.Run(P.Initial(all), P.STARTED).manifest.incr == [1]
  {
    P.StartExample(all);
    P.RunSnoc(P.Initial(all), [], P.Start(true, P.ALL_WELL));
    assert [] + [P.Start(true, P.ALL_WELL)] == P.STARTED;
  }

  lemma OffDoneManifest(s: P.Server)
    requires s.state == P.Off && s.child.Some? && s.fd.NoFd? && s.manifest.incr == [1]
    ensures var m := P.RewriteDone(s, P.ALL_WELL).manifest;
            m.incr == [] && P.Incr(1) in m.history
  {
    var m1 := P.MarkRewritten(P.NewBase(s.manifest), false);
    assert m1.history[0] == P.Incr(1);
  }
}
