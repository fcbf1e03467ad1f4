// Loading any file at all under any configuration: what the configuration decides, what is refused, and that loading a
// file that was truncated runs the same commands again.
module AofLoadAny {
  import opened AofLog
  import opened AofLoader

  // ---------- what the configuration decides ----------

  predicate Repairs(cfg: Config) { cfg.loadTruncated && cfg.truncateWorks }

  // The fields that do not depend on the configuration.
  predicate SameProgress(a: State, b: State)
  {
    a.pos == b.pos && a.multi == b.multi && a.queue == b.queue && a.executed == b.executed
  }

  // How a load ends under `cfg` when it ends as `r` with truncating.
  function Ends(cfg: Config, r: Status): Status { if r == AofTruncated && !Repairs(cfg) then AofFailed else r }

  lemma {:induction false} LoadUnder(lookup: Lookup, cfg: Config, s: Bytes, st: State, st1: State, size: nat)
    requires SameProgress(st, st1)
    ensures var (r, t) := (Load(lookup, cfg, s, st, size), Load(lookup, TRUNCATING, s, st1, size));
            && r.executed == t.executed && r.status == Ends(cfg, t.status)
            && r.status in {AofOk, AofTruncated, AofFailed} && (r.status != AofTruncated ==> r.kept == size)
    decreases |s|
  {
    hide ReadCommand, Apply;
    match ReadCommand(s) {
      case Annotation(used) =>
        LoadUnder(lookup, cfg, s[used..], st.(pos := st.pos + used), st1.(pos := st1.pos + used), size);
      case Cmd(argv, used) =>
        var kind := lookup(argv[0]);
        if kind != Unknown {
          SameApplied(kind, cfg, st, st1, argv, used);
          LoadUnder(lookup, cfg, s[used..], Apply(kind, cfg, st, argv, used), Apply(kind, TRUNCATING, st1, argv, used),
                    size);
        }
      case _ =>
    }
  }

  lemma SameApplied(kind: Kind, cfg: Config, st: State, st1: State, argv: Command, used: nat)
    requires SameProgress(st, st1)
    ensures SameProgress(Apply(kind, cfg, st, argv, used), Apply(kind, TRUNCATING, st1, argv, used))
  {}

  // Whatever the file, the configuration has no say in which commands run. It decides one thing: a file that ends too
  // early is shortened and accepted if aof-load-truncated is on and truncate(2) works, and otherwise refused. Nothing
  // else changes the file.
  lemma AnyConfig(lookup: Lookup, cfg: Config, file: Bytes)
    ensures var (r, t) := (LoadFile(lookup, cfg, file), LoadFile(lookup, TRUNCATING, file));
            && r.executed == t.executed && r.status == Ends(cfg, t.status)
            && (r.status == AofTruncated ==> Repairs(cfg))
            && (r.status != AofTruncated ==> r.kept == |file|)
            && (r.status == AofEmpty <==> file == [])
  {
    hide Load;
    if file != [] {
      LoadUnder(lookup, cfg, file, START, START, |file|);
    }
  }

  // A log cut at any byte: the whole units run; the file is shortened, or refused and left as it is.
  lemma CutUnderAny(lookup: Lookup, cfg: Config, us: seq<Unit>, n: nat)
    requires AllWellFormed(lookup, us) && 0 < n <= |Log(us)|
    ensures var k := WholeUnits(us, n);
            LoadFile(lookup, cfg, Log(us)[..n]) ==
            if n == |Log(us[..k])| then Loaded(AofOk, Effects(us[..k]), n)
            else if Repairs(cfg) then Loaded(AofTruncated, Effects(us[..k]), KeptLength(us, n))
            else Loaded(AofFailed, Effects(us[..k]), n)
  {
    hide LoadFile, Log, WholeUnits, KeptLength, Effects;
    LoadCutLog(lookup, us, n);
    AnyConfig(lookup, cfg, Log(us)[..n]);
    assert |Log(us)[..n]| == n;
    assert Repairs(cfg) ==> cfg == TRUNCATING;
  }

  // ---------- what is refused ----------

  // Something that is not a command of the log, and not the end of one.
  predicate Refused(lookup: Lookup, s: Bytes)
  {
    match ReadCommand(s)
    case Bad => true
    case Hard => true
    case Cmd(argv, _) => lookup(argv[0]) == Unknown
    case _ => false
  }

  lemma RefusedHere(lookup: Lookup, st: State, s: Bytes, size: nat)
    requires Refused(lookup, s)
    ensures Load(lookup, TRUNCATING, s, st, size) == Loaded(AofFailed, st.executed, size)
  {
    hide ReadCommand;
  }

  // A file that goes on, after whole units, with something that is refused: under every configuration the load fails,
  // the units have run and the file is as it was.
  lemma RefusedAfter(lookup: Lookup, cfg: Config, us: seq<Unit>, tail: Bytes)
    requires AllWellFormed(lookup, us) && Refused(lookup, tail)
    ensures LoadFile(lookup, cfg, Log(us) + tail) == Loaded(AofFailed, Effects(us), |Log(us) + tail|)
  {
    hide Load, Log, Effects, Refused, ApplyAll, Flatten, Known;
    var file := Log(us) + tail;
    LoadLog(lookup, us, tail, |file|);
    RefusedHere(lookup, ApplyAll(lookup, TRUNCATING, START, Flatten(us)), tail, |file|);
    NotNothing(lookup, tail);
    AnyConfig(lookup, cfg, file);
  }

  lemma NotNothing(lookup: Lookup, s: Bytes)
    requires Refused(lookup, s)
    ensures s != []
  {}

  // The same inside a transaction that is not complete: nothing of it has run.
  lemma RefusedInside(lookup: Lookup, cfg: Config, us: seq<Unit>, begin: Command, body: seq<Command>, tail: Bytes)
    requires AllWellFormed(lookup, us) && Refused(lookup, tail) && IsKind(lookup, begin, Multi)
    requires forall i | 0 <= i < |body| :: IsKind(lookup, body[i], Normal)
    ensures var file := Log(us) + (Encode([begin] + body) + tail);
            LoadFile(lookup, cfg, file) == Loaded(AofFailed, Effects(us), |file|)
  {
    hide Load, Log, Effects, Refused, ApplyAll, Flatten, Known, EncodeCommand, Encode;
    var rest := Encode([begin] + body) + tail;
    var file := Log(us) + rest;
    LoadLog(lookup, us, rest, |file|);
    var st := ApplyAll(lookup, TRUNCATING, START, Flatten(us));
    ApplyOpen(lookup, TRUNCATING, st, begin, body);
    LoadCommands(lookup, TRUNCATING, [begin] + body, tail, st, |file|);
    RefusedHere(lookup, ApplyAll(lookup, TRUNCATING, st, [begin] + body), tail, |file|);
    NotNothing(lookup, tail);
    AnyConfig(lookup, cfg, file);
  }

  // What is not in the format of the log: a line that begins with neither '#' nor '*'; ...
  lemma BadMark(s: Bytes)
    requires s != [] && s[0] != HASH && s[0] != STAR
    ensures ReadCommand(s) == Bad
  {
    hide LineLength;
  }

  // ... a count of arguments below one; ...
  lemma BadCount(n: int, rest: Bytes)
    requires -0x7fffffffffffffff <= n < 1
    ensures ReadCommand([STAR] + Signed(n) + CRLF + rest) == Bad
  {
    var line := [STAR] + Signed(n) + [CR];
    var s := [STAR] + Signed(n) + CRLF + rest;
    SignedShape(n);
    assert s == line + [LF] + rest;
    LineLengthFull(line, rest, LINE_MAX);
    assert s[1..|line| + 1] == Signed(n) + CRLF;
    NumberOfSigned(n, CRLF);
    assert s[1] == Signed(n)[0];
    hide LineLength, Number;
  }

  lemma SignedShape(n: int)
    requires -0x7fffffffffffffff <= n < 1
    ensures 1 <= |Signed(n)| <= 20 && NoLf(Signed(n)) && Signed(n)[0] != 0
  {
    DecimalSmall(-n);
    DecimalDigits(-n);
  }

  // ... an argument that does not begin with '$'.
  lemma BadArgument(argv: Command, n: nat, rest: Bytes)
    requires |argv| < n <= 0x7fffffff && rest != [] && rest[0] != DOLLAR
    requires forall a <- argv :: |a| <= 0x7fffffffffffffff
    ensures ReadCommand(Header(STAR, n) + (Bulks(argv) + rest)) == Bad
  {
    HeaderRead(STAR, n, Bulks(argv) + rest);
    BadArgs(argv, n, rest);
    hide Header, LineLength, Number, Bulks, ReadArgs;
  }

  lemma {:induction false} BadArgs(argv: Command, n: nat, rest: Bytes)
    requires |argv| < n && rest != [] && rest[0] != DOLLAR
    requires forall a <- argv :: |a| <= 0x7fffffffffffffff
    ensures ReadArgs(Bulks(argv) + rest, n) == ArgsBad
    decreases |argv|
  {
    hide ReadArgs, Bulk;
    if argv == [] {
      assert Bulks(argv) + rest == rest;
      BadFirst(rest, n);
    } else {
      assert Bulks(argv) + rest == Bulk(argv[0]) + (Bulks(argv[1..]) + rest);
      ReadArgsStep(argv[0], Bulks(argv[1..]) + rest, n);
      BadArgs(argv[1..], n - 1, rest);
    }
  }

  lemma BadFirst(rest: Bytes, n: nat)
    requires n > 0 && rest != [] && rest[0] != DOLLAR
    ensures ReadArgs(rest, n) == ArgsBad
  {
    hide LineLength, Number;
  }

  // A zero byte where the count should be is an error of its own, unless the file ends there without a line feed.
  lemma ZeroCount(rest: Bytes)
    ensures ReadCommand([STAR, 0, LF] + rest) == Hard && ReadCommand([STAR, 0]) == Short
  {
    var s := [STAR, 0, LF] + rest;
    assert s == [STAR, 0] + [LF] + rest;
    LineLengthFull([STAR, 0], rest, LINE_MAX);
    LineLengthCut([STAR, 0], LINE_MAX);
    hide LineLength;
  }

  // A whole command that nobody knows.
  lemma UnknownRefused(lookup: Lookup, cmd: Command, rest: Bytes)
    requires Loggable(cmd) && lookup(cmd[0]) == Unknown
    ensures Refused(lookup, EncodeCommand(cmd) + rest)
  {
    hide EncodeCommand;
    ReadCommandExact(cmd, rest);
    hide ReadCommand;
  }

  // ---------- annotations ----------

  // A line that begins with '#' and fits the loader's buffer.
  predicate IsAnnotation(line: Bytes)
  {
    1 < |line| <= LINE_MAX && line[0] == HASH && line[|line| - 1] == LF && NoLf(line[..|line| - 1])
  }

  // It is skipped wherever a command may begin, inside a transaction too.
  lemma AnnotationSkipped(lookup: Lookup, cfg: Config, line: Bytes, rest: Bytes, st: State, size: nat)
    requires IsAnnotation(line)
    ensures Load(lookup, cfg, line + rest, st, size) == Load(lookup, cfg, rest, st.(pos := st.pos + |line|), size)
  {
    ReadAnnotation(line, rest);
    assert (line + rest)[|line|..] == rest;
    hide ReadCommand;
  }

  lemma ReadAnnotation(line: Bytes, rest: Bytes)
    requires IsAnnotation(line)
    ensures ReadCommand(line + rest) == Annotation(|line|)
  {
    var text := line[..|line| - 1];
    assert line + rest == text + [LF] + rest;
    LineLengthFull(text, rest, LINE_MAX);
    hide LineLength;
  }

  // Annotations between the units of a log change nothing but where it is cut: the same commands run.
  function Annotated(us: seq<Unit>, lines: seq<Bytes>): Bytes
    requires |lines| == |us|
    decreases |us|
  {
    if us == [] then [] else lines[0] + Encode(Commands(us[0])) + Annotated(us[1..], lines[1..])
  }

  lemma {:induction false} LoadAnnotated(lookup: Lookup, us: seq<Unit>, lines: seq<Bytes>, st: State, size: nat)
    requires |lines| == |us| && AllWellFormed(lookup, us) && !st.multi && st.queue == []
    requires forall i | 0 <= i < |lines| :: IsAnnotation(lines[i])
    ensures Load(lookup, TRUNCATING, Annotated(us, lines), st, size) ==
            Loaded(AofOk, st.executed + Effects(us), size)
    decreases |us|
  {
    hide Load, IsAnnotation, Commands, Encode, Effect, WellFormed, ApplyAll, Known;
    if us == [] {
      LoadEnd(lookup, st, size);
      assert st.executed + [] == st.executed;
    } else {
      var rest := Annotated(us[1..], lines[1..]);
      var e := Encode(Commands(us[0]));
      assert Annotated(us, lines) == lines[0] + (e + rest);
      AnnotationSkipped(lookup, TRUNCATING, lines[0], e + rest, st, size);
      var st1 := st.(pos := st.pos + |lines[0]|);
      ApplyUnit(lookup, TRUNCATING, st1, us[0]);
      LoadCommands(lookup, TRUNCATING, Commands(us[0]), rest, st1, size);
      LoadAnnotated(lookup, us[1..], lines[1..], ApplyAll(lookup, TRUNCATING, st1, Commands(us[0])), size);
      assert st.executed + Effect(us[0]) + Effects(us[1..]) == st.executed + Effects(us);
    }
  }

  lemma LoadEnd(lookup: Lookup, st: State, size: nat)
    requires !st.multi
    ensures Load(lookup, TRUNCATING, [], st, size) == Loaded(AofOk, st.executed, size)
  {}

  lemma AnnotationsIgnored(lookup: Lookup, cfg: Config, us: seq<Unit>, lines: seq<Bytes>)
    requires |lines| == |us| > 0 && AllWellFormed(lookup, us)
    requires forall i | 0 <= i < |lines| :: IsAnnotation(lines[i])
    ensures var file := Annotated(us, lines);
            LoadFile(lookup, cfg, file) == Loaded(AofOk, Effects(us), |file|)
  {
    hide Load, Effects;
    var file := Annotated(us, lines);
    LoadAnnotated(lookup, us, lines, START, |file|);
    AnyConfig(lookup, cfg, file);
    assert |file| >= |lines[0]|;
    assert [] + Effects(us) == Effects(us);
  }

  // ---------- loading a repaired file again ----------

  lemma {:induction false} LinePrefix(s: Bytes, limit: nat, m: nat)
    requires LineLength(s, limit) <= m <= |s|
    ensures LineLength(s[..m], limit) == LineLength(s, limit)
    decreases |s|
  {
    if s != [] && limit > 0 && s[0] != LF {
      assert s[..m][1..] == s[1..][..m - 1];
      LinePrefix(s[1..], limit - 1, m - 1);
    }
  }

  lemma {:induction false} ArgsPrefix(s: Bytes, n: nat, m: nat)
    requires ReadArgs(s, n).Args? && ReadArgs(s, n).used <= m <= |s|
    ensures ReadArgs(s[..m], n) == ReadArgs(s, n)
    decreases n
  {
    hide Number;
    if n > 0 {
      var l := LineLength(s, LINE_MAX);
      var len := Number(s[1..l]);
      var k := l + len + 2;
      hide LineLength;
      LinePrefix(s, LINE_MAX, m);
      assert s[..m][1..l] == s[1..l] && s[..m][l..l + len] == s[l..l + len];
      ArgsPrefix(s[k..], n - 1, m - k);
      assert s[..m][k..] == s[k..][..m - k];
    }
  }

  // A command, or an annotation, reads the same when the file is cut behind it.
  lemma ReadPrefix(s: Bytes, m: nat)
    requires m <= |s|
    requires var r := ReadCommand(s); (r.Cmd? || r.Annotation?) && r.used <= m
    ensures ReadCommand(s[..m]) == ReadCommand(s)
  {
    var l := LineLength(s, LINE_MAX);
    LinePrefix(s, LINE_MAX, m);
    assert s[..m][1..l] == s[1..l];
    if ReadCommand(s).Cmd? {
      var n := Number(s[1..l]);
      ArgsPrefix(s[l..], n, m - l);
      assert s[..m][l..] == s[l..][..m - l];
    }
    hide LineLength, Number, ReadArgs;
  }

  // Where the loader would cut is not ahead of where it stands.
  predicate Behind(st: State)
  {
    st.validUpTo <= st.pos && (st.multi ==> st.validBeforeMulti <= st.validUpTo)
  }

  // What is kept of the file begins at `st` or before; if it ends behind `st`, loading just that ends the same way.
  predicate Reloads(lookup: Lookup, s: Bytes, st: State, r: Loaded)
  {
    && (if st.multi then st.validBeforeMulti else st.validUpTo) <= r.kept <= st.pos + |s|
    && (r.kept < st.pos ==>
          r.executed == st.executed && (r.kept == st.validUpTo || (st.multi && r.kept == st.validBeforeMulti)))
    && (r.kept >= st.pos ==>
          var again := Load(lookup, TRUNCATING, s[..r.kept - st.pos], st, r.kept);
          again.executed == r.executed && again.status != AofFailed)
  }

  lemma {:induction false} LoadAgain(lookup: Lookup, s: Bytes, st: State, size: nat)
    requires Behind(st) && size == st.pos + |s|
    requires Load(lookup, TRUNCATING, s, st, size).status == AofTruncated
    ensures Reloads(lookup, s, st, Load(lookup, TRUNCATING, s, st, size))
    decreases |s|
  {
    hide ReadCommand, Apply, Reloads;
    var r := Load(lookup, TRUNCATING, s, st, size);
    match ReadCommand(s) {
      case Annotation(used) =>
        var st1 := st.(pos := st.pos + used);
        LoadAgain(lookup, s[used..], st1, size);
        forall m | used <= m <= |s| {
          LoadStep(lookup, s, st, used, m);
        }
        AgainBehind(lookup, s, st, st1, used, r);
      case Cmd(argv, used) =>
        var kind := lookup(argv[0]);
        var st1 := Apply(kind, TRUNCATING, st, argv, used);
        ApplyBehind(kind, st, argv, used);
        LoadAgain(lookup, s[used..], st1, size);
        forall m | used <= m <= |s| {
          LoadStep(lookup, s, st, used, m);
        }
        AgainBehind(lookup, s, st, st1, used, r);
      case _ => AgainEnds(lookup, s, st, r);
    }
  }

  lemma ApplyBehind(kind: Kind, st: State, argv: Command, used: nat)
    requires Behind(st)
    ensures var st1 := Apply(kind, TRUNCATING, st, argv, used);
            && Behind(st1) && st1.pos == st1.validUpTo == st.pos + used
            && (st1.multi ==> st1.executed == st.executed
                              && (st1.validBeforeMulti == st.validUpTo
                                  || (st.multi && st1.validBeforeMulti == st.validBeforeMulti)))
  {}

  lemma AgainBehind(lookup: Lookup, s: Bytes, st: State, st1: State, used: nat, r: Loaded)
    requires Behind(st) && Behind(st1) && 0 < used <= |s| && st1.pos == st.pos + used
    requires forall m | used <= m <= |s| :: Load(lookup, TRUNCATING, s[..m], st, st.pos + m) ==
                                           Load(lookup, TRUNCATING, s[used..][..m - used], st1, st.pos + m)
    requires Reloads(lookup, s[used..], st1, r)
    requires || st1 == st.(pos := st1.pos)
             || (&& st1.validUpTo == st1.pos
                 && (st1.multi ==> st1.executed == st.executed
                                   && (st1.validBeforeMulti == st.validUpTo
                                       || (st.multi && st1.validBeforeMulti == st.validBeforeMulti))))
    ensures Reloads(lookup, s, st, r)
  {
    hide Load;
    if r.kept >= st1.pos {
      assert st.pos + (r.kept - st.pos) == r.kept;
    } else if r.kept >= st.pos {
      AgainHere(lookup, s, st, r.kept);
    }
  }

  lemma LoadStep(lookup: Lookup, s: Bytes, st: State, used: nat, m: nat)
    requires var r := ReadCommand(s);
             (r.Annotation? || (r.Cmd? && lookup(r.argv[0]) != Unknown)) && r.used == used <= m <= |s|
    ensures var r := ReadCommand(s);
            var st1 := if r.Cmd? then Apply(lookup(r.argv[0]), TRUNCATING, st, r.argv, used)
                       else st.(pos := st.pos + used);
            Load(lookup, TRUNCATING, s[..m], st, st.pos + m) ==
            Load(lookup, TRUNCATING, s[used..][..m - used], st1, st.pos + m)
  {
    hide ReadCommand, Apply, Load;
    ReadPrefix(s, m);
    LoadNext(lookup, s[..m], st, used, st.pos + m);
    assert s[..m][used..] == s[used..][..m - used];
  }

  lemma LoadNext(lookup: Lookup, s: Bytes, st: State, used: nat, size: nat)
    requires var r := ReadCommand(s);
             (r.Annotation? || (r.Cmd? && lookup(r.argv[0]) != Unknown)) && r.used == used
    ensures var r := ReadCommand(s);
            var st1 := if r.Cmd? then Apply(lookup(r.argv[0]), TRUNCATING, st, r.argv, used)
                       else st.(pos := st.pos + used);
            Load(lookup, TRUNCATING, s, st, size) == Load(lookup, TRUNCATING, s[used..], st1, size)
  {
    hide ReadCommand, Apply;
  }

  lemma AgainEnds(lookup: Lookup, s: Bytes, st: State, r: Loaded)
    requires Behind(st) && !ReadCommand(s).Cmd? && !ReadCommand(s).Annotation?
    requires r == Load(lookup, TRUNCATING, s, st, st.pos + |s|) && r.status == AofTruncated
    ensures Reloads(lookup, s, st, r)
  {
    hide ReadCommand;
    if r.kept <= st.pos + |s| {
      AgainHere(lookup, s, st, r.kept);
    }
  }

  // Cut where the loader stands.
  lemma AgainHere(lookup: Lookup, s: Bytes, st: State, kept: nat)
    requires kept <= st.pos + |s|
    ensures kept == st.pos ==>
              var again := Load(lookup, TRUNCATING, s[..kept - st.pos], st, kept);
              again.executed == st.executed && again.status != AofFailed
  {}

  // Whatever the file, what a load has cut it down to loads without an error and runs the same commands.
  lemma RepairedLoadsAgain(lookup: Lookup, cfg: Config, file: Bytes)
    requires LoadFile(lookup, cfg, file).status == AofTruncated
    ensures var r := LoadFile(lookup, cfg, file);
            && r.kept <= |file|
            && LoadFile(lookup, cfg, file[..r.kept]).executed == r.executed
            && LoadFile(lookup, cfg, file[..r.kept]).status != AofFailed
  {
    AnyConfig(lookup, cfg, file);
    assert cfg == TRUNCATING;
    LoadAgain(lookup, file, START, |file|);
    hide Load;
    var r := LoadFile(lookup, cfg, file);
    assert file[..r.kept - START.pos] == file[..r.kept];
    if r.kept == 0 {
      LoadEnd(lookup, START, 0);
    }
  }
}
