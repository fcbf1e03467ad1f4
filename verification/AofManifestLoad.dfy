// What the loader of the manifest makes of a file: of a line with any keys, of comments, and of any list of entries.
module AofManifestLoad {
  import opened AofLog
  import opened AofManifest
  import opened Options

  // ---------- the keys of a line ----------

  predicate SlashedName(argv: seq<Bytes>)
    requires |argv| % 2 == 0
  {
    exists i | 0 <= i < |argv| / 2 :: SameWord(argv[2 * i], FILE) && !IsBaseName(argv[2 * i + 1])
  }

  // The value of the last pair with this key.
  function LastValue(argv: seq<Bytes>, keyword: Bytes): Option<Bytes>
    requires |argv| % 2 == 0
    decreases |argv|
  {
    if argv == [] then None
    else if SameWord(argv[|argv| - 2], keyword) then Some(argv[|argv| - 1])
    else LastValue(argv[..|argv| - 2], keyword)
  }

  function Default(a: Option<Bytes>, b: Option<Bytes>): Option<Bytes> { if a.Some? then a else b }

  lemma {:induction false} LastOfRest(argv: seq<Bytes>, keyword: Bytes)
    requires |argv| % 2 == 0 && argv != []
    ensures LastValue(argv, keyword) ==
            Default(LastValue(argv[2..], keyword), if SameWord(argv[0], keyword) then Some(argv[1]) else None)
    decreases |argv|
  {
    hide SameWord;
    var n := |argv| - 2;
    if n == 0 {
      assert argv[2..] == [] && argv[..0] == [];
    } else {
      LastOfRest(argv[..n], keyword);
      assert argv[..n][2..] == argv[2..][..n - 2];
    }
  }

  lemma KeywordsApart(s: Bytes)
    ensures !(SameWord(s, FILE) && SameWord(s, SEQ)) && !(SameWord(s, FILE) && SameWord(s, TYPE))
    ensures !(SameWord(s, SEQ) && SameWord(s, TYPE))
  {
    assert s != [] ==> !(Lower(s[0]) == FILE[0] && Lower(s[0]) == TYPE[0]);
  }

  function Values(argv: seq<Bytes>, p: Partial): Partial
    requires |argv| % 2 == 0
  {
    var (seqNo, kind) := (LastValue(argv, SEQ), LastValue(argv, TYPE));
    Partial(Default(LastValue(argv, FILE), p.name),
            if seqNo.Some? then Number(seqNo.value) else p.seqNo,
            if kind.Some? then First(kind.value) else p.kind)
  }

  // Of every key the last value counts, in whatever case and order the keys are written, and keys that are not known
  // are skipped. A line is refused for its name if and only if some name in it has a slash or a backslash.
  lemma {:induction false} PairsMean(argv: seq<Bytes>, p: Partial)
    requires |argv| % 2 == 0
    ensures ReadPairs(argv, p) == if SlashedName(argv) then Err(NotABaseName) else Ok(Values(argv, p))
    decreases |argv|
  {
    hide SameWord, IsBaseName, Number;
    if argv != [] {
      var (key, value, rest) := (argv[0], argv[1], argv[2..]);
      KeywordsApart(key);
      LastOfRest(argv, FILE);
      LastOfRest(argv, SEQ);
      LastOfRest(argv, TYPE);
      SlashedRest(argv);
      PairsMean(rest, p);
      PairsMean(rest, p.(name := Some(value)));
      PairsMean(rest, p.(seqNo := Number(value)));
      PairsMean(rest, p.(kind := First(value)));
    }
  }

  lemma SlashedRest(argv: seq<Bytes>)
    requires |argv| % 2 == 0 && argv != []
    ensures SlashedName(argv) <==> (SameWord(argv[0], FILE) && !IsBaseName(argv[1])) || SlashedName(argv[2..])
  {
    hide SameWord, IsBaseName;
    var rest := argv[2..];
    forall i | 0 <= i < |rest| / 2
      ensures rest[2 * i] == argv[2 * (i + 1)] && rest[2 * i + 1] == argv[2 * (i + 1) + 1]
    {}
    if SlashedName(argv) {
      var i :| 0 <= i < |argv| / 2 && SameWord(argv[2 * i], FILE) && !IsBaseName(argv[2 * i + 1]);
      if i > 0 {
        assert rest[2 * (i - 1)] == argv[2 * i];
      }
    }
    if SlashedName(rest) {
      var i :| 0 <= i < |rest| / 2 && SameWord(rest[2 * i], FILE) && !IsBaseName(rest[2 * i + 1]);
      assert argv[2 * (i + 1)] == rest[2 * i];
    }
  }

  // A line is an entry if and only if it has at least three pairs, a name without slashes, a number that is not zero
  // and a type.
  lemma LineMeans(line: Bytes)
    ensures var argv := Split(TrimRight(TrimLeft(line)));
            ReadLine(line) ==
            if |argv| < 6 || |argv| % 2 != 0 then Err(InvalidFormat)
            else if SlashedName(argv) then Err(NotABaseName)
            else
              var p := Values(argv, Partial(None, 0, 0));
              if p.name.None? || p.seqNo == 0 || p.kind == 0 then Err(InvalidFormat)
              else Ok(Info(p.name.value, p.seqNo, p.kind))
  {
    hide Split, TrimRight, TrimLeft, SlashedName, Values;
    var argv := Split(TrimRight(TrimLeft(line)));
    NothingToSplit();
    if |argv| % 2 == 0 {
      PairsMean(argv, Partial(None, 0, 0));
    }
  }

  lemma NothingToSplit()
    ensures Split([]) == []
  {}

  // ---------- comments ----------

  // A whole line that begins with '#' and fits the loader's buffer.
  predicate IsComment(line: Bytes)
  {
    1 < |line| <= MAX_LINE && line[0] == HASH && line[|line| - 1] == LF && NoLf(line[..|line| - 1])
  }

  lemma CommentSkipped(line: Bytes, rest: Bytes, m: Manifest, maxSeq: int, first: bool)
    requires IsComment(line)
    ensures LoadLines(line + rest, m, maxSeq, first) == LoadLines(rest, m, maxSeq, false)
  {
    var body := line[..|line| - 1];
    assert line == body + [LF];
    LineLengthFull(body, rest, MAX_LINE);
    var s := line + rest;
    assert s == body + [LF] + rest && s[|line|..] == rest && s[0] == HASH;
    hide LineLength, NoLf, ReadLine, Place;
  }

  // A file with nothing in it is refused, one with comments only is a manifest without files.
  lemma EmptyRefused(line: Bytes)
    requires IsComment(line)
    ensures Load([]) == Err(EmptyManifest) && Load(line) == Ok(EMPTY)
  {
    CommentSkipped(line, [], EMPTY, 0, true);
    assert line + [] == line;
  }

  // ---------- any list of entries ----------

  function OfKind(infos: seq<Info>, kind: byte): seq<Info>
  {
    if infos == [] then []
    else
      var last := infos[|infos| - 1];
      OfKind(infos[..|infos| - 1], kind) + if last.kind == kind then [last] else []
  }

  // What is wrong with entry `i`: a type nobody knows, a second base, or an INCR file whose number is not above those
  // before it.
  function Fault(infos: seq<Info>, i: nat): Option<LoadError>
    requires i < |infos|
  {
    var ai := infos[i];
    if ai.kind !in {BASE, HIST, INCR} then Some(UnknownType)
    else if ai.kind == BASE && exists j | 0 <= j < i :: infos[j].kind == BASE then Some(DuplicateBase)
    else if
      ai.kind == INCR
      && (ai.seqNo <= 0 || exists j | 0 <= j < i :: infos[j].kind == INCR && infos[j].seqNo >= ai.seqNo)
    then Some(NonMonotonic)
    else None
  }

  // The manifest of a list of entries: the base, and the other two kinds in order.
  predicate Holds(m: Manifest, infos: seq<Info>)
  {
    && (m.base.None? <==> OfKind(infos, BASE) == []) && (m.base.Some? ==> OfKind(infos, BASE) == [m.base.value])
    && m.history == OfKind(infos, HIST) && m.incr == OfKind(infos, INCR) && !m.dirty
    && m.currBase == (if m.base.Some? then m.base.value.seqNo else 0)
    && m.currIncr == (if m.incr == [] then 0 else m.incr[|m.incr| - 1].seqNo)
  }

  // The loader behind `n` of the entries.
  predicate Behind(infos: seq<Info>, n: nat, m: Manifest, maxSeq: int)
    requires n <= |infos|
  {
    && Holds(m, infos[..n]) && maxSeq == m.currIncr >= 0
    && forall j | 0 <= j < n :: infos[j].kind == INCR ==> infos[j].seqNo <= maxSeq
  }

  lemma {:induction false} OfKindNone(infos: seq<Info>, kind: byte)
    ensures OfKind(infos, kind) == [] <==> forall j | 0 <= j < |infos| :: infos[j].kind != kind
  {
    if infos != [] {
      OfKindNone(infos[..|infos| - 1], kind);
    }
  }

  lemma {:induction false} OfKindLast(infos: seq<Info>, kind: byte)
    ensures var l := OfKind(infos, kind);
            l != [] ==> exists j | 0 <= j < |infos| :: infos[j] == l[|l| - 1] && infos[j].kind == kind
  {
    if infos != [] {
      var n := |infos| - 1;
      OfKindLast(infos[..n], kind);
      var l := OfKind(infos[..n], kind);
      if infos[n].kind != kind && l != [] {
        var j :| 0 <= j < n && infos[..n][j] == l[|l| - 1] && infos[..n][j].kind == kind;
        assert infos[j] == l[|l| - 1];
      }
    }
  }

  lemma OfKindNext(infos: seq<Info>, n: nat, kind: byte)
    requires n < |infos|
    ensures OfKind(infos[..n + 1], kind) == OfKind(infos[..n], kind) + if infos[n].kind == kind then [infos[n]] else []
  {
    assert infos[..n + 1][..n] == infos[..n];
  }

  lemma StepBehind(infos: seq<Info>, n: nat, m: Manifest, maxSeq: int)
    requires n < |infos| && Behind(infos, n, m, maxSeq)
    ensures match Place(m, infos[n], maxSeq)
            case Err(e) => Fault(infos, n) == Some(e)
            case Ok((m1, max1)) => Fault(infos, n) == None && Behind(infos, n + 1, m1, max1)
  {
    hide OfKind;
    OfKindNext(infos, n, BASE);
    OfKindNext(infos, n, HIST);
    OfKindNext(infos, n, INCR);
    BaseFault(infos, n, m, maxSeq);
    IncrFault(infos, n, m, maxSeq);
  }

  lemma BaseFault(infos: seq<Info>, n: nat, m: Manifest, maxSeq: int)
    requires n < |infos| && Behind(infos, n, m, maxSeq)
    ensures m.base.Some? <==> exists j | 0 <= j < n :: infos[j].kind == BASE
  {
    OfKindNone(infos[..n], BASE);
    hide OfKind;
    if m.base.Some? {
      var j :| 0 <= j < n && infos[..n][j].kind == BASE;
      assert infos[j].kind == BASE;
    }
  }

  lemma IncrFault(infos: seq<Info>, n: nat, m: Manifest, maxSeq: int)
    requires n < |infos| && Behind(infos, n, m, maxSeq)
    ensures var q := infos[n].seqNo;
            q <= maxSeq <==> q <= 0 || exists j | 0 <= j < n :: infos[j].kind == INCR && infos[j].seqNo >= q
  {
    OfKindLast(infos[..n], INCR);
    OfKindNone(infos[..n], INCR);
    hide OfKind;
    var l := OfKind(infos[..n], INCR);
    if l == [] {
      forall j | 0 <= j < n
        ensures infos[j].kind != INCR
      {
        assert infos[..n][j].kind != INCR;
      }
    } else {
      var j :| 0 <= j < n && infos[..n][j] == l[|l| - 1] && infos[..n][j].kind == INCR;
      assert infos[j].kind == INCR && infos[j].seqNo == maxSeq;
    }
  }

  // A printed list of entries loads if and only if nothing is wrong with any of them, and then as the manifest of that
  // list; otherwise the error is that of the first one with which something is wrong.
  lemma {:induction false} LoadFrom(infos: seq<Info>, n: nat, m: Manifest, maxSeq: int, first: bool)
    requires n <= |infos| && Behind(infos, n, m, maxSeq) && (first ==> n < |infos|)
    requires forall i | 0 <= i < |infos| :: Printable(infos[i])
    requires forall j | 0 <= j < n :: Fault(infos, j) == None
    ensures Loads(LoadLines(Lines(infos[n..]), m, maxSeq, first), infos)
    decreases |infos| - n
  {
    hide Behind, Fault, Printable, Line, Place;
    if n == |infos| {
      assert infos[n..] == [];
      BehindAll(infos, m, maxSeq);
    } else {
      StepBehind(infos, n, m, maxSeq);
      assert infos[n..][1..] == infos[n + 1..];
      LoadStep(infos[n], Lines(infos[n + 1..]), m, maxSeq, first);
      match Place(m, infos[n], maxSeq)
      case Err(e) => assert Fault(infos, n) == Some(e);
      case Ok((m1, max1)) => LoadFrom(infos, n + 1, m1, max1, false);
    }
  }

  lemma BehindAll(infos: seq<Info>, m: Manifest, maxSeq: int)
    requires Behind(infos, |infos|, m, maxSeq)
    ensures Holds(m, infos)
  {
    assert infos[..|infos|] == infos;
  }

  predicate Loads(r: Result<Manifest>, infos: seq<Info>)
  {
    match r
    case Ok(m) => Holds(m, infos) && forall i | 0 <= i < |infos| :: Fault(infos, i) == None
    case Err(e) =>
      exists i | 0 <= i < |infos| :: Fault(infos, i) == Some(e) && forall j | 0 <= j < i :: Fault(infos, j) == None
  }

  lemma ListLoads(infos: seq<Info>)
    requires infos != [] && forall i | 0 <= i < |infos| :: Printable(infos[i])
    ensures Loads(Load(Lines(infos)), infos)
  {
    hide Printable, Line, LoadLines, Lines, Loads;
    assert infos[..0] == [] && infos[0..] == infos;
    assert Behind(infos, 0, EMPTY, 0);
    LoadFrom(infos, 0, EMPTY, 0, true);
  }
}
