// The manifest file of aof.c as text: printing it, loading it, and the operations that change it in memory.
module AofManifest {
  import opened AofLog
  import opened Options

  datatype Result<T> = Ok(value: T) | Err(error: LoadError)

  datatype LoadError =
    | EmptyManifest | TooLongLine | InvalidFormat | NotABaseName | DuplicateBase | NonMonotonic | UnknownType

  // 'b', 'h' and 'i'
  const BASE: byte := 98
  const HIST: byte := 104
  const INCR: byte := 105

  const SPACE: byte := 32
  const FILE: Bytes := [102, 105, 108, 101]
  const SEQ: Bytes := [115, 101, 113]
  const TYPE: Bytes := [116, 121, 112, 101]

  // MANIFEST_MAX_LINE
  const MAX_LINE: nat := 1024

  datatype Info = Info(name: Bytes, seqNo: int, kind: byte)

  datatype Manifest = Manifest(
    base: Option<Info>, history: seq<Info>, incr: seq<Info>, currBase: int, currIncr: int, dirty: bool)

  const EMPTY := Manifest(None, [], [], 0, 0, false)

  // ---------- printing ----------

  // aofInfoFormat, for a name that needs no quoting.
  function Line(ai: Info): Bytes
  {
    FILE + [SPACE] + ai.name + [SPACE] + SEQ + [SPACE] + Signed(ai.seqNo) + [SPACE] + TYPE + [SPACE] + [ai.kind] + [LF]
  }

  function Lines(infos: seq<Info>): Bytes
  {
    if infos == [] then [] else Line(infos[0]) + Lines(infos[1..])
  }

  function Infos(m: Manifest): seq<Info>
  {
    (if m.base.Some? then [m.base.value] else []) + m.history + m.incr
  }

  // ---------- loading ----------

  // sdstrim with the characters the loader passes.
  predicate Trimmed(c: byte) { c == SPACE || c == 9 || c == CR || c == LF }

  function TrimLeft(s: Bytes): Bytes { if s != [] && Trimmed(s[0]) then TrimLeft(s[1..]) else s }

  function TrimRight(s: Bytes): Bytes
  {
    if s != [] && Trimmed(s[|s| - 1]) then TrimRight(s[..|s| - 1]) else s
  }

  // The bytes up to the first blank, line end or tab.
  function Word(s: Bytes): (w: Bytes)
    ensures w <= s && (s != [] && !IsSpace(s[0]) ==> w != [])
  {
    if s == [] || Trimmed(s[0]) then [] else [s[0]] + Word(s[1..])
  }

  // sdssplitargs on a line without quotes.
  function Split(s: Bytes): seq<Bytes>
    decreases |s|
  {
    if s == [] then []
    else if IsSpace(s[0]) then Split(s[1..])
    else [Word(s)] + Split(s[|Word(s)|..])
  }

  function Lower(c: byte): byte { if 65 <= c <= 90 then c + 32 else c }

  // strcasecmp against a lower-case keyword.
  predicate SameWord(s: Bytes, keyword: Bytes)
  {
    |s| == |keyword| && forall i | 0 <= i < |s| :: Lower(s[i]) == keyword[i]
  }

  // pathIsBaseName: no slash and no backslash.
  predicate IsBaseName(s: Bytes) { forall i | 0 <= i < |s| :: s[i] != 47 && s[i] != 92 }

  // The fields found so far on a line; `kind` is 0 until a type is read.
  datatype Partial = Partial(name: Option<Bytes>, seqNo: int, kind: byte)

  // A missing first byte is the terminating zero of the C string.
  function First(s: Bytes): byte { if s == [] then 0 else s[0] }

  // The key-value pairs of a line, in order; later ones win and unknown keys are ignored.
  function ReadPairs(argv: seq<Bytes>, p: Partial): Result<Partial>
    requires |argv| % 2 == 0
    decreases |argv|
  {
    if argv == [] then Ok(p)
    else
      var (key, value) := (argv[0], argv[1]);
      if SameWord(key, FILE) then
        if !IsBaseName(value) then Err(NotABaseName) else ReadPairs(argv[2..], p.(name := Some(value)))
      else if SameWord(key, SEQ) then ReadPairs(argv[2..], p.(seqNo := Number(value)))
      else if SameWord(key, TYPE) then ReadPairs(argv[2..], p.(kind := First(value)))
      else ReadPairs(argv[2..], p)
  }

  // One line, already without comment and with its line feed.
  function ReadLine(line: Bytes): Result<Info>
  {
    var s := TrimRight(TrimLeft(line));
    if s == [] then Err(InvalidFormat)
    else
      var argv := Split(s);
      if |argv| < 6 || |argv| % 2 != 0 then Err(InvalidFormat)
      else
        match ReadPairs(argv, Partial(None, 0, 0))
        case Err(e) => Err(e)
        case Ok(p) =>
          if p.name.None? || p.seqNo == 0 || p.kind == 0 then Err(InvalidFormat)
          else Ok(Info(p.name.value, p.seqNo, p.kind))
  }

  // Put one entry in its list.
  function Place(m: Manifest, ai: Info, maxSeq: int): Result<(Manifest, int)>
  {
    if ai.kind == BASE then
      if m.base.Some? then Err(DuplicateBase) else Ok((m.(base := Some(ai), currBase := ai.seqNo), maxSeq))
    else if ai.kind == HIST then Ok((m.(history := m.history + [ai]), maxSeq))
    else if ai.kind == INCR then
      if ai.seqNo <= maxSeq then Err(NonMonotonic)
      else Ok((m.(incr := m.incr + [ai], currIncr := ai.seqNo), ai.seqNo))
    else Err(UnknownType)
  }

  // The lines of `s`, the manifest so far being `m`.
  function LoadLines(s: Bytes, m: Manifest, maxSeq: int, first: bool): Result<Manifest>
    decreases |s|
  {
    if s == [] then if first then Err(EmptyManifest) else Ok(m)
    else
      var l := LineLength(s, MAX_LINE);
      if s[0] == HASH then LoadLines(s[l..], m, maxSeq, false)
      else if s[l - 1] != LF then Err(TooLongLine)
      else
        match ReadLine(s[..l])
        case Err(e) => Err(e)
        case Ok(ai) =>
          match Place(m, ai, maxSeq)
          case Err(e) => Err(e)
          case Ok((m1, max1)) => LoadLines(s[l..], m1, max1, false)
  }

  function Load(s: Bytes): Result<Manifest> { LoadLines(s, EMPTY, 0, true) }

  // ---------- manifests that survive the round trip ----------

  predicate Plain(c: byte) { 33 <= c <= 126 && c != 34 && c != 39 && c != 47 && c != 92 }

  // A name that is written as it is and read back as one token.
  predicate PlainName(s: Bytes) { s != [] && forall i | 0 <= i < |s| :: Plain(s[i]) }

  predicate Printable(ai: Info)
  {
    PlainName(ai.name) && 0 < ai.seqNo <= 0x7fffffffffffffff && Plain(ai.kind) && |Line(ai)| <= MAX_LINE
  }

  predicate Valid(m: Manifest)
  {
    && (forall i | 0 <= i < |Infos(m)| :: Printable(Infos(m)[i]))
    && (m.base.Some? ==> m.base.value.kind == BASE && m.currBase == m.base.value.seqNo)
    && (forall i | 0 <= i < |m.history| :: m.history[i].kind == HIST)
    && (forall i | 0 <= i < |m.incr| :: m.incr[i].kind == INCR && m.incr[i].seqNo <= m.currIncr)
    && (m.incr != [] ==> m.incr[|m.incr| - 1].seqNo == m.currIncr)
    && (forall i, j | 0 <= i < j < |m.incr| :: m.incr[i].seqNo < m.incr[j].seqNo)
  }

  // ---------- tokens ----------

  predicate Token(s: Bytes) { s != [] && forall i | 0 <= i < |s| :: !IsSpace(s[i]) }

  lemma {:induction false} WordToken(t: Bytes, rest: Bytes)
    requires forall i | 0 <= i < |t| :: !IsSpace(t[i])
    requires rest == [] || Trimmed(rest[0])
    ensures Word(t + rest) == t
  {
    if t == [] {
      assert t + rest == rest;
    } else {
      assert (t + rest)[1..] == t[1..] + rest;
      WordToken(t[1..], rest);
    }
  }

  // The text of tokens separated by single blanks.
  function JoinTokens(ts: seq<Bytes>): Bytes
  {
    if ts == [] then []
    else if |ts| == 1 then ts[0]
    else ts[0] + [SPACE] + JoinTokens(ts[1..])
  }

  lemma {:induction false} SplitJoin(ts: seq<Bytes>)
    requires forall i | 0 <= i < |ts| :: Token(ts[i])
    ensures Split(JoinTokens(ts)) == ts
    decreases |ts|
  {
    if ts == [] {
    } else {
      var t := ts[0];
      var rest := if |ts| == 1 then [] else [SPACE] + JoinTokens(ts[1..]);
      assert JoinTokens(ts) == t + rest;
      WordToken(t, rest);
      assert (t + rest)[|t|..] == rest;
      SplitJoin(ts[1..]);
      if |ts| > 1 {
        assert rest[1..] == JoinTokens(ts[1..]);
      }
    }
  }

  // ---------- one line ----------

  lemma DecimalToken(n: nat)
    ensures Token(Decimal(n))
  {
    DecimalDigits(n);
  }

  function Tokens(ai: Info): seq<Bytes>
  {
    [FILE, ai.name, SEQ, Signed(ai.seqNo), TYPE, [ai.kind]]
  }

  lemma LineIsTokens(ai: Info)
    ensures Line(ai) == JoinTokens(Tokens(ai)) + [LF]
  {
    var ts := Tokens(ai);
    assert JoinTokens(ts[4..]) == TYPE + [SPACE] + [ai.kind] by { assert ts[4..][1..] == [[ai.kind]]; }
    assert ts[3..][1..] == ts[4..] && ts[2..][1..] == ts[3..] && ts[1..][1..] == ts[2..];
    assert JoinTokens(ts[3..]) == Signed(ai.seqNo) + [SPACE] + JoinTokens(ts[4..]);
    assert JoinTokens(ts[2..]) == SEQ + [SPACE] + JoinTokens(ts[3..]);
    assert JoinTokens(ts[1..]) == ai.name + [SPACE] + JoinTokens(ts[2..]);
  }

  lemma TrimBody(body: Bytes)
    requires body != [] && !Trimmed(body[0]) && !Trimmed(body[|body| - 1])
    ensures TrimRight(TrimLeft(body + [LF])) == body
  {
    var s := body + [LF];
    assert s[..|s| - 1] == body;
  }

  lemma ReadLineExact(ai: Info)
    requires Printable(ai)
    ensures ReadLine(Line(ai)) == Ok(ai)
  {
    hide Line;
    var ts := Tokens(ai);
    var body := JoinTokens(ts);
    LineIsTokens(ai);
    BodyEnds(ai);
    TrimBody(body);
    DecimalToken(ai.seqNo);
    SplitJoin(ts);
    PairsExact(ai);
  }

  lemma BodyEnds(ai: Info)
    requires Printable(ai)
    ensures var body := JoinTokens(Tokens(ai));
            body != [] && body[0] == 102 && body[|body| - 1] == ai.kind
  {
    LineIsTokens(ai);
    var body := JoinTokens(Tokens(ai));
    assert body == Line(ai)[..|Line(ai)| - 1];
  }

  lemma PairsExact(ai: Info)
    requires Printable(ai)
    ensures ReadPairs(Tokens(ai), Partial(None, 0, 0)) == Ok(Partial(Some(ai.name), ai.seqNo, ai.kind))
  {
    var ts := Tokens(ai);
    NumberOfSigned(ai.seqNo, []);
    assert Signed(ai.seqNo) + [] == Signed(ai.seqNo);
    assert SameWord(ts[0], FILE) && SameWord(ts[2], SEQ) && SameWord(ts[4], TYPE);
    assert !SameWord(ts[2], FILE) && !SameWord(ts[4], FILE) by { assert Lower(ts[4][0]) != FILE[0]; }
    assert !SameWord(ts[4], SEQ);
    var p2 := Partial(Some(ai.name), ai.seqNo, 0);
    assert ts[2..][2..] == ts[4..] && ts[4..][2..] == [];
    assert ReadPairs(ts[4..], p2) == Ok(p2.(kind := ai.kind));
    assert ReadPairs(ts[2..], Partial(Some(ai.name), 0, 0)) == ReadPairs(ts[4..], p2);
  }

  lemma LineReads(ai: Info, rest: Bytes)
    requires Printable(ai)
    ensures 0 < |Line(ai)| && LineLength(Line(ai) + rest, MAX_LINE) == |Line(ai)|
    ensures Line(ai)[0] != HASH && Line(ai)[|Line(ai)| - 1] == LF
  {
    var body := JoinTokens(Tokens(ai));
    LineIsTokens(ai);
    BodyEnds(ai);
    BodyNoLf(ai);
    hide Line;
    assert Line(ai) + rest == body + [LF] + rest;
    LineLengthFull(body, rest, MAX_LINE);
  }

  lemma BodyNoLf(ai: Info)
    requires Printable(ai)
    ensures NoLf(JoinTokens(Tokens(ai)))
  {
    LineIsTokens(ai);
    DecimalDigits(ai.seqNo);
    var body :=
      FILE + [SPACE] + ai.name + [SPACE] + SEQ + [SPACE] + Signed(ai.seqNo) + [SPACE] + TYPE + [SPACE] + [ai.kind];
    var line := Line(ai);
    assert body == line[..|line| - 1];
    assert JoinTokens(Tokens(ai)) == line[..|line| - 1] by { hide Line, JoinTokens; }
  }

  // ---------- the whole file ----------

  // Placing entries one after the other.
  function PlaceAll(m: Manifest, infos: seq<Info>, maxSeq: int): Result<(Manifest, int)>
    decreases |infos|
  {
    if infos == [] then Ok((m, maxSeq))
    else
      match Place(m, infos[0], maxSeq)
      case Err(e) => Err(e)
      case Ok((m1, max1)) => PlaceAll(m1, infos[1..], max1)
  }

  // A printed line at the front of the text is read as its entry, and then the rest is loaded.
  lemma LoadStep(ai: Info, rest: Bytes, m: Manifest, maxSeq: int, first: bool)
    requires Printable(ai)
    ensures LoadLines(Line(ai) + rest, m, maxSeq, first) ==
            match Place(m, ai, maxSeq)
            case Err(e) => Err(e)
            case Ok((m1, max1)) => LoadLines(rest, m1, max1, false)
  {
    hide Line, Place, ReadLine, Printable;
    var line := Line(ai);
    var s := line + rest;
    LineReads(ai, rest);
    ReadLineExact(ai);
    assert s[..|line|] == line && s[|line|..] == rest;
    assert s[0] == line[0] && s[|line| - 1] == line[|line| - 1];
  }

  lemma {:induction false} LoadPrinted(infos: seq<Info>, m: Manifest, maxSeq: int, first: bool)
    requires forall i | 0 <= i < |infos| :: Printable(infos[i])
    requires infos != [] || !first
    ensures LoadLines(Lines(infos), m, maxSeq, first) ==
            match PlaceAll(m, infos, maxSeq)
            case Err(e) => Err(e)
            case Ok((m1, _)) => Ok(m1)
    decreases |infos|
  {
    hide Line, Place, ReadLine, Printable;
    if infos != [] {
      assert Printable(infos[0]);
      LoadStep(infos[0], Lines(infos[1..]), m, maxSeq, first);
      assert Lines(infos) == Line(infos[0]) + Lines(infos[1..]);
      match Place(m, infos[0], maxSeq)
      case Err(e) => assert PlaceAll(m, infos, maxSeq) == Err(e);
      case Ok((m1, max1)) =>
        LoadPrinted(infos[1..], m1, max1, false);
        assert PlaceAll(m, infos, maxSeq) == PlaceAll(m1, infos[1..], max1);
    }
  }

  lemma {:induction false} PlaceAllConcat(m: Manifest, a: seq<Info>, b: seq<Info>, maxSeq: int)
    ensures PlaceAll(m, a + b, maxSeq) ==
            match PlaceAll(m, a, maxSeq)
            case Err(e) => Err(e)
            case Ok((m1, max1)) => PlaceAll(m1, b, max1)
    decreases |a|
  {
    hide Place;
    if a == [] {
      assert a + b == b;
    } else {
      assert (a + b)[1..] == a[1..] + b;
      match Place(m, a[0], maxSeq)
      case Err(e) =>
      case Ok((m1, max1)) => PlaceAllConcat(m1, a[1..], b, max1);
    }
  }

  lemma {:induction false} PlaceHistory(m: Manifest, infos: seq<Info>, maxSeq: int)
    requires forall i | 0 <= i < |infos| :: infos[i].kind == HIST
    ensures PlaceAll(m, infos, maxSeq) == Ok((m.(history := m.history + infos), maxSeq))
    decreases |infos|
  {
    if infos == [] {
      assert m.history + infos == m.history;
    } else {
      PlaceHistory(m.(history := m.history + [infos[0]]), infos[1..], maxSeq);
      assert m.history + [infos[0]] + infos[1..] == m.history + infos;
    }
  }

  lemma {:induction false} PlaceIncr(m: Manifest, infos: seq<Info>, maxSeq: int)
    requires forall i | 0 <= i < |infos| :: infos[i].kind == INCR && infos[i].seqNo > maxSeq
    requires forall i, j | 0 <= i < j < |infos| :: infos[i].seqNo < infos[j].seqNo
    ensures PlaceAll(m, infos, maxSeq) ==
            if infos == [] then Ok((m, maxSeq))
            else Ok((m.(incr := m.incr + infos, currIncr := infos[|infos| - 1].seqNo), infos[|infos| - 1].seqNo))
    decreases |infos|
  {
    if infos != [] {
      var m1 := m.(incr := m.incr + [infos[0]], currIncr := infos[0].seqNo);
      PlaceIncr(m1, infos[1..], infos[0].seqNo);
      if |infos| == 1 {
        assert infos == [infos[0]];
      }
      assert m.incr + [infos[0]] + infos[1..] == m.incr + infos;
    }
  }

  function Print(m: Manifest): Bytes
    requires Valid(m)
  {
    Lines(Infos(m))
  }

  // What loading a printed manifest gives back: everything but the sequence numbers of lists that are empty.
  lemma RoundTrip(m: Manifest)
    requires Valid(m)
    ensures Load(Print(m)) ==
            if Infos(m) == [] then Err(EmptyManifest)
            else Ok(m.(currBase := if m.base.Some? then m.currBase else 0,
                       currIncr := if m.incr != [] then m.currIncr else 0,
                       dirty := false))
  {
    hide Valid, Printable, LoadLines, PlaceAll, Lines;
    if Infos(m) == [] {
      NothingLoads();
    } else {
      AllPrintable(m);
      LoadPrinted(Infos(m), EMPTY, 0, true);
      PlaceInfos(m);
    }
  }

  lemma NothingLoads()
    ensures Load(Lines([])) == Err(EmptyManifest)
  {}

  lemma AllPrintable(m: Manifest)
    requires Valid(m)
    ensures forall i | 0 <= i < |Infos(m)| :: Printable(Infos(m)[i])
  {}

  // Placing all entries of a manifest in their lists gives the manifest back.
  lemma PlaceInfos(m: Manifest)
    requires Valid(m)
    ensures PlaceAll(EMPTY, Infos(m), 0).Ok?
    ensures PlaceAll(EMPTY, Infos(m), 0).value.0 ==
            m.(currBase := if m.base.Some? then m.currBase else 0,
               currIncr := if m.incr != [] then m.currIncr else 0,
               dirty := false)
  {
    hide PlaceAll, Valid;
    var base := if m.base.Some? then [m.base.value] else [];
    var m1 := if m.base.Some? then EMPTY.(base := m.base, currBase := m.currBase) else EMPTY;
    var m2 := m1.(history := m.history);
    IncrPositive(m);
    PlaceAllConcat(EMPTY, base + m.history, m.incr, 0);
    PlaceAllConcat(EMPTY, base, m.history, 0);
    PlaceBase(m);
    PlaceHistory(m1, m.history, 0);
    assert [] + m.history == m.history && [] + m.incr == m.incr;
    PlaceIncr(m2, m.incr, 0);
  }

  lemma PlaceBase(m: Manifest)
    requires Valid(m)
    ensures PlaceAll(EMPTY, if m.base.Some? then [m.base.value] else [], 0) ==
            Ok((if m.base.Some? then EMPTY.(base := m.base, currBase := m.currBase) else EMPTY, 0))
  {}

  lemma IncrPositive(m: Manifest)
    requires Valid(m)
    ensures forall i | 0 <= i < |m.incr| :: m.incr[i].kind == INCR && m.incr[i].seqNo > 0
    ensures forall i | 0 <= i < |m.history| :: m.history[i].kind == HIST
    ensures forall i, j | 0 <= i < j < |m.incr| :: m.incr[i].seqNo < m.incr[j].seqNo
    ensures m.incr != [] ==> m.incr[|m.incr| - 1].seqNo == m.currIncr
  {
    var n := |Infos(m)| - |m.incr|;
    assert forall i | 0 <= i < |m.incr| :: Infos(m)[n + i] == m.incr[i];
  }

  // The loaded manifest continues the same numbering exactly when no list that was ever used is empty now.
  lemma RoundTripExact(m: Manifest)
    requires Valid(m) && Infos(m) != []
    ensures Load(Print(m)) == Ok(m.(dirty := false)) <==>
            (m.base.Some? || m.currBase == 0) && (m.incr != [] || m.currIncr == 0)
  {
    RoundTrip(m);
    hide Valid, Load, Print;
  }

  // ---------- the loops ----------

  lemma LinesConcat(a: seq<Info>, b: seq<Info>)
    ensures Lines(a + b) == Lines(a) + Lines(b)
  {
    hide Line;
    if a == [] {
      assert a + b == b;
    } else {
      assert (a + b)[1..] == a[1..] + b;
      LinesConcat(a[1..], b);
    }
  }

  lemma LinesSnoc(before: seq<Info>, infos: seq<Info>, k: nat)
    requires k < |infos|
    ensures Lines(before + infos[..k + 1]) == Lines(before + infos[..k]) + Line(infos[k])
  {
    hide Line;
    assert before + infos[..k + 1] == before + infos[..k] + [infos[k]];
    LinesConcat(before + infos[..k], [infos[k]]);
    assert Lines([infos[k]]) == Line(infos[k]) + Lines([]);
  }

  // getAofManifestAsString
  method GetAofManifestAsString(m: Manifest) returns (buf: Bytes)
    ensures buf == Lines(Infos(m))
  {
    hide Line;
    buf := [];
    ghost var before: seq<Info> := [];
    if m.base.Some? {
      buf := buf + Line(m.base.value);
      before := [m.base.value];
      assert Lines(before) == Line(m.base.value) + Lines([]);
    }
    assert before + m.history[..0] == before;
    for k := 0 to |m.history|
      invariant buf == Lines(before + m.history[..k])
    {
      LinesSnoc(before, m.history, k);
      buf := buf + Line(m.history[k]);
    }
    assert m.history[..|m.history|] == m.history;
    before := before + m.history;
    assert before + m.incr[..0] == before;
    for k := 0 to |m.incr|
      invariant buf == Lines(before + m.incr[..k])
    {
      LinesSnoc(before, m.incr, k);
      buf := buf + Line(m.incr[k]);
    }
    assert before + m.incr[..|m.incr|] == Infos(m);
  }

  // The loop of aofLoadManifestFromFile over the key-value pairs of one line.
  method FillInfo(argv: seq<Bytes>) returns (r: Result<Partial>)
    requires |argv| % 2 == 0
    ensures r == ReadPairs(argv, Partial(None, 0, 0))
  {
    var ai := Partial(None, 0, 0);
    var i := 0;
    assert argv[0..] == argv;
    while i < |argv|
      invariant 0 <= i <= |argv| && i % 2 == 0
      invariant ReadPairs(argv[i..], ai) == ReadPairs(argv, Partial(None, 0, 0))
    {
      assert argv[i..][2..] == argv[i + 2..];
      if SameWord(argv[i], FILE) {
        if !IsBaseName(argv[i + 1]) {
          return Err(NotABaseName);
        }
        ai := ai.(name := Some(argv[i + 1]));
      } else if SameWord(argv[i], SEQ) {
        ai := ai.(seqNo := Number(argv[i + 1]));
      } else if SameWord(argv[i], TYPE) {
        ai := ai.(kind := First(argv[i + 1]));
      }
      i := i + 2;
    }
    r := Ok(ai);
  }

  // aofLoadManifestFromFile
  method LoadManifestFromFile(file: Bytes) returns (r: Result<Manifest>)
    ensures r == Load(file)
  {
    hide ReadPairs, Split, TrimLeft, TrimRight, LineLength;
    var am := EMPTY;
    var maxSeq := 0;
    var lineNum := 0;
    var rest := file;
    while true
      invariant lineNum >= 0 && LoadLines(rest, am, maxSeq, lineNum == 0) == Load(file)
      decreases |rest|
    {
      if rest == [] {
        if lineNum == 0 {
          return Err(EmptyManifest);
        }
        return Ok(am);
      }
      var buf := rest[..LineLength(rest, MAX_LINE)];
      ghost var was := rest;
      rest := rest[|buf|..];
      assert |rest| < |was|;
      lineNum := lineNum + 1;
      if buf[0] == HASH {
        continue;
      }
      if buf[|buf| - 1] != LF {
        return Err(TooLongLine);
      }
      var line := TrimRight(TrimLeft(buf));
      if line == [] {
        return Err(InvalidFormat);
      }
      var argv := Split(line);
      if |argv| < 6 || |argv| % 2 != 0 {
        return Err(InvalidFormat);
      }
      var filled := FillInfo(argv);
      if filled.Err? {
        return Err(filled.error);
      }
      var p := filled.value;
      if p.name.None? || p.seqNo == 0 || p.kind == 0 {
        return Err(InvalidFormat);
      }
      var ai := Info(p.name.value, p.seqNo, p.kind);
      assert ReadLine(buf) == Ok(ai);
      if ai.kind == BASE {
        if am.base.Some? {
          return Err(DuplicateBase);
        }
        am := am.(base := Some(ai), currBase := ai.seqNo);
      } else if ai.kind == HIST {
        am := am.(history := am.history + [ai]);
      } else if ai.kind == INCR {
        if ai.seqNo <= maxSeq {
          return Err(NonMonotonic);
        }
        am := am.(incr := am.incr + [ai], currIncr := ai.seqNo);
        maxSeq := ai.seqNo;
      } else {
        return Err(UnknownType);
      }
    }
  }
}
