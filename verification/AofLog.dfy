// The append-only log of aof.c: the encoder, the loader and what a cut log loads to.
module AofLog {
  newtype byte = x: int | 0 <= x < 256

  type Bytes = seq<byte>
  type Command = seq<Bytes>

  const LF: byte := 10
  const CR: byte := 13
  const HASH: byte := 35
  const DOLLAR: byte := 36
  const STAR: byte := 42
  const ZERO: byte := 48
  const CRLF: Bytes := [CR, LF]

  // AOF_ANNOTATION_LINE_MAX_LEN, less the terminating zero that fgets adds
  const LINE_MAX: nat := 1023

  // ---------- encoding ----------

  const SELECT: Bytes := [83, 69, 76, 69, 67, 84]

  // ll2string on a non-negative number.
  function Decimal(n: nat): Bytes
  {
    if n < 10 then [n as byte + ZERO] else Decimal(n / 10) + [(n % 10) as byte + ZERO]
  }

  // ll2string on any number.
  function Signed(n: int): Bytes { if n < 0 then [45] + Decimal(-n) else Decimal(n) }

  function Header(mark: byte, n: nat): Bytes { [mark] + Decimal(n) + CRLF }

  function Bulk(arg: Bytes): Bytes { Header(DOLLAR, |arg|) + arg + CRLF }

  function Bulks(argv: Command): Bytes
  {
    if argv == [] then [] else Bulk(argv[0]) + Bulks(argv[1..])
  }

  function EncodeCommand(argv: Command): Bytes { Header(STAR, |argv|) + Bulks(argv) }

  function Encode(cmds: seq<Command>): Bytes
  {
    if cmds == [] then [] else EncodeCommand(cmds[0]) + Encode(cmds[1..])
  }

  // What the server can log: at least the command name, and sizes within its integer types.
  predicate Loggable(argv: Command)
  {
    1 <= |argv| <= 0x7fffffff && forall a <- argv :: |a| <= 0x7fffffffffffffff
  }

  lemma BulksConcat(a: Command, b: Command)
    ensures Bulks(a + b) == Bulks(a) + Bulks(b)
  {
    if a == [] {
      assert a + b == b;
    } else {
      assert (a + b)[1..] == a[1..] + b;
      BulksConcat(a[1..], b);
    }
  }

  lemma EncodeConcat(a: seq<Command>, b: seq<Command>)
    ensures Encode(a + b) == Encode(a) + Encode(b)
  {
    if a == [] {
      assert a + b == b;
    } else {
      assert (a + b)[1..] == a[1..] + b;
      EncodeConcat(a[1..], b);
    }
  }

  lemma EncodeOne(cmd: Command)
    ensures Encode([cmd]) == EncodeCommand(cmd)
  {
    assert [cmd][1..] == [];
  }

  // catAppendOnlyGenericCommand
  method CatCommand(dst0: Bytes, argv: Command) returns (dst: Bytes)
    ensures dst == dst0 + EncodeCommand(argv)
  {
    hide Header, Bulks;
    NoBulks();
    dst := dst0 + Header(STAR, |argv|);
    ghost var start := dst;
    for j := 0 to |argv|
      invariant dst == start + Bulks(argv[..j])
    {
      var arg := argv[j];
      ghost var before := dst;
      dst := dst + Header(DOLLAR, |arg|);
      dst := dst + arg;
      dst := dst + CRLF;
      assert dst == before + Bulk(arg);
      BulksSnoc(argv, j);
      assert dst == start + (Bulks(argv[..j]) + Bulk(arg));
    }
    assert argv[..|argv|] == argv;
  }

  lemma NoBulks()
    ensures Bulks([]) == []
  {}

  lemma BulksSnoc(argv: Command, j: nat)
    requires j < |argv|
    ensures Bulks(argv[..j + 1]) == Bulks(argv[..j]) + Bulk(argv[j])
  {
    assert argv[..j + 1] == argv[..j] + [argv[j]];
    BulksConcat(argv[..j], [argv[j]]);
    assert Bulks([argv[j]]) == Bulk(argv[j]);
  }

  // ---------- reading ----------

  // How many bytes fgets takes from `s` when it may take at most `limit`.
  function LineLength(s: Bytes, limit: nat): (n: nat)
    ensures n <= |s| && n <= limit
    ensures s != [] && limit > 0 ==> n > 0
  {
    if s == [] || limit == 0 then 0
    else if s[0] == LF then 1
    else 1 + LineLength(s[1..], limit - 1)
  }

  predicate IsSpace(c: byte) { c == 32 || 9 <= c <= 13 }

  predicate IsDigit(c: byte) { ZERO <= c <= 57 }

  // The value of the digits at the start of `s`, after `acc`.
  function Digits(s: Bytes, acc: nat): (v: nat)
    ensures v >= acc
  {
    if s == [] || !IsDigit(s[0]) then acc else Digits(s[1..], 10 * acc + (s[0] - ZERO) as nat)
  }

  // atoi and strtol: optional blanks, optional sign, digits.
  function Number(s: Bytes): int
  {
    if s == [] then 0
    else if IsSpace(s[0]) then Number(s[1..])
    else if s[0] == 45 then -(Digits(s[1..], 0) as int)
    else if s[0] == 43 then Digits(s[1..], 0)
    else Digits(s, 0)
  }

  datatype Args = Args(argv: Command, used: nat) | ArgsShort | ArgsBad

  // Read `n` arguments from `s`. The two bytes after each argument are discarded unseen.
  function ReadArgs(s: Bytes, n: nat): (r: Args)
    ensures r.Args? ==> r.used <= |s| && |r.argv| == n
    decreases n
  {
    if n == 0 then Args([], 0)
    else if s == [] then ArgsShort
    else
      var l := LineLength(s, LINE_MAX);
      if s[0] != DOLLAR then ArgsBad
      else
        var len := Number(s[1..l]);
        if len < 0 || l + len + 2 > |s| then ArgsShort
        else
          match ReadArgs(s[l + len + 2..], n - 1)
          case Args(rest, used) => Args([s[l..l + len]] + rest, l + len + 2 + used)
          case other => other
  }

  datatype Read =
    | End                                 // end of file between commands
    | Annotation(used: nat)               // a line starting with '#'
    | Cmd(argv: Command, used: nat)
    | Short                               // end of file inside a command
    | Hard                                // a read error that is not an end of file
    | Bad                                 // not the format of the log

  function ReadCommand(s: Bytes): (r: Read)
    ensures r.Annotation? || r.Cmd? ==> 0 < r.used <= |s|
    ensures r.Cmd? ==> r.argv != []
  {
    if s == [] then End
    else
      var l := LineLength(s, LINE_MAX);
      if s[0] == HASH then Annotation(l)
      else if s[0] != STAR then Bad
      else if l == 1 || s[1] == 0 then
        if l == |s| && l < LINE_MAX && s[l - 1] != LF then Short else Hard
      else
        var argc := Number(s[1..l]);
        if argc < 1 then Bad
        else
          match ReadArgs(s[l..], argc)
          case Args(argv, used) => Cmd(argv, l + used)
          case ArgsShort => Short
          case ArgsBad => Bad
  }

  // ---------- reading back what was written ----------

  predicate NoLf(s: Bytes) { forall i | 0 <= i < |s| :: s[i] != LF }

  predicate AllDigits(s: Bytes) { forall i | 0 <= i < |s| :: IsDigit(s[i]) }

  lemma LineLengthFull(line: Bytes, rest: Bytes, limit: nat)
    requires NoLf(line) && |line| < limit
    ensures LineLength(line + [LF] + rest, limit) == |line| + 1
  {
    var s := line + [LF] + rest;
    if line != [] {
      assert s[1..] == line[1..] + [LF] + rest;
      LineLengthFull(line[1..], rest, limit - 1);
    }
  }

  lemma LineLengthCut(line: Bytes, limit: nat)
    requires NoLf(line) && |line| <= limit
    ensures LineLength(line, limit) == |line|
  {
    if line != [] {
      LineLengthCut(line[1..], limit - 1);
    }
  }

  function Pow10(k: nat): nat { if k == 0 then 1 else 10 * Pow10(k - 1) }

  lemma DecimalLength(n: nat, k: nat)
    requires k > 0 && n < Pow10(k)
    ensures 1 <= |Decimal(n)| <= k
  {
    if n >= 10 {
      DecimalLength(n / 10, k - 1);
    }
  }

  lemma DecimalSmall(n: nat)
    requires n <= 0x7fffffffffffffff
    ensures 1 <= |Decimal(n)| <= 19
  {
    assert Pow10(5) == 100000;
    assert Pow10(10) == 10000000000 by { assert Pow10(8) == 100000000; }
    assert Pow10(19) == 10000000000000000000 by {
      assert Pow10(13) == 10000000000000;
      assert Pow10(16) == 10000000000000000;
    }
    DecimalLength(n, 19);
  }

  lemma DecimalDigits(n: nat)
    ensures AllDigits(Decimal(n))
    ensures n > 0 ==> Decimal(n)[0] != ZERO
  {}

  // Digits reads a prefix of a number and stops at the first other byte.
  lemma {:induction false} DigitsConcat(a: Bytes, b: Bytes, acc: nat)
    requires AllDigits(a)
    ensures Digits(a + b, acc) == Digits(b, Digits(a, acc))
  {
    if a == [] {
      assert a + b == b;
    } else {
      assert (a + b)[1..] == a[1..] + b;
      DigitsConcat(a[1..], b, 10 * acc + (a[0] - ZERO) as nat);
    }
  }

  lemma DigitsOfDecimal(n: nat)
    ensures Digits(Decimal(n), 0) == n
  {
    DecimalDigits(n);
    if n >= 10 {
      DecimalDigits(n / 10);
      DigitsOfDecimal(n / 10);
      var d := (n % 10) as byte + ZERO;
      DigitsConcat(Decimal(n / 10), [d], 0);
      assert Digits([d], n / 10) == 10 * (n / 10) + n % 10;
    }
  }

  // A number followed by anything that is not a digit reads back.
  lemma NumberOfDecimal(n: nat, rest: Bytes)
    requires rest == [] || !IsDigit(rest[0])
    ensures Number(Decimal(n) + rest) == n
  {
    DecimalDigits(n);
    DigitsOfDecimal(n);
    DigitsConcat(Decimal(n), rest, 0);
  }

  lemma NumberOfSigned(n: int, rest: Bytes)
    requires rest == [] || !IsDigit(rest[0])
    ensures Number(Signed(n) + rest) == n
  {
    if n < 0 {
      DigitsOfDecimal(-n);
      DecimalDigits(-n);
      DigitsConcat(Decimal(-n), rest, 0);
      assert ([45] + Decimal(-n) + rest)[1..] == Decimal(-n) + rest;
    } else {
      NumberOfDecimal(n, rest);
    }
  }

  // A cut number still reads as a positive one, if it was positive and a digit is left.
  lemma NumberOfCut(n: nat, cut: Bytes)
    requires n > 0 && 0 < |cut| && cut <= Decimal(n) + [CR]
    ensures Number(cut) >= 1
  {
    DecimalDigits(n);
    assert cut[0] == Decimal(n)[0];
    assert Digits(cut, 0) == Digits(cut[1..], (cut[0] - ZERO) as nat);
  }

  lemma HeaderRead(mark: byte, n: nat, rest: Bytes)
    requires n <= 0x7fffffffffffffff && mark != LF
    ensures var s := Header(mark, n) + rest;
            var l := |Header(mark, n)|;
            && 3 < l < LINE_MAX && LineLength(s, LINE_MAX) == l && s[0] == mark && IsDigit(s[1])
            && Number(s[1..l]) == n && s[l..] == rest
  {
    DecimalSmall(n);
    DecimalDigits(n);
    var line := [mark] + Decimal(n) + [CR];
    var s := Header(mark, n) + rest;
    assert s == line + [LF] + rest;
    LineLengthFull(line, rest, LINE_MAX);
    assert s[1..|line| + 1] == Decimal(n) + CRLF;
    NumberOfDecimal(n, CRLF);
  }

  lemma ReadOne(s: Bytes, n: nat, l: nat, len: nat)
    requires n > 0 && 1 <= l && l + len + 2 <= |s|
    requires LineLength(s, LINE_MAX) == l && s[0] == DOLLAR && Number(s[1..l]) == len
    ensures ReadArgs(s, n) == match ReadArgs(s[l + len + 2..], n - 1)
                              case Args(argv, used) => Args([s[l..l + len]] + argv, l + len + 2 + used)
                              case other => other
  {
    hide LineLength, Number;
  }

  lemma ReadArgsStep(arg: Bytes, rest: Bytes, n: nat)
    requires n > 0 && |arg| <= 0x7fffffffffffffff
    ensures ReadArgs(Bulk(arg) + rest, n) ==
            match ReadArgs(rest, n - 1)
            case Args(argv, used) => Args([arg] + argv, |Bulk(arg)| + used)
            case other => other
  {
    hide Header, LineLength, Number, ReadArgs;
    var h := Header(DOLLAR, |arg|);
    var s := Bulk(arg) + rest;
    assert s == h + (arg + CRLF + rest);
    HeaderRead(DOLLAR, |arg|, arg + CRLF + rest);
    assert s[|h|..|h| + |arg|] == arg;
    assert s[|h| + |arg| + 2..] == rest;
    ReadOne(s, n, |h|, |arg|);
  }

  lemma {:induction false} ReadArgsExact(argv: Command, rest: Bytes)
    requires forall a <- argv :: |a| <= 0x7fffffffffffffff
    ensures ReadArgs(Bulks(argv) + rest, |argv|) == Args(argv, |Bulks(argv)|)
  {
    hide ReadArgs, Bulk;
    if argv == [] {
      NoArgs(rest);
      assert Bulks(argv) + rest == rest;
    } else {
      assert Bulks(argv) + rest == Bulk(argv[0]) + (Bulks(argv[1..]) + rest);
      ReadArgsStep(argv[0], Bulks(argv[1..]) + rest, |argv|);
      ReadArgsExact(argv[1..], rest);
    }
  }

  lemma NoArgs(s: Bytes)
    ensures ReadArgs(s, 0) == Args([], 0)
  {}

  // An encoded command reads back, whatever follows it.
  lemma ReadCommandExact(argv: Command, rest: Bytes)
    requires Loggable(argv)
    ensures ReadCommand(EncodeCommand(argv) + rest) == Cmd(argv, |EncodeCommand(argv)|)
  {
    hide Header, LineLength, Number, Bulks, ReadArgs;
    assert EncodeCommand(argv) + rest == Header(STAR, |argv|) + (Bulks(argv) + rest);
    HeaderRead(STAR, |argv|, Bulks(argv) + rest);
    ReadArgsExact(argv, rest);
  }

  // A header cut before its line feed.
  lemma HeaderCut(mark: byte, n: nat, cut: Bytes)
    requires n <= 0x7fffffffffffffff && mark != LF
    requires cut != [] && cut <= Header(mark, n) && |cut| < |Header(mark, n)|
    ensures LineLength(cut, LINE_MAX) == |cut| < LINE_MAX && cut[0] == mark && cut[|cut| - 1] != LF
    ensures |cut| > 1 ==> IsDigit(cut[1])
    ensures |cut| > 1 && n > 0 ==> Number(cut[1..]) >= 1
  {
    DecimalSmall(n);
    DecimalDigits(n);
    var line := [mark] + Decimal(n) + [CR];
    assert Header(mark, n) == line + [LF];
    assert cut <= line;
    assert NoLf(line);
    assert NoLf(cut);
    LineLengthCut(cut, LINE_MAX);
    if |cut| > 1 {
      assert cut[1] == Decimal(n)[0];
      if n > 0 {
        assert cut[1..] <= Decimal(n) + [CR] by { assert line[1..] == Decimal(n) + [CR]; }
        NumberOfCut(n, cut[1..]);
      }
    }
  }

  lemma NumberNonNegative(s: Bytes)
    requires s == [] || IsDigit(s[0])
    ensures Number(s) >= 0
  {}

  lemma BulkCut(arg: Bytes, cut: Bytes, n: nat)
    requires n > 0 && |arg| <= 0x7fffffffffffffff
    requires cut <= Bulk(arg) && |cut| < |Bulk(arg)|
    ensures ReadArgs(cut, n) == ArgsShort
  {
    var h := Header(DOLLAR, |arg|);
    if cut == [] {
    } else if |cut| < |h| {
      assert cut <= h by { assert Bulk(arg) == h + (arg + CRLF); }
      HeaderCut(DOLLAR, |arg|, cut);
      NumberNonNegative(cut[1..]);
    } else {
      assert cut == h + cut[|h|..] by { assert Bulk(arg) == h + (arg + CRLF); }
      HeaderRead(DOLLAR, |arg|, cut[|h|..]);
    }
  }

  lemma {:induction false} ReadArgsCut(argv: Command, cut: Bytes)
    requires forall a <- argv :: |a| <= 0x7fffffffffffffff
    requires cut <= Bulks(argv) && |cut| < |Bulks(argv)|
    ensures ReadArgs(cut, |argv|) == ArgsShort
  {
    var b := Bulk(argv[0]);
    if |cut| < |b| {
      BulkCut(argv[0], cut, |argv|);
    } else {
      assert cut == b + cut[|b|..];
      assert cut[|b|..] <= Bulks(argv[1..]);
      ReadArgsStep(argv[0], cut[|b|..], |argv|);
      ReadArgsCut(argv[1..], cut[|b|..]);
    }
  }

  // A command cut anywhere inside reads as an unexpected end of file, never as another command.
  lemma ReadCommandCut(argv: Command, cut: Bytes)
    requires Loggable(argv)
    requires cut != [] && cut <= EncodeCommand(argv) && |cut| < |EncodeCommand(argv)|
    ensures ReadCommand(cut) == Short
  {
    var h := Header(STAR, |argv|);
    if |cut| < |h| {
      HeaderCut(STAR, |argv|, cut);
      assert cut[1..|cut|] == cut[1..];
    } else {
      assert cut == h + cut[|h|..];
      assert cut[|h|..] <= Bulks(argv);
      HeaderRead(STAR, |argv|, cut[|h|..]);
      ReadArgsCut(argv, cut[|h|..]);
    }
  }

  // ---------- as text ----------

  // The bytes of a text.
  function Ascii(s: string): Bytes
    requires forall i | 0 <= i < |s| :: s[i] < 128 as char
  {
    seq(|s|, i requires 0 <= i < |s| => s[i] as int as byte)
  }

  lemma AsciiConcat(a: string, b: string)
    requires (forall i | 0 <= i < |a| :: a[i] < 128 as char) && forall i | 0 <= i < |b| :: b[i] < 128 as char
    ensures Ascii(a + b) == Ascii(a) + Ascii(b)
  {}

  // A count, and a length, as they are spelled out.
  lemma HeaderText(n: nat)
    ensures Header(STAR, n) == Ascii("*") + Decimal(n) + Ascii("\r\n")
    ensures Header(DOLLAR, n) == Ascii("$") + Decimal(n) + Ascii("\r\n")
  {
    assert Ascii("\r\n") == CRLF && Ascii("*") == [STAR] && Ascii("$") == [DOLLAR];
  }

  // A negative number has a minus sign, and no other has.
  lemma SignedText(n: int)
    ensures Signed(n) == if n < 0 then Ascii("-") + Decimal(-n) else Decimal(n)
  {
    assert Ascii("-") == [45];
  }

  // The bytes that the C library takes for blanks and for digits.
  lemma BlanksAndDigits(b: byte)
    ensures IsSpace(b) <==> b in [9, 10, 11, 12, 13, 32]
    ensures IsDigit(b) <==> b in Ascii("0123456789")
  {
    assert Ascii("0123456789") == [48, 49, 50, 51, 52, 53, 54, 55, 56, 57];
  }

  lemma DecimalText()
    ensures Decimal(1) == Ascii("1") && Decimal(3) == Ascii("3") && Decimal(12) == Ascii("12")
  {
    assert Decimal(1) == [49] && Decimal(3) == [51] && Decimal(12) == Decimal(1) + [50];
  }

  // For example, what SET with a value of twelve bytes looks like in the file.
  lemma EncodeExample()
    ensures EncodeCommand([Ascii("SET"), Ascii("k"), Ascii("twelve bytes")]) ==
            Ascii("*3\r\n" + "$3\r\nSET\r\n" + "$1\r\nk\r\n" + "$12\r\ntwelve bytes\r\n")
  {
    hide Ascii, Header, Decimal, Bulk, EncodeCommand;
    ThreeArguments(Ascii("SET"), Ascii("k"), Ascii("twelve bytes"));
    CountExample();
    NameExample();
    KeyExample();
    ValueExample();
    AsciiConcat("*3\r\n", "$3\r\nSET\r\n");
    AsciiConcat("*3\r\n" + "$3\r\nSET\r\n", "$1\r\nk\r\n");
    AsciiConcat("*3\r\n" + "$3\r\nSET\r\n" + "$1\r\nk\r\n", "$12\r\ntwelve bytes\r\n");
  }

  lemma CountExample()
    ensures Header(STAR, 3) == Ascii("*3\r\n")
  {
    hide Ascii, Header, Decimal;
    HeaderText(3);
    DecimalText();
    AsciiConcat("*", "3");
    AsciiConcat("*" + "3", "\r\n");
    assert "*" + "3" + "\r\n" == "*3\r\n";
  }

  lemma NameExample()
    ensures Bulk(Ascii("SET")) == Ascii("$3\r\nSET\r\n")
  {
    hide Ascii, Decimal, Bulk;
    DecimalText();
    SpellBulk("3", "SET");
    assert "$" + "3" + "\r\n" + "SET" + "\r\n" == "$3\r\nSET\r\n";
  }

  lemma KeyExample()
    ensures Bulk(Ascii("k")) == Ascii("$1\r\nk\r\n")
  {
    hide Ascii, Decimal, Bulk;
    DecimalText();
    SpellBulk("1", "k");
    assert "$" + "1" + "\r\n" + "k" + "\r\n" == "$1\r\nk\r\n";
  }

  lemma ValueExample()
    ensures Bulk(Ascii("twelve bytes")) == Ascii("$12\r\ntwelve bytes\r\n")
  {
    hide Ascii, Decimal, Bulk;
    DecimalText();
    SpellBulk("12", "twelve bytes");
    assert "$" + "12" + "\r\n" + "twelve bytes" + "\r\n" == "$12\r\ntwelve bytes\r\n";
  }

  lemma ThreeArguments(a: Bytes, b: Bytes, c: Bytes)
    ensures EncodeCommand([a, b, c]) == Header(STAR, 3) + Bulk(a) + Bulk(b) + Bulk(c)
  {
    hide Bulk, Header;
    NoBulks();
    assert [a, b, c][1..] == [b, c] && [b, c][1..] == [c] && [c][1..] == [];
    assert Bulks([c]) == Bulk(c) + [];
    assert Bulks([b, c]) == Bulk(b) + Bulks([c]);
    assert Bulks([a, b, c]) == Bulk(a) + Bulks([b, c]);
  }

  // One argument, its length being spelled `count`.
  lemma SpellBulk(count: string, text: string)
    requires (forall i | 0 <= i < |count| :: count[i] < 128 as char)
    requires (forall i | 0 <= i < |text| :: text[i] < 128 as char)
    requires Decimal(|text|) == Ascii(count)
    ensures |Ascii(text)| == |text|
    ensures Bulk(Ascii(text)) == Ascii("$" + count + "\r\n" + text + "\r\n")
  {
    HeaderText(|text|);
    assert CRLF == Ascii("\r\n");
    AsciiConcat("$", count);
    AsciiConcat("$" + count, "\r\n");
    AsciiConcat("$" + count + "\r\n", text);
    AsciiConcat("$" + count + "\r\n" + text, "\r\n");
    hide Decimal, Header;
  }
}
