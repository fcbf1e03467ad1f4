// The CRC-64 engines of crc64.c and crcspeed.c.
//
// Three engines compute the same checksum: the bit-by-bit division `_crc64`, the byte-at-a-time table walk,
// and the slice-by-8 walk, which exists in a little-endian and a big-endian form. The specification is the
// reflected shift register `Steps`, whose linearity over exclusive or is what makes the tables work.
module Crc64 {
  import opened Repeats

  const POLY: bv64 := 0xad93d23594c935a9
  // POLY with its bits in reverse order
  const REFLECTED_POLY: bv64 := 0x95ac9329ac4bc9b5

  type Bytes = seq<bv8>

  // ---------- words: the operations are named so that proofs can work with their laws alone ----------

  function Xor(a: bv64, b: bv64): bv64 { a ^ b }

  function Half(q: bv64): bv64 { q >> 1 }

  function Low(q: bv64): bv64 { q & 1 }

  function Byte(b: bv8): bv64 { b as bv64 }

  function LowByte(q: bv64): bv64 { q & 0xff }

  function DropByte(q: bv64): bv64 { q >> 8 }

  // Byte `i` of a word, counted from the least significant one.
  function ByteOf(q: bv64, i: nat): bv8
  {
    if i == 0 then (q & 0xff) as bv8 else ByteOf(DropByte(q), i - 1)
  }

  lemma XorAssoc(a: bv64, b: bv64, c: bv64)
    ensures Xor(Xor(a, b), c) == Xor(a, Xor(b, c))
  {
    calc {
      Xor(Xor(a, b), c);
      Xor(a ^ b, c);
      (a ^ b) ^ c;
      a ^ (b ^ c);
      Xor(a, b ^ c);
      Xor(a, Xor(b, c));
    }
  }

  lemma XorComm(a: bv64, b: bv64)
    ensures Xor(a, b) == Xor(b, a)
  {}

  lemma XorZero(a: bv64)
    ensures Xor(a, 0) == a && Xor(0, a) == a
  {}

  lemma XorSwap(a: bv64, b: bv64, c: bv64, d: bv64)
    ensures Xor(Xor(a, b), Xor(c, d)) == Xor(Xor(a, c), Xor(b, d))
  {
    hide *;
    XorAssoc(a, b, Xor(c, d));
    XorAssoc(b, c, d);
    XorComm(b, c);
    XorAssoc(c, b, d);
    XorAssoc(a, c, Xor(b, d));
  }

  // ---------- the reflected register ----------

  function Feedback(low: bv64): bv64 { if low == 1 then REFLECTED_POLY else 0 }

  // One division step on the reflected register.
  function BitStep(q: bv64): bv64 { Xor(Half(q), Feedback(Low(q))) }

  function Steps(q: bv64, n: nat): bv64
    decreases n
  {
    if n == 0 then q else Steps(BitStep(q), n - 1)
  }

  // The checksum of `data`, one byte at a time, started from register `crc`.
  function Fold(crc: bv64, data: Bytes): bv64
    decreases |data|
  {
    if data == [] then crc else Fold(Steps(Xor(crc, Byte(data[0])), 8), data[1..])
  }

  lemma BitStepLinear(a: bv64, b: bv64)
    ensures BitStep(Xor(a, b)) == Xor(BitStep(a), BitStep(b))
  {
    hide Xor, Half, Feedback, Low;
    FeedbackLinear(a, b);
    HalfLinear(a, b);
    XorSwap(Half(a), Half(b), Feedback(Low(a)), Feedback(Low(b)));
  }

  lemma HalfLinear(a: bv64, b: bv64)
    ensures Half(Xor(a, b)) == Xor(Half(a), Half(b))
  {
    assert (a ^ b) >> 1 == (a >> 1) ^ (b >> 1);
  }

  lemma FeedbackLinear(a: bv64, b: bv64)
    ensures Feedback(Low(Xor(a, b))) == Xor(Feedback(Low(a)), Feedback(Low(b)))
  {
    assert a & 1 == 0 || a & 1 == 1;
    assert b & 1 == 0 || b & 1 == 1;
    assert (a ^ b) & 1 == (a & 1) ^ (b & 1);
  }

  // The register is linear: this is why a table of single bytes is enough.
  lemma {:induction false} StepsLinear(a: bv64, b: bv64, n: nat)
    ensures Steps(Xor(a, b), n) == Xor(Steps(a, n), Steps(b, n))
    decreases n
  {
    hide Xor, BitStep;
    if n > 0 {
      BitStepLinear(a, b);
      StepsLinear(BitStep(a), BitStep(b), n - 1);
    }
  }

  lemma {:induction false} StepsAdd(q: bv64, m: nat, n: nat)
    ensures Steps(q, m + n) == Steps(Steps(q, m), n)
    decreases m
  {
    hide BitStep;
    if m > 0 {
      StepsAdd(BitStep(q), m - 1, n);
    }
  }

  lemma EvenStep(q: bv64)
    requires q & 1 == 0
    ensures BitStep(q) == q >> 1
  {}

  lemma EvenSteps2(q: bv64)
    requires q & 3 == 0
    ensures Steps(q, 2) == q >> 2
  {
    EvenStep(q);
    EvenStep(q >> 1);
    hide BitStep;
    assert Steps(q, 2) == Steps(q >> 1, 1) == Steps(q >> 2, 0);
  }

  lemma EvenSteps4(q: bv64)
    requires q & 0xf == 0
    ensures Steps(q, 4) == q >> 4
  {
    hide *;
    EvenSteps2(q);
    EvenSteps2(q >> 2);
    StepsAdd(q, 2, 2);
  }

  // A register whose low byte is clear is only shifted by eight steps.
  lemma ClearByteSteps(q: bv64)
    requires q & 0xff == 0
    ensures Steps(q, 8) == q >> 8
  {
    hide *;
    EvenSteps4(q);
    EvenSteps4(q >> 4);
    StepsAdd(q, 4, 4);
  }

  function HighBytes(q: bv64): bv64 { q & 0xffffffffffffff00 }

  lemma SplitLowByte(q: bv64)
    ensures q == Xor(LowByte(q), HighBytes(q))
    ensures Steps(HighBytes(q), 8) == DropByte(q)
  {
    HighBytesShift(q);
    XorParts(q);
    hide *;
    ClearByteSteps(HighBytes(q));
  }

  lemma HighBytesShift(q: bv64)
    ensures HighBytes(q) & 0xff == 0 && HighBytes(q) >> 8 == DropByte(q)
  {}

  lemma XorParts(q: bv64)
    ensures q == Xor(LowByte(q), HighBytes(q))
  {}

  // Eight or more steps split into a table entry for the low byte and the steps of the rest.
  lemma PeelByte(q: bv64, n: nat)
    requires n >= 8
    ensures Steps(q, n) == Xor(Steps(LowByte(q), n), Steps(DropByte(q), n - 8))
  {
    hide Xor, LowByte, HighBytes, DropByte, BitStep;
    SplitLowByte(q);
    StepsLinear(LowByte(q), HighBytes(q), n);
    StepsAdd(HighBytes(q), 8, n - 8);
  }

  // ---------- tables ----------

  // Row `k` of the table holds the register after `k` further zero bytes.
  function Entry(k: nat, b: bv8): bv64 { Steps(Byte(b), 8 * (k + 1)) }

  function ToByte(n: nat): bv8
    requires n < 256
  {
    n as bv8
  }

  function Index(b: bv8): (n: nat)
    ensures n < 256
  {
    b as int
  }

  lemma IndexRoundTrip(b: bv8)
    ensures ToByte(Index(b)) == b
  {}

  ghost predicate LittleTable(t: array2<bv64>)
    reads t
  {
    t.Length0 == 8 && t.Length1 == 256 && forall k, n | 0 <= k < 8 && 0 <= n < 256 :: t[k, n] == Entry(k, ToByte(n))
  }

  // What a big-endian machine keeps instead: the same entries with their bytes reversed.
  ghost predicate BigTable(t: array2<bv64>)
    reads t
  {
    t.Length0 == 8 && t.Length1 == 256 &&
    forall k, n | 0 <= k < 8 && 0 <= n < 256 :: t[k, n] == Rev8(Entry(k, ToByte(n)))
  }

  // The byte-at-a-time table update.
  lemma TableStep(crc: bv64, b: bv8)
    ensures Steps(Xor(crc, Byte(b)), 8) == Xor(Entry(0, ByteOf(Xor(crc, Byte(b)), 0)), DropByte(crc))
  {
    hide Xor, LowByte, DropByte, Byte, ByteOf, BitStep;
    var q := Xor(crc, Byte(b));
    LowByteOf(q);
    DropByteXor(crc, b);
    PeelByte(q, 8);
  }

  lemma DropByteXor(crc: bv64, b: bv8)
    ensures DropByte(Xor(crc, Byte(b))) == DropByte(crc)
  {
    assert (crc ^ (b as bv64)) >> 8 == crc >> 8;
  }

  lemma LowByteOf(q: bv64)
    ensures LowByte(q) == Byte(ByteOf(q, 0))
  {}

  // The word `q` with its low `n` bytes shifted out.
  function Drops(q: bv64, n: nat): bv64
  {
    if n == 0 then q else DropByte(Drops(q, n - 1))
  }

  lemma {:induction false} ByteOfDrops(q: bv64, n: nat)
    ensures ByteOf(q, n) == ByteOf(Drops(q, n), 0)
    ensures n > 0 ==> Drops(q, n) == Drops(DropByte(q), n - 1)
    decreases n
  {
    hide DropByte;
    if n > 0 {
      ByteOfDrops(DropByte(q), n - 1);
      ByteOfDrops(q, n - 1);
    }
  }

  lemma DropAll(q: bv64)
    ensures Drops(q, 8) == 0
  {
    hide DropByte;
    assert Drops(q, 1) == DropByte(q);
    assert Drops(q, 3) == DropByte(DropByte(Drops(q, 1)));
    assert Drops(q, 5) == DropByte(DropByte(Drops(q, 3)));
    assert Drops(q, 7) == DropByte(DropByte(Drops(q, 5)));
    DropEight(q);
  }

  lemma DropEight(q: bv64)
    ensures DropByte(DropByte(DropByte(DropByte(DropByte(DropByte(DropByte(DropByte(q)))))))) == 0
  {}

  // The lookups for bytes `i` to 7 of `q`.
  function Slices(q: bv64, i: nat): bv64
    requires i <= 8
    decreases 8 - i
  {
    if i == 8 then 0 else Xor(Entry(7 - i, ByteOf(q, i)), Slices(q, i + 1))
  }

  lemma {:induction false} StepsAreSlices(q: bv64, i: nat)
    requires i <= 8
    ensures Steps(Drops(q, i), 8 * (8 - i)) == Slices(q, i)
    decreases 8 - i
  {
    hide Xor, LowByte, DropByte, Byte, ByteOf, BitStep;
    if i == 8 {
      DropAll(q);
    } else {
      var x := Drops(q, i);
      ByteOfDrops(q, i);
      LowByteOf(x);
      StepsAreSlices(q, i + 1);
      PeelByte(x, 8 * (8 - i));
    }
  }

  // ---------- words in memory ----------

  // The word with byte `b` below the bytes of `w`.
  function Join(b: bv8, w: bv64): bv64 { (w << 8) | Byte(b) }

  // The word a little-endian load of `s` yields.
  function LoadLittle(s: Bytes): bv64
  {
    if s == [] then 0 else Join(s[0], LoadLittle(s[1..]))
  }

  // The word a big-endian load of the first `n` bytes of `s` yields.
  function LoadBig(s: Bytes, n: nat): bv64
    requires n <= |s|
  {
    if n == 0 then 0 else Join(s[n - 1], LoadBig(s, n - 1))
  }

  function ShiftUp(w: bv64): bv64 { w << 8 }

  function NextMask(m: bv64): bv64 { (m << 8) | 0xff }

  // The low `n` bytes set.
  function LowMask(n: nat): bv64
  {
    if n == 0 then 0 else NextMask(LowMask(n - 1))
  }

  predicate Within(w: bv64, m: bv64) { w & !m == 0 }

  predicate Fits(w: bv64, n: nat) { Within(w, LowMask(n)) }

  lemma LowMaskTop(n: nat)
    requires n <= 7
    ensures Within(LowMask(n), 0x00ffffffffffffff)
  {
    assert LowMask(2) == 0xffff;
    assert LowMask(3) == 0xffffff;
    assert LowMask(4) == 0xffffffff;
    assert LowMask(5) == 0xffffffffff;
    assert LowMask(6) == 0xffffffffffff;
    assert LowMask(7) == 0xffffffffffffff;
  }

  lemma JoinWithin(b: bv8, w: bv64, m: bv64)
    requires Within(w, m)
    ensures Within(Join(b, w), NextMask(m))
  {}

  lemma JoinIsXor(b: bv8, w: bv64)
    ensures Join(b, w) == Xor(Byte(b), ShiftUp(w))
  {}

  lemma ShiftBack(w: bv64, m: bv64)
    requires Within(w, m) && Within(m, 0x00ffffffffffffff)
    ensures ShiftUp(w) & 0xff == 0 && ShiftUp(w) >> 8 == w
  {}

  lemma UpSteps(w: bv64, n: nat)
    requires Fits(w, n) && n <= 7
    ensures Steps(ShiftUp(w), 8) == w
  {
    hide Within, LowMask, BitStep, ShiftUp;
    LowMaskTop(n);
    ShiftBack(w, LowMask(n));
    ClearByteSteps(ShiftUp(w));
  }

  lemma {:induction false} LoadLittleFits(s: Bytes)
    ensures Fits(LoadLittle(s), |s|)
  {
    if s == [] {
    } else {
      hide Within, Join, NextMask;
      LoadLittleFits(s[1..]);
      JoinWithin(s[0], LoadLittle(s[1..]), LowMask(|s| - 1));
    }
  }

  // Running the register over a loaded word is running it over the word's bytes one by one.
  lemma {:induction false} WordFold(crc: bv64, s: Bytes)
    requires |s| <= 8
    ensures Steps(Xor(crc, LoadLittle(s)), 8 * |s|) == Fold(crc, s)
    decreases |s|
  {
    hide Xor, Byte, BitStep, Join, Fits, ShiftUp;
    if s == [] {
      XorZero(crc);
    } else {
      var b, w := Byte(s[0]), LoadLittle(s[1..]);
      var high, n := ShiftUp(w), 8 * |s[1..]|;
      LoadLittleFits(s[1..]);
      calc {
        Steps(Xor(crc, LoadLittle(s)), 8 * |s|);
        { JoinIsXor(s[0], w); XorAssoc(crc, b, high); }
        Steps(Xor(Xor(crc, b), high), 8 + n);
        { StepsAdd(Xor(Xor(crc, b), high), 8, n); }
        Steps(Steps(Xor(Xor(crc, b), high), 8), n);
        { StepsLinear(Xor(crc, b), high, 8); UpSteps(w, |s| - 1); }
        Steps(Xor(Steps(Xor(crc, b), 8), w), n);
        { WordFold(Steps(Xor(crc, b), 8), s[1..]); }
        Fold(Steps(Xor(crc, b), 8), s[1..]);
      }
    }
  }

  function Xor8(a: bv64, b: bv64, c: bv64, d: bv64, e: bv64, f: bv64, g: bv64, h: bv64): bv64
  {
    Xor(Xor(Xor(Xor(Xor(Xor(Xor(a, b), c), d), e), f), g), h)
  }

  // The slice-by-8 update, in the order of the eight lookups.
  lemma SliceStep(crc: bv64, s: Bytes)
    requires |s| == 8
    ensures var x := Xor(crc, LoadLittle(s));
            Fold(crc, s) ==
            Xor8(Entry(7, ByteOf(x, 0)), Entry(6, ByteOf(x, 1)), Entry(5, ByteOf(x, 2)), Entry(4, ByteOf(x, 3)),
                 Entry(3, ByteOf(x, 4)), Entry(2, ByteOf(x, 5)), Entry(1, ByteOf(x, 6)), Entry(0, ByteOf(x, 7)))
  {
    var x := Xor(crc, LoadLittle(s));
    assert Drops(x, 0) == x;
    hide *;
    WordFold(crc, s);
    StepsAreSlices(x, 0);
    SlicesUnrolled(x);
  }

  lemma SlicesUnrolled(x: bv64)
    ensures Slices(x, 0) ==
            Xor8(Entry(7, ByteOf(x, 0)), Entry(6, ByteOf(x, 1)), Entry(5, ByteOf(x, 2)), Entry(4, ByteOf(x, 3)),
                 Entry(3, ByteOf(x, 4)), Entry(2, ByteOf(x, 5)), Entry(1, ByteOf(x, 6)), Entry(0, ByteOf(x, 7)))
  {
    hide Xor, Entry, Xor8, ByteOf;
    XorNest(Entry(7, ByteOf(x, 0)), Entry(6, ByteOf(x, 1)), Entry(5, ByteOf(x, 2)), Entry(4, ByteOf(x, 3)),
            Entry(3, ByteOf(x, 4)), Entry(2, ByteOf(x, 5)), Entry(1, ByteOf(x, 6)), Entry(0, ByteOf(x, 7)));
    assert Slices(x, 6) == Xor(Entry(1, ByteOf(x, 6)), Xor(Entry(0, ByteOf(x, 7)), 0));
    assert Slices(x, 4) == Xor(Entry(3, ByteOf(x, 4)), Xor(Entry(2, ByteOf(x, 5)), Slices(x, 6)));
    assert Slices(x, 2) == Xor(Entry(5, ByteOf(x, 2)), Xor(Entry(4, ByteOf(x, 3)), Slices(x, 4)));
  }

  lemma XorNest(a: bv64, b: bv64, c: bv64, d: bv64, e: bv64, f: bv64, g: bv64, h: bv64)
    ensures Xor8(a, b, c, d, e, f, g, h) == Xor(a, Xor(b, Xor(c, Xor(d, Xor(e, Xor(f, Xor(g, Xor(h, 0))))))))
  {
    hide Xor;
    var gh := Xor(g, h);
    var fgh := Xor(f, gh);
    var efgh := Xor(e, fgh);
    var dh := Xor(d, efgh);
    var ch := Xor(c, dh);
    XorZero(h);
    XorAssoc(a, b, ch);
    XorAssoc(Xor(a, b), c, dh);
    XorAssoc(Xor(Xor(a, b), c), d, efgh);
    XorAssoc(Xor(Xor(Xor(a, b), c), d), e, fgh);
    XorAssoc(Xor(Xor(Xor(Xor(a, b), c), d), e), f, gh);
    XorAssoc(Xor(Xor(Xor(Xor(Xor(a, b), c), d), e), f), g, h);
  }

  // ---------- byte reversal ----------

  // Swap neighbouring bytes, then neighbouring pairs, then halves (crcspeed.c:71-83).
  function Rev8(q: bv64): bv64
  {
    var a := ((q >> 8) & 0x00ff00ff00ff00ff) | ((q & 0x00ff00ff00ff00ff) << 8);
    var b := ((a >> 16) & 0x0000ffff0000ffff) | ((a & 0x0000ffff0000ffff) << 16);
    (b >> 32) | (b << 32)
  }

  lemma Rev8Involution(q: bv64)
    ensures Rev8(Rev8(q)) == q
  {}

  lemma Rev8Xor(a: bv64, b: bv64)
    ensures Rev8(Xor(a, b)) == Xor(Rev8(a), Rev8(b))
  {}

  lemma Rev8Drop(q: bv64)
    ensures Rev8(DropByte(q)) == Rev8(q) << 8
  {
    hide Rev8, Flat;
    Rev8Flat(q >> 8);
    Rev8Flat(q);
    FlatDrop(q);
  }

  function Flat(q: bv64): bv64
  {
    (q << 56) | ((q & 0xff00) << 40) | ((q & 0xff0000) << 24) | ((q & 0xff000000) << 8) |
    ((q >> 8) & 0xff000000) | ((q >> 24) & 0xff0000) | ((q >> 40) & 0xff00) | (q >> 56)
  }

  lemma Rev8Flat(q: bv64)
    ensures Rev8(q) == Flat(q)
  {}

  lemma FlatDrop(q: bv64)
    ensures Flat(q >> 8) == Flat(q) << 8
  {
    FlatParts(q);
    ShiftOr(q << 56, (q & 0xff00) << 40, (q & 0xff0000) << 24, (q & 0xff000000) << 8,
            (q >> 8) & 0xff000000, (q >> 24) & 0xff0000, (q >> 40) & 0xff00, q >> 56);
  }

  lemma FlatParts(q: bv64)
    ensures (q << 56) << 8 == 0 && (q >> 8) >> 56 == 0
    ensures (q >> 8) << 56 == ((q & 0xff00) << 40) << 8
    ensures ((q >> 8) & 0xff00) << 40 == ((q & 0xff0000) << 24) << 8
    ensures ((q >> 8) & 0xff0000) << 24 == ((q & 0xff000000) << 8) << 8
    ensures ((q >> 8) & 0xff000000) << 8 == ((q >> 8) & 0xff000000) << 8
    ensures ((q >> 8) >> 8) & 0xff000000 == ((q >> 24) & 0xff0000) << 8
    ensures ((q >> 8) >> 24) & 0xff0000 == ((q >> 40) & 0xff00) << 8
    ensures ((q >> 8) >> 40) & 0xff00 == (q >> 56) << 8
  {}

  lemma ShiftOr(a: bv64, b: bv64, c: bv64, d: bv64, e: bv64, f: bv64, g: bv64, h: bv64)
    ensures (a | b | c | d | e | f | g | h) << 8 ==
            (a << 8) | (b << 8) | (c << 8) | (d << 8) | (e << 8) | (f << 8) | (g << 8) | (h << 8)
  {}

  // Byte `i` of the reversed word is byte `7 - i` of the word.
  lemma Rev8Bytes(q: bv64)
    ensures (Rev8(q) & 0xff) as bv8 == (q >> 56) as bv8
    ensures ((Rev8(q) >> 8) & 0xff) as bv8 == ((q >> 48) & 0xff) as bv8
    ensures ((Rev8(q) >> 16) & 0xff) as bv8 == ((q >> 40) & 0xff) as bv8
    ensures ((Rev8(q) >> 24) & 0xff) as bv8 == ((q >> 32) & 0xff) as bv8
    ensures ((Rev8(q) >> 32) & 0xff) as bv8 == ((q >> 24) & 0xff) as bv8
    ensures ((Rev8(q) >> 40) & 0xff) as bv8 == ((q >> 16) & 0xff) as bv8
    ensures ((Rev8(q) >> 48) & 0xff) as bv8 == ((q >> 8) & 0xff) as bv8
    ensures (Rev8(q) >> 56) as bv8 == (q & 0xff) as bv8
  {}

  lemma BytesOf(q: bv64)
    ensures ByteOf(q, 0) == (q & 0xff) as bv8
    ensures ByteOf(q, 1) == ((q >> 8) & 0xff) as bv8
    ensures ByteOf(q, 2) == ((q >> 16) & 0xff) as bv8
    ensures ByteOf(q, 3) == ((q >> 24) & 0xff) as bv8
    ensures ByteOf(q, 4) == ((q >> 32) & 0xff) as bv8
    ensures ByteOf(q, 5) == ((q >> 40) & 0xff) as bv8
    ensures ByteOf(q, 6) == ((q >> 48) & 0xff) as bv8
    ensures ByteOf(q, 7) == (q >> 56) as bv8
  {
    assert ByteOf(q, 0) == (q & 0xff) as bv8;
    hide DropByte, ByteOf;
    DropsAreShifts(q);
    ByteOfShift(q, 1);
    ByteOfShift(q, 2);
    ByteOfShift(q, 3);
    ByteOfShift(q, 4);
    ByteOfShift(q, 5);
    ByteOfShift(q, 6);
    ByteOfShift(q, 7);
    TopByte(q);
  }

  lemma TopByte(q: bv64)
    ensures (q >> 56) & 0xff == q >> 56
  {}

  lemma ByteOfShift(q: bv64, i: nat)
    ensures ByteOf(q, i) == (Drops(q, i) & 0xff) as bv8
  {
    ByteOfDrops(q, i);
    hide DropByte;
  }

  lemma DropsAreShifts(q: bv64)
    ensures Drops(q, 1) == q >> 8 && Drops(q, 2) == q >> 16 && Drops(q, 3) == q >> 24
    ensures Drops(q, 4) == q >> 32 && Drops(q, 5) == q >> 40 && Drops(q, 6) == q >> 48 && Drops(q, 7) == q >> 56
  {
    ShiftTwice(q);
    hide DropByte;
    assert Drops(q, 1) == DropByte(q);
    assert Drops(q, 2) == DropByte(Drops(q, 1));
    assert Drops(q, 3) == DropByte(Drops(q, 2));
    assert Drops(q, 4) == DropByte(Drops(q, 3));
    assert Drops(q, 5) == DropByte(Drops(q, 4));
    assert Drops(q, 6) == DropByte(Drops(q, 5));
  }

  lemma ShiftTwice(q: bv64)
    ensures DropByte(q) == q >> 8 && DropByte(q >> 8) == q >> 16 && DropByte(q >> 16) == q >> 24
    ensures DropByte(q >> 24) == q >> 32 && DropByte(q >> 32) == q >> 40 && DropByte(q >> 40) == q >> 48
    ensures DropByte(q >> 48) == q >> 56
  {}

  // ---------- the engines ----------

  // Folding over a concatenation is folding over its parts, each from the register the previous one left.
  lemma {:induction false} FoldConcat(crc: bv64, a: Bytes, b: Bytes)
    ensures Fold(crc, a + b) == Fold(Fold(crc, a), b)
    decreases |a|
  {
    hide Xor, Byte;
    if a == [] {
      assert a + b == b;
    } else {
      assert (a + b)[1..] == a[1..] + b;
      FoldConcat(Steps(Xor(crc, Byte(a[0])), 8), a[1..], b);
    }
  }

  lemma FoldNext(crc: bv64, buf: Bytes, n: nat)
    requires n < |buf|
    ensures Fold(crc, buf[n..]) == Fold(Steps(Xor(crc, Byte(buf[n])), 8), buf[n + 1..])
  {
    hide Xor, Byte;
    assert buf[n..][1..] == buf[n + 1..];
  }

  lemma FoldNext8(crc: bv64, buf: Bytes, n: nat)
    requires n + 8 <= |buf|
    ensures Fold(crc, buf[n..]) == Fold(Fold(crc, buf[n..n + 8]), buf[n + 8..])
  {
    hide *;
    assert buf[n..] == buf[n..n + 8] + buf[n + 8..];
    FoldConcat(crc, buf[n..n + 8], buf[n + 8..]);
  }

  lemma FoldDone(crc: bv64, buf: Bytes)
    ensures Fold(crc, buf[|buf|..]) == crc
  {}

  // One more zero byte moves an entry to the next row.
  lemma EntryNext(k: nat, b: bv8, crc: bv64)
    requires crc == Entry(k, b)
    ensures Xor(Entry(0, ByteOf(crc, 0)), DropByte(crc)) == Entry(k + 1, b)
  {
    hide Xor, LowByte, DropByte, BitStep, Byte, ByteOf;
    PeelByte(crc, 8);
    LowByteOf(crc);
    StepsAdd(Byte(b), 8 * (k + 1), 8);
  }

  // Fill in the little-endian tables: single bytes first, then one more zero byte per row.
  method LittleInit(table: array2<bv64>)
    requires table.Length0 == 8 && table.Length1 == 256
    modifies table
    ensures LittleTable(table)
  {
    hide Entry, ToByte, Reflect, RawFold;
    for n := 0 to 256
      invariant forall m | 0 <= m < n :: table[0, m] == Entry(0, ToByte(m))
    {
      var v := ToByte(n);
      var crc := BitwiseCrc(0, [v]);
      SingleByte(v);
      table[0, n] := crc;
    }
    for n := 0 to 256
      invariant forall m | 0 <= m < 256 :: table[0, m] == Entry(0, ToByte(m))
      invariant forall j, m | 0 <= j < 8 && 0 <= m < n :: table[j, m] == Entry(j, ToByte(m))
    {
      NestColumn(table, n);
    }
  }

  // The inner loop of the initialisation: rows 1 to 7 of the column for byte `n`.
  method NestColumn(table: array2<bv64>, n: nat)
    requires table.Length0 == 8 && table.Length1 == 256 && n < 256
    requires forall m | 0 <= m < 256 :: table[0, m] == Entry(0, ToByte(m))
    modifies table
    ensures forall k | 0 <= k < 8 :: table[k, n] == Entry(k, ToByte(n))
    ensures forall k, m | 0 <= k < 8 && 0 <= m < 256 && m != n :: table[k, m] == old(table[k, m])
  {
    hide *;
    var crc := table[0, n];
    for k := 1 to 8
      invariant crc == Entry(k - 1, ToByte(n))
      invariant forall m | 0 <= m < 256 :: table[0, m] == Entry(0, ToByte(m))
      invariant forall j | 0 <= j < k :: table[j, n] == Entry(j, ToByte(n))
      invariant forall j, m | 0 <= j < 8 && 0 <= m < 256 && m != n :: table[j, m] == old(table[j, m])
    {
      EntryNext(k - 1, ToByte(n), crc);
      IndexRoundTrip(ByteOf(crc, 0));
      crc := Xor(table[0, Index(ByteOf(crc, 0))], DropByte(crc));
      table[k, n] := crc;
    }
  }

  // The big-endian tables are the little-endian ones with every entry reversed in place.
  method BigInit(table: array2<bv64>)
    requires table.Length0 == 8 && table.Length1 == 256
    modifies table
    ensures BigTable(table)
  {
    hide Rev8, Entry, ToByte;
    LittleInit(table);
    for k := 0 to 8
      invariant forall j, m | 0 <= j < k && 0 <= m < 256 :: table[j, m] == Rev8(Entry(j, ToByte(m)))
      invariant forall j, m | k <= j < 8 && 0 <= m < 256 :: table[j, m] == Entry(j, ToByte(m))
    {
      ReverseRow(table, k);
    }
  }

  // The inner loop of the reversal.
  method ReverseRow(table: array2<bv64>, k: nat)
    requires table.Length0 == 8 && table.Length1 == 256 && k < 8
    modifies table
    ensures forall m | 0 <= m < 256 :: table[k, m] == Rev8(old(table[k, m]))
    ensures forall j, m | 0 <= j < 8 && 0 <= m < 256 && j != k :: table[j, m] == old(table[j, m])
  {
    hide *;
    for n := 0 to 256
      invariant forall m | 0 <= m < n :: table[k, m] == Rev8(old(table[k, m]))
      invariant forall m | n <= m < 256 :: table[k, m] == old(table[k, m])
      invariant forall j, m | 0 <= j < 8 && 0 <= m < 256 && j != k :: table[j, m] == old(table[j, m])
    {
      table[k, n] := Rev8(table[k, n]);
    }
  }

  lemma SingleByte(v: bv8)
    ensures Reflect(RawFold(0, [v])) == Entry(0, v)
  {
    assert Reflect(0) == 0;
    XorZero(Byte(v));
    hide Xor, Byte, BitStep, Reflect, RawFold;
    RawFoldReflected(0, [v]);
    assert [v][1..] == [];
  }

  lemma LittleLookup(t: array2<bv64>, k: nat, b: bv8)
    requires LittleTable(t) && k < 8
    ensures t.Length0 == 8 && t.Length1 == 256
    ensures t[k, Index(b)] == Entry(k, b)
  {
    IndexRoundTrip(b);
    hide Entry, ToByte;
  }

  lemma BigLookup(t: array2<bv64>, k: nat, b: bv8)
    requires BigTable(t) && k < 8
    ensures t.Length0 == 8 && t.Length1 == 256
    ensures t[k, Index(b)] == Rev8(Entry(k, b))
  {
    IndexRoundTrip(b);
    hide Entry, ToByte, Rev8;
  }

  // One byte through row 0 (the head and tail loops of the engine).
  method LittleByte(table: array2<bv64>, crc: bv64, c: bv8) returns (r: bv64)
    requires LittleTable(table)
    ensures r == Steps(Xor(crc, Byte(c)), 8)
  {
    hide *;
    var x := Xor(crc, Byte(c));
    TableStep(crc, c);
    LittleLookup(table, 0, ByteOf(x, 0));
    r := Xor(table[0, Index(ByteOf(x, 0))], DropByte(crc));
  }

  // Eight bytes through the eight rows.
  method LittleWord(table: array2<bv64>, crc: bv64, word: Bytes) returns (r: bv64)
    requires LittleTable(table) && |word| == 8
    ensures r == Fold(crc, word)
  {
    hide *;
    var x := Xor(crc, LoadLittle(word));
    SliceStep(crc, word);
    LittleLookup(table, 7, ByteOf(x, 0));
    LittleLookup(table, 6, ByteOf(x, 1));
    LittleLookup(table, 5, ByteOf(x, 2));
    LittleLookup(table, 4, ByteOf(x, 3));
    LittleLookup(table, 3, ByteOf(x, 4));
    LittleLookup(table, 2, ByteOf(x, 5));
    LittleLookup(table, 1, ByteOf(x, 6));
    LittleLookup(table, 0, ByteOf(x, 7));
    r := Xor8(table[7, Index(ByteOf(x, 0))], table[6, Index(ByteOf(x, 1))],
              table[5, Index(ByteOf(x, 2))], table[4, Index(ByteOf(x, 3))],
              table[3, Index(ByteOf(x, 4))], table[2, Index(ByteOf(x, 5))],
              table[1, Index(ByteOf(x, 6))], table[0, Index(ByteOf(x, 7))]);
  }

  // crcspeed64little: `address` is where the buffer starts, which decides how many bytes go first one by one.
  method CrcSpeedLittle(table: array2<bv64>, crc0: bv64, buf: Bytes, address: nat) returns (crc: bv64)
    requires LittleTable(table)
    ensures crc == Fold(crc0, buf)
  {
    hide *;
    crc := crc0;
    var next, len := 0, |buf|;
    assert buf[0..] == buf;
    while len > 0 && (address + next) % 8 != 0
      invariant 0 <= next && 0 <= len && next + len == |buf| && Fold(crc, buf[next..]) == Fold(crc0, buf)
    {
      FoldNext(crc, buf, next);
      crc := LittleByte(table, crc, buf[next]);
      next, len := next + 1, len - 1;
    }
    while len >= 8
      invariant 0 <= next && 0 <= len && next + len == |buf| && Fold(crc, buf[next..]) == Fold(crc0, buf)
    {
      FoldNext8(crc, buf, next);
      crc := LittleWord(table, crc, buf[next..next + 8]);
      next, len := next + 8, len - 8;
    }
    while len > 0
      invariant 0 <= next && 0 <= len && next + len == |buf| && Fold(crc, buf[next..]) == Fold(crc0, buf)
    {
      FoldNext(crc, buf, next);
      crc := LittleByte(table, crc, buf[next]);
      next, len := next + 1, len - 1;
    }
    FoldDone(crc, buf);
  }

  function TopByteOf(q: bv64): bv8 { (q >> 56) as bv8 }

  // The big-endian register is the byte-reversed one, so the byte to look up sits at the other end.
  lemma BigByteStep(crc: bv64, c: bv8)
    ensures TopByteOf(Rev8(crc)) ^ c == ByteOf(Xor(crc, Byte(c)), 0)
    ensures Xor(Rev8(Entry(0, ByteOf(Xor(crc, Byte(c)), 0))), ShiftUp(Rev8(crc))) ==
            Rev8(Steps(Xor(crc, Byte(c)), 8))
  {
    TableStep(crc, c);
    BigIndex(crc, c);
    hide *;
    var e := Entry(0, ByteOf(Xor(crc, Byte(c)), 0));
    Rev8Xor(e, DropByte(crc));
    Rev8Drop'(crc);
  }

  lemma Rev8Drop'(q: bv64)
    ensures Rev8(DropByte(q)) == ShiftUp(Rev8(q))
  {
    Rev8Drop(q);
    hide Rev8, DropByte;
  }

  lemma BigIndex(crc: bv64, c: bv8)
    ensures TopByteOf(Rev8(crc)) ^ c == ByteOf(Xor(crc, Byte(c)), 0)
  {}

  method BigByte(table: array2<bv64>, crc: bv64, c: bv8, ghost q: bv64) returns (r: bv64)
    requires BigTable(table) && crc == Rev8(q)
    ensures r == Rev8(Steps(Xor(q, Byte(c)), 8))
  {
    hide *;
    BigByteStep(q, c);
    BigLookup(table, 0, TopByteOf(crc) ^ c);
    r := Xor(table[0, Index(TopByteOf(crc) ^ c)], ShiftUp(crc));
  }

  // Reversing a big-endian load gives the little-endian one.
  lemma LoadReversed(s: Bytes)
    requires |s| == 8
    ensures LoadBig(s, 8) == Rev8(LoadLittle(s))
  {
    LoadBigFlat(s);
    LoadLittleFlat(s);
    hide LoadBig, LoadLittle;
    Rev8OfFlat(s[0], s[1], s[2], s[3], s[4], s[5], s[6], s[7]);
  }

  function Join8(a: bv8, b: bv8, c: bv8, d: bv8, e: bv8, f: bv8, g: bv8, h: bv8): bv64
  {
    Join(a, Join(b, Join(c, Join(d, Join(e, Join(f, Join(g, Join(h, 0))))))))
  }

  lemma Rev8OfFlat(a: bv8, b: bv8, c: bv8, d: bv8, e: bv8, f: bv8, g: bv8, h: bv8)
    ensures Join8(h, g, f, e, d, c, b, a) == Rev8(Join8(a, b, c, d, e, f, g, h))
  {}

  lemma LoadLittleFlat(s: Bytes)
    requires |s| == 8
    ensures LoadLittle(s) == Join8(s[0], s[1], s[2], s[3], s[4], s[5], s[6], s[7])
  {
    hide Join, LoadLittle;
    assert s[0..] == s;
    LittleSuffix(s, 0);
    LittleSuffix(s, 1);
    LittleSuffix(s, 2);
    LittleSuffix(s, 3);
    LittleUpper(s);
  }

  lemma LittleUpper(s: Bytes)
    requires |s| == 8
    ensures LoadLittle(s[4..]) == Join(s[4], Join(s[5], Join(s[6], Join(s[7], 0))))
  {
    assert LoadLittle(s[8..]) == 0;
    hide Join, LoadLittle;
    LittleSuffix(s, 4);
    LittleSuffix(s, 5);
    LittleSuffix(s, 6);
    LittleSuffix(s, 7);
  }

  lemma LittleSuffix(s: Bytes, k: nat)
    requires k < |s|
    ensures LoadLittle(s[k..]) == Join(s[k], LoadLittle(s[k + 1..]))
  {
    hide Join;
    assert s[k..][1..] == s[k + 1..];
  }

  lemma LoadBigFlat(s: Bytes)
    requires |s| == 8
    ensures LoadBig(s, 8) == Join8(s[7], s[6], s[5], s[4], s[3], s[2], s[1], s[0])
  {
    hide Join;
    assert LoadBig(s, 1) == Join(s[0], 0);
    assert LoadBig(s, 3) == Join(s[2], Join(s[1], LoadBig(s, 1)));
    assert LoadBig(s, 5) == Join(s[4], Join(s[3], LoadBig(s, 3)));
    assert LoadBig(s, 7) == Join(s[6], Join(s[5], LoadBig(s, 5)));
  }

  // Byte `i` of the reversed word is byte `7 - i` of the word.
  lemma Rev8ByteOf(q: bv64)
    ensures ByteOf(Rev8(q), 0) == ByteOf(q, 7) && ByteOf(Rev8(q), 1) == ByteOf(q, 6)
    ensures ByteOf(Rev8(q), 2) == ByteOf(q, 5) && ByteOf(Rev8(q), 3) == ByteOf(q, 4)
    ensures ByteOf(Rev8(q), 4) == ByteOf(q, 3) && ByteOf(Rev8(q), 5) == ByteOf(q, 2)
    ensures ByteOf(Rev8(q), 6) == ByteOf(q, 1) && ByteOf(Rev8(q), 7) == ByteOf(q, 0)
  {
    hide Rev8, ByteOf;
    BytesOf(q);
    BytesOf(Rev8(q));
    Rev8Bytes(q);
  }

  lemma Rev8Xor8(a: bv64, b: bv64, c: bv64, d: bv64, e: bv64, f: bv64, g: bv64, h: bv64)
    ensures Xor8(Rev8(a), Rev8(b), Rev8(c), Rev8(d), Rev8(e), Rev8(f), Rev8(g), Rev8(h)) ==
            Rev8(Xor8(h, g, f, e, d, c, b, a))
  {
    hide Xor, Rev8;
    var p2 := Xor(a, b);
    var p3 := Xor(p2, c);
    var p4 := Xor(p3, d);
    var p5 := Xor(p4, e);
    var p6 := Xor(p5, f);
    var p7 := Xor(p6, g);
    Rev8Xor(a, b);
    Rev8Xor(p2, c);
    Rev8Xor(p3, d);
    Rev8Xor(p4, e);
    Rev8Xor(p5, f);
    Rev8Xor(p6, g);
    Rev8Xor(p7, h);
    XorNest(h, g, f, e, d, c, b, a);
    XorZero(a);
    XorComm(b, a);
    XorComm(c, p2);
    XorComm(d, p3);
    XorComm(e, p4);
    XorComm(f, p5);
    XorComm(g, p6);
    XorComm(h, p7);
  }

  method BigWord(table: array2<bv64>, crc: bv64, word: Bytes, ghost q: bv64) returns (r: bv64)
    requires BigTable(table) && |word| == 8 && crc == Rev8(q)
    ensures r == Rev8(Fold(q, word))
  {
    hide *;
    var y := Xor(crc, LoadBig(word, 8));
    ghost var x := Xor(q, LoadLittle(word));
    LoadReversed(word);
    Rev8Xor(q, LoadLittle(word));
    Rev8ByteOf(x);
    SliceStep(q, word);
    BigLookup(table, 0, ByteOf(y, 0));
    BigLookup(table, 1, ByteOf(y, 1));
    BigLookup(table, 2, ByteOf(y, 2));
    BigLookup(table, 3, ByteOf(y, 3));
    BigLookup(table, 4, ByteOf(y, 4));
    BigLookup(table, 5, ByteOf(y, 5));
    BigLookup(table, 6, ByteOf(y, 6));
    BigLookup(table, 7, ByteOf(y, 7));
    Rev8Xor8(Entry(0, ByteOf(x, 7)), Entry(1, ByteOf(x, 6)), Entry(2, ByteOf(x, 5)), Entry(3, ByteOf(x, 4)),
             Entry(4, ByteOf(x, 3)), Entry(5, ByteOf(x, 2)), Entry(6, ByteOf(x, 1)), Entry(7, ByteOf(x, 0)));
    r := Xor8(table[0, Index(ByteOf(y, 0))], table[1, Index(ByteOf(y, 1))],
              table[2, Index(ByteOf(y, 2))], table[3, Index(ByteOf(y, 3))],
              table[4, Index(ByteOf(y, 4))], table[5, Index(ByteOf(y, 5))],
              table[6, Index(ByteOf(y, 6))], table[7, Index(ByteOf(y, 7))]);
  }

  // crcspeed64big: the register is kept byte-reversed between the two calls to rev8.
  method CrcSpeedBig(table: array2<bv64>, crc0: bv64, buf: Bytes, address: nat) returns (r: bv64)
    requires BigTable(table)
    ensures r == Fold(crc0, buf)
  {
    hide *;
    var crc := Rev8(crc0);
    ghost var q := crc0;
    var next, len := 0, |buf|;
    assert buf[0..] == buf;
    while len > 0 && (address + next) % 8 != 0
      invariant 0 <= next && 0 <= len && next + len == |buf|
      invariant crc == Rev8(q) && Fold(q, buf[next..]) == Fold(crc0, buf)
    {
      FoldNext(q, buf, next);
      crc := BigByte(table, crc, buf[next], q);
      q := Steps(Xor(q, Byte(buf[next])), 8);
      next, len := next + 1, len - 1;
    }
    while len >= 8
      invariant 0 <= next && 0 <= len && next + len == |buf|
      invariant crc == Rev8(q) && Fold(q, buf[next..]) == Fold(crc0, buf)
    {
      FoldNext8(q, buf, next);
      crc := BigWord(table, crc, buf[next..next + 8], q);
      q := Fold(q, buf[next..next + 8]);
      next, len := next + 8, len - 8;
    }
    while len > 0
      invariant 0 <= next && 0 <= len && next + len == |buf|
      invariant crc == Rev8(q) && Fold(q, buf[next..]) == Fold(crc0, buf)
    {
      FoldNext(q, buf, next);
      crc := BigByte(table, crc, buf[next], q);
      q := Steps(Xor(q, Byte(buf[next])), 8);
      next, len := next + 1, len - 1;
    }
    FoldDone(q, buf);
    Rev8Involution(q);
    r := Rev8(crc);
  }

  // ---------- the bit-by-bit division ----------

  function Top(r: bv64): bool { r & 0x8000000000000000 != 0 }

  function Double(r: bv64): bv64 { r << 1 }

  function Fed(feed: bool): bv64 { if feed then POLY else 0 }

  function RawShift(r: bv64, feed: bool): bv64 { Xor(Double(r), Fed(feed)) }

  // The register of `_crc64` runs the other way round: the next bit leaves at the top.
  function RawStep(r: bv64, bit: bool): bv64 { RawShift(r, Top(r) != bit) }

  // Feed the low `k` bits of `d`, least significant first.
  function RawBits(r: bv64, d: bv8, k: nat): bv64
    decreases k
  {
    if k == 0 then r else RawBits(RawStep(r, d & 1 == 1), d >> 1, k - 1)
  }

  function RawFold(r: bv64, data: Bytes): bv64
    decreases |data|
  {
    if data == [] then r else RawFold(RawBits(r, data[0], 8), data[1..])
  }

  // All 64 bits in reverse order.
  function Reflect(q: bv64): bv64
  {
    var a := ((q >> 1) & 0x5555555555555555) | ((q & 0x5555555555555555) << 1);
    var b := ((a >> 2) & 0x3333333333333333) | ((a & 0x3333333333333333) << 2);
    var c := ((b >> 4) & 0x0f0f0f0f0f0f0f0f) | ((b & 0x0f0f0f0f0f0f0f0f) << 4);
    Rev8(c)
  }

  function One(bit: bool): bv64 { if bit then 1 else 0 }

  lemma RawStepReflected(r: bv64, bit: bool)
    ensures Reflect(RawStep(r, bit)) == BitStep(Xor(Reflect(r), One(bit)))
  {
    hide RawShift, Top, Reflect, BitStep, Xor, Half, Low, One;
    ReflectTop(r);
    ReflectShift(r, Top(r) != bit);
    FedStep(Reflect(r), bit);
  }

  lemma ReflectTop(r: bv64)
    ensures Top(r) <==> Low(Reflect(r)) == 1
  {}

  lemma ReflectShift(r: bv64, feed: bool)
    ensures Reflect(RawShift(r, feed)) == Xor(Half(Reflect(r)), if feed then REFLECTED_POLY else 0)
  {
    hide *;
    RawShiftForms(r);
    HalfForms(Reflect(r));
    RawReflectFed(r);
    RawReflectShift(r);
  }

  lemma RawShiftForms(r: bv64)
    ensures RawShift(r, true) == (r << 1) ^ POLY && RawShift(r, false) == r << 1
  {}

  lemma HalfForms(q: bv64)
    ensures Xor(Half(q), REFLECTED_POLY) == (q >> 1) ^ REFLECTED_POLY && Xor(Half(q), 0) == q >> 1
  {}

  lemma RawReflectFed(r: bv64)
    ensures Reflect((r << 1) ^ POLY) == (Reflect(r) >> 1) ^ REFLECTED_POLY
  {}

  lemma RawReflectShift(r: bv64)
    ensures Reflect(r << 1) == Reflect(r) >> 1
  {}

  lemma FedStep(q: bv64, bit: bool)
    ensures BitStep(Xor(q, One(bit))) == Xor(Half(q), if (Low(q) == 1) != bit then REFLECTED_POLY else 0)
  {
    hide Xor, Half, Low, One;
    HalfFed(q, bit);
    LowFed(q, bit);
  }

  lemma HalfFed(q: bv64, bit: bool)
    ensures Half(Xor(q, One(bit))) == Half(q)
  {
    assert (q ^ 1) >> 1 == q >> 1;
    if bit {
      assert Xor(q, One(bit)) == q ^ 1;
    } else {
      XorZero(q);
    }
  }

  lemma LowFed(q: bv64, bit: bool)
    ensures Low(Xor(q, One(bit))) == 1 <==> (Low(q) == 1) != bit
  {
    assert (q ^ 1) & 1 == 1 <==> q & 1 != 1;
  }

  lemma {:induction false} RawBitsReflected(r: bv64, d: bv8, k: nat)
    requires k <= 8 && Small(d, k)
    ensures Reflect(RawBits(r, d, k)) == Steps(Xor(Reflect(r), Byte(d)), k)
    decreases k
  {
    if k == 0 {
      XorZero(Reflect(r));
    } else {
      var bit := d & 1 == 1;
      RawStepReflected(r, bit);
      FeedBit(Reflect(r), d);
      SmallHalf(d, k);
      hide Xor, BitStep, Byte, Reflect, RawStep, Small, One;
      RawBitsReflected(RawStep(r, bit), d >> 1, k - 1);
    }
  }

  // `d` has at most `k` bits.
  predicate Small(d: bv8, k: nat) { if k == 0 then d == 0 else Small(d >> 1, k - 1) }

  lemma SmallHalf(d: bv8, k: nat)
    requires k > 0 && Small(d, k)
    ensures Small(d >> 1, k - 1)
  {}

  // The bits of a byte can be fed one by one or all at once.
  lemma FeedBit(q: bv64, d: bv8)
    ensures BitStep(Xor(q, Byte(d))) == Xor(BitStep(Xor(q, One(d & 1 == 1))), Byte(d >> 1))
  {
    var e, h := One(d & 1 == 1), Byte(d & 0xfe);
    SplitBit(d);
    hide Xor, BitStep, Byte, One;
    XorAssoc(q, e, h);
    BitStepLinear(Xor(q, e), h);
  }

  lemma SplitBit(d: bv8)
    ensures Byte(d) == Xor(One(d & 1 == 1), Byte(d & 0xfe))
    ensures BitStep(Byte(d & 0xfe)) == Byte(d >> 1)
  {}

  // Bit-by-bit division, read backwards, is the fold that the tables speed up.
  lemma {:induction false} RawFoldReflected(r: bv64, data: Bytes)
    ensures Reflect(RawFold(r, data)) == Fold(Reflect(r), data)
    decreases |data|
  {
    hide Xor, Byte, Reflect, BitStep, RawStep;
    if data != [] {
      EightBits(data[0]);
      RawBitsReflected(r, data[0], 8);
      RawFoldReflected(RawBits(r, data[0], 8), data[1..]);
    }
  }

  lemma EightBits(d: bv8)
    ensures Small(d, 8)
  {
    assert Small(d >> 6, 2);
    assert Small(d >> 4, 4) by { assert (d >> 4) >> 2 == d >> 6; }
    assert Small(d >> 2, 6) by { assert (d >> 2) >> 2 == d >> 4; }
    assert (d >> 1) >> 1 == d >> 2;
  }

  // _crc64: for every byte, shift the register once per bit and subtract the polynomial when a one leaves.
  method BitwiseCrc(crc0: bv64, data: Bytes) returns (r: bv64)
    ensures r == Reflect(RawFold(crc0, data))
  {
    hide Reflect, RawBits, RawStep, POLY;
    var crc := crc0;
    assert data[0..] == data;
    for offset := 0 to |data|
      invariant RawFold(crc, data[offset..]) == RawFold(crc0, data)
    {
      assert data[offset..][1..] == data[offset + 1..];
      crc := BitwiseByte(crc, data[offset]);
    }
    r := CrcReflect(crc, 64);
    GatherIsReflect(crc);
  }

  // The loop over the bits of one byte; `i` is the mask of the bit being fed.
  method BitwiseByte(crc0: bv64, c: bv8) returns (crc: bv64)
    ensures crc == RawBits(crc0, c, 8)
  {
    hide *;
    crc := crc0;
    var i: bv16 := 1;
    ghost var k: nat, d := 8, c;
    MaskInit(c);
    while i & 0xff != 0
      invariant MaskAt(i, k, c, d)
      invariant RawBits(crc, d, k) == RawBits(crc0, c, 8)
      decreases k
    {
      MaskStep(i, k, c, d);
      RawBitsNext(crc, d, k);
      var bit := Top(crc);
      if (c as bv16) & i != 0 {
        bit := !bit;
      }
      crc := RawShift(crc, bit);
      i := i << 1;
      d, k := d >> 1, k - 1;
    }
    MaskDone(i, k, c, d);
    RawBitsDone(crc, d);
  }

  lemma RawBitsNext(r: bv64, d: bv8, k: nat)
    requires k > 0
    ensures RawBits(r, d, k) == RawBits(RawShift(r, Top(r) != (d & 1 == 1)), d >> 1, k - 1)
  {
    hide Top, RawShift;
  }

  lemma RawBitsDone(r: bv64, d: bv8)
    ensures RawBits(r, d, 0) == r
  {}

  lemma MaskInit(c: bv8)
    ensures MaskAt(1, 8, c, c)
  {}

  // The mask `i` selects the bit of `c` that is lowest in `d`, with `k` bits still to go.
  ghost predicate MaskAt(i: bv16, k: nat, c: bv8, d: bv8)
  {
    match k
    case 8 => i == 1 && d == c
    case 7 => i == 2 && d == c >> 1
    case 6 => i == 4 && d == c >> 2
    case 5 => i == 8 && d == c >> 3
    case 4 => i == 16 && d == c >> 4
    case 3 => i == 32 && d == c >> 5
    case 2 => i == 64 && d == c >> 6
    case 1 => i == 128 && d == c >> 7
    case 0 => i == 256
    case _ => false
  }

  lemma MaskStep(i: bv16, k: nat, c: bv8, d: bv8)
    requires MaskAt(i, k, c, d) && i & 0xff != 0
    ensures k > 0 && MaskAt(i << 1, k - 1, c, d >> 1)
    ensures (c as bv16) & i != 0 <==> d & 1 == 1
  {}

  lemma MaskDone(i: bv16, k: nat, c: bv8, d: bv8)
    requires MaskAt(i, k, c, d) && i & 0xff == 0
    ensures k == 0
  {}

  // Move `k` bits of `d`, lowest first, into `r`.
  function Gather(d: bv64, r: bv64, k: nat): bv64
    decreases k
  {
    if k == 0 then r else Gather(d >> 1, GatherBit(d, r), k - 1)
  }

  // crc_reflect
  method CrcReflect(data0: bv64, len: nat) returns (ret: bv64)
    requires len > 0
    ensures ret == Gather(data0, 0, len)
  {
    var data := data0;
    ret := data & 1;
    for i := 1 to len
      invariant Gather(data0, 0, len) == Gather(data >> 1, ret, len - i)
    {
      data := data >> 1;
      ret := GatherBit(data, ret);
    }
  }

  // One gathering step, seen from the reflected side: the bit of `d` enters `s` at the top.
  function Slide(d: bv64, s: bv64, k: nat): bv64
    decreases k
  {
    if k == 0 then s else Slide(d >> 1, SlideBit(d, s), k - 1)
  }

  function SlideBit(d: bv64, s: bv64): bv64 { (s >> 1) | (d << 63) }

  function GatherBit(d: bv64, r: bv64): bv64 { (r << 1) | (d & 1) }

  lemma ReflectGatherBit(d: bv64, r: bv64)
    ensures Reflect(GatherBit(d, r)) == SlideBit(d, Reflect(r))
  {}

  lemma {:induction false} GatherSlides(d: bv64, r: bv64, k: nat)
    ensures Reflect(Gather(d, r, k)) == Slide(d, Reflect(r), k)
    decreases k
  {
    hide Reflect, GatherBit, SlideBit;
    if k > 0 {
      ReflectGatherBit(d, r);
      GatherSlides(d >> 1, GatherBit(d, r), k - 1);
    }
  }

  function Shr(d: bv64, n: nat): bv64
    decreases n
  {
    if n == 0 then d else Shr(d >> 1, n - 1)
  }

  lemma {:induction false} SlideAdd(d: bv64, s: bv64, m: nat, n: nat)
    ensures Slide(d, s, m + n) == Slide(Shr(d, m), Slide(d, s, m), n)
    ensures Shr(d, m + n) == Shr(Shr(d, m), n)
    decreases m
  {
    hide SlideBit;
    if m > 0 {
      SlideAdd(d >> 1, SlideBit(d, s), m - 1, n);
    }
  }

  function S2(d: bv64, s: bv64): bv64 { (s >> 2) | (d << 62) }

  function S4(d: bv64, s: bv64): bv64 { (s >> 4) | (d << 60) }

  function S8(d: bv64, s: bv64): bv64 { (s >> 8) | (d << 56) }

  function S16(d: bv64, s: bv64): bv64 { (s >> 16) | (d << 48) }

  function S32(d: bv64, s: bv64): bv64 { (s >> 32) | (d << 32) }

  lemma Slide2(d: bv64, s: bv64)
    ensures Slide(d, s, 2) == S2(d, s) && Shr(d, 2) == d >> 2
  {}

  lemma Slide4(d: bv64, s: bv64)
    ensures Slide(d, s, 4) == S4(d, s) && Shr(d, 4) == d >> 4
  {
    hide *;
    Slide2(d, s);
    Slide2(d >> 2, S2(d, s));
    SlideAdd(d, s, 2, 2);
    Compose2(d, s);
  }

  lemma Compose2(d: bv64, s: bv64)
    ensures S2(d >> 2, S2(d, s)) == S4(d, s) && (d >> 2) >> 2 == d >> 4
  {}

  lemma Slide8(d: bv64, s: bv64)
    ensures Slide(d, s, 8) == S8(d, s) && Shr(d, 8) == d >> 8
  {
    hide *;
    Slide4(d, s);
    Slide4(d >> 4, S4(d, s));
    SlideAdd(d, s, 4, 4);
    Compose4(d, s);
  }

  lemma Compose4(d: bv64, s: bv64)
    ensures S4(d >> 4, S4(d, s)) == S8(d, s) && (d >> 4) >> 4 == d >> 8
  {}

  lemma Slide16(d: bv64, s: bv64)
    ensures Slide(d, s, 16) == S16(d, s) && Shr(d, 16) == d >> 16
  {
    hide *;
    Slide8(d, s);
    Slide8(d >> 8, S8(d, s));
    SlideAdd(d, s, 8, 8);
    Compose8(d, s);
  }

  lemma Compose8(d: bv64, s: bv64)
    ensures S8(d >> 8, S8(d, s)) == S16(d, s) && (d >> 8) >> 8 == d >> 16
  {}

  lemma Slide32(d: bv64, s: bv64)
    ensures Slide(d, s, 32) == S32(d, s) && Shr(d, 32) == d >> 32
  {
    hide *;
    Slide16(d, s);
    Slide16(d >> 16, S16(d, s));
    SlideAdd(d, s, 16, 16);
    Compose16(d, s);
  }

  lemma Compose16(d: bv64, s: bv64)
    ensures S16(d >> 16, S16(d, s)) == S32(d, s) && (d >> 16) >> 16 == d >> 32
  {}

  lemma GatherIsReflect(q: bv64)
    ensures Gather(q, 0, 64) == Reflect(q)
  {
    assert Reflect(0) == 0;
    hide *;
    GatherSlides(q, 0, 64);
    Slide32(q, 0);
    Slide32(q >> 32, S32(q, 0));
    SlideAdd(q, 0, 32, 32);
    SlideAll(q);
    ReflectInvolution(Gather(q, 0, 64));
  }

  lemma SlideAll(q: bv64)
    ensures S32(q >> 32, S32(q, 0)) == q
  {}

  lemma ReflectInvolution(q: bv64)
    ensures Reflect(Reflect(q)) == q
  {}

  // ---------- what the register means: a remainder of polynomial division ----------

  // Appending one zero coefficient to the dividend.
  function TimesX(r: bv64): bv64 { RawShift(r, Top(r)) }

  // The remainder of the polynomial with coefficients `bits`, highest first, divided by x^64 + POLY.
  function Remainder(bits: seq<bool>): bv64
  {
    if bits == [] then 0
    else Xor(TimesX(Remainder(bits[..|bits| - 1])), One(bits[|bits| - 1]))
  }

  function TimesXn(r: bv64, n: nat): bv64
  {
    if n == 0 then r else TimesX(TimesXn(r, n - 1))
  }

  // The message bits in the order the register sees them: low bit of each byte first.
  function BitsOfByte(d: bv8, k: nat): seq<bool>
  {
    if k == 0 then [] else [d & 1 == 1] + BitsOfByte(d >> 1, k - 1)
  }

  function BitsOf(data: Bytes): seq<bool>
  {
    if data == [] then [] else BitsOfByte(data[0], 8) + BitsOf(data[1..])
  }

  lemma TimesXLinear(a: bv64, b: bv64)
    ensures TimesX(Xor(a, b)) == Xor(TimesX(a), TimesX(b))
  {
    hide Xor, Double, Top, Fed;
    DoubleLinear(a, b);
    TopLinear(a, b);
    FedLinear(Top(a), Top(b));
    XorSwap(Double(a), Double(b), Fed(Top(a)), Fed(Top(b)));
  }

  lemma DoubleLinear(a: bv64, b: bv64)
    ensures Double(Xor(a, b)) == Xor(Double(a), Double(b))
  {
    assert (a ^ b) << 1 == (a << 1) ^ (b << 1);
  }

  lemma TopLinear(a: bv64, b: bv64)
    ensures Top(Xor(a, b)) <==> Top(a) != Top(b)
  {
    RawTop(a, b);
  }

  lemma RawTop(a: bv64, b: bv64)
    ensures (a ^ b) & 0x8000000000000000 == (a & 0x8000000000000000) ^ (b & 0x8000000000000000)
    ensures a & 0x8000000000000000 == 0 || a & 0x8000000000000000 == 0x8000000000000000
    ensures b & 0x8000000000000000 == 0 || b & 0x8000000000000000 == 0x8000000000000000
  {}

  lemma FedLinear(a: bool, b: bool)
    ensures Fed(a != b) == Xor(Fed(a), Fed(b))
  {}

  lemma {:induction false} TimesXnLinear(a: bv64, b: bv64, n: nat)
    ensures TimesXn(Xor(a, b), n) == Xor(TimesXn(a, n), TimesXn(b, n))
    decreases n
  {
    hide Xor, TimesX;
    if n > 0 {
      TimesXnLinear(a, b, n - 1);
      TimesXLinear(TimesXn(a, n - 1), TimesXn(b, n - 1));
    }
  }

  lemma {:induction false} TimesXnAdd(r: bv64, m: nat, n: nat)
    ensures TimesXn(r, m + n) == TimesXn(TimesXn(r, m), n)
    decreases n
  {
    hide TimesX;
    if n > 0 {
      TimesXnAdd(r, m, n - 1);
    }
  }

  lemma Room2(r: bv64)
    requires r & 0xc000000000000000 == 0
    ensures TimesXn(r, 2) == r << 2
  {
    hide TimesX;
    Room(r);
    Room(r << 1);
    assert (r << 1) << 1 == r << 2;
    assert TimesXn(r, 1) == TimesX(r);
  }

  lemma Room(r: bv64)
    requires r & 0x8000000000000000 == 0
    ensures TimesX(r) == r << 1
  {
    assert Fed(Top(r)) == 0;
    XorZero(Double(r));
  }

  lemma Room4(r: bv64)
    requires r & 0xf000000000000000 == 0
    ensures TimesXn(r, 4) == r << 4
  {
    hide *;
    Room2(r);
    Room2(r << 2);
    TimesXnAdd(r, 2, 2);
  }

  lemma Room8(r: bv64)
    requires r & 0xff00000000000000 == 0
    ensures TimesXn(r, 8) == r << 8
  {
    hide *;
    Room4(r);
    Room4(r << 4);
    TimesXnAdd(r, 4, 4);
  }

  lemma LastTwo()
    ensures TimesXn(0x4000000000000000, 2) == POLY
  {
    assert TimesX(0x4000000000000000) == 0x8000000000000000;
    assert TimesX(0x8000000000000000) == POLY;
    hide TimesX;
    assert TimesXn(0x4000000000000000, 1) == TimesX(0x4000000000000000);
  }

  // x^64 leaves the remainder POLY.
  lemma PowerOfX()
    ensures TimesXn(1, 64) == POLY
  {
    hide *;
    LastTwo();
    Room8(1);
    Room8(0x100);
    TimesXnAdd(1, 8, 8);
    Room8(0x10000);
    TimesXnAdd(1, 16, 8);
    Room8(0x1000000);
    TimesXnAdd(1, 24, 8);
    Room8(0x100000000);
    TimesXnAdd(1, 32, 8);
    Room8(0x10000000000);
    TimesXnAdd(1, 40, 8);
    Room8(0x1000000000000);
    TimesXnAdd(1, 48, 8);
    Room4(0x100000000000000);
    TimesXnAdd(1, 56, 4);
    Room2(0x1000000000000000);
    TimesXnAdd(1, 60, 2);
    TimesXnAdd(1, 62, 2);
  }

  function RawRun(r: bv64, bits: seq<bool>): bv64
  {
    if bits == [] then r else RawStep(RawRun(r, bits[..|bits| - 1]), bits[|bits| - 1])
  }

  lemma {:induction false} RawRunConcat(r: bv64, a: seq<bool>, b: seq<bool>)
    ensures RawRun(r, a + b) == RawRun(RawRun(r, a), b)
    decreases |b|
  {
    hide RawStep;
    if b == [] {
      assert a + b == a;
    } else {
      var n := |b| - 1;
      assert (a + b)[..|a + b| - 1] == a + b[..n];
      RawRunConcat(r, a, b[..n]);
    }
  }

  lemma {:induction false} RawBitsRun(r: bv64, d: bv8, k: nat)
    ensures RawBits(r, d, k) == RawRun(r, BitsOfByte(d, k))
    decreases k
  {
    hide RawStep;
    if k > 0 {
      var bit := d & 1 == 1;
      RawBitsRun(RawStep(r, bit), d >> 1, k - 1);
      RawRunConcat(r, [bit], BitsOfByte(d >> 1, k - 1));
      assert [bit][..0] == [];
    }
  }

  lemma {:induction false} RawFoldRun(r: bv64, data: Bytes)
    ensures RawFold(r, data) == RawRun(r, BitsOf(data))
    decreases |data|
  {
    hide RawBits, RawStep;
    if data != [] {
      var bits := BitsOfByte(data[0], 8);
      RawBitsRun(r, data[0], 8);
      RawFoldRun(RawRun(r, bits), data[1..]);
      RawRunConcat(r, bits, BitsOf(data[1..]));
    }
  }

  lemma StepIsTimesX(r: bv64, bit: bool)
    ensures RawStep(r, bit) == Xor(TimesX(r), Fed(bit))
  {
    hide Xor, Double, Top, Fed;
    FedLinear(Top(r), bit);
    XorAssoc(Double(r), Fed(Top(r)), Fed(bit));
  }

  lemma FedIsPower(bit: bool)
    ensures TimesXn(One(bit), 64) == Fed(bit)
  {
    PowerOfX();
    ZeroStays(64);
    hide TimesXn;
  }

  lemma {:induction false} ZeroStays(n: nat)
    ensures TimesXn(0, n) == 0
  {
    if n > 0 {
      assert TimesX(0) == 0;
      hide TimesX;
      ZeroStays(n - 1);
    }
  }

  // The register after `bits` holds the remainder of the message followed by 64 zero bits.
  lemma {:induction false} RunIsRemainder(bits: seq<bool>)
    ensures RawRun(0, bits) == TimesXn(Remainder(bits), 64)
  {
    hide Xor, TimesX, RawStep, Fed, One;
    if bits == [] {
      ZeroStays(64);
    } else {
      var n := |bits| - 1;
      var r := Remainder(bits[..n]);
      RunIsRemainder(bits[..n]);
      StepIsTimesX(TimesXn(r, 64), bits[n]);
      TimesXnLinear(TimesX(r), One(bits[n]), 64);
      FedIsPower(bits[n]);
      TimesXnAdd(r, 64, 1);
      TimesXnAdd(r, 1, 64);
      assert TimesXn(r, 1) == TimesX(r);
      assert TimesXn(TimesXn(r, 64), 1) == TimesX(TimesXn(r, 64));
    }
  }

  lemma {:induction false} RemainderZeros(bits: seq<bool>, n: nat)
    ensures Remainder(bits + Repeat(false, n)) == TimesXn(Remainder(bits), n)
    decreases n
  {
    hide Xor, TimesX;
    if n == 0 {
      assert bits + Repeat(false, 0) == bits;
    } else {
      assert (bits + Repeat(false, n))[..|bits| + n - 1] == bits + Repeat(false, n - 1);
      RemainderZeros(bits, n - 1);
      XorZero(TimesX(Remainder(bits + Repeat(false, n - 1))));
    }
  }

  // All engines started from 0 compute the reversed remainder of message * x^64.
  lemma ChecksumIsRemainder(data: Bytes)
    ensures Fold(0, data) == Reflect(RawFold(0, data))
    ensures RawFold(0, data) == Remainder(BitsOf(data) + Repeat(false, 64))
  {
    assert Reflect(0) == 0;
    hide *;
    RawFoldReflected(0, data);
    RawFoldRun(0, data);
    RunIsRemainder(BitsOf(data));
    RemainderZeros(BitsOf(data), 64);
  }

  // ---------- crc64.c ----------

  ghost predicate NativeTable(table: array2<bv64>, bigEndian: bool)
    reads table
  {
    if bigEndian then BigTable(table) else LittleTable(table)
  }

  // crc64_init
  method Crc64Init(table: array2<bv64>, bigEndian: bool)
    requires table.Length0 == 8 && table.Length1 == 256
    modifies table
    ensures NativeTable(table, bigEndian)
  {
    hide LittleTable, BigTable;
    if bigEndian {
      BigInit(table);
    } else {
      LittleInit(table);
    }
  }

  // crc64: whatever the machine's byte order and the buffer's alignment, the result is the same fold.
  method Crc64(table: array2<bv64>, bigEndian: bool, crc: bv64, s: Bytes, address: nat) returns (r: bv64)
    requires NativeTable(table, bigEndian)
    ensures r == Fold(crc, s)
    ensures crc == 0 ==> r == Reflect(Remainder(BitsOf(s) + Repeat(false, 64)))
  {
    hide LittleTable, BigTable, Fold, Reflect, Remainder, BitsOf;
    if bigEndian {
      r := CrcSpeedBig(table, crc, s, address);
    } else {
      r := CrcSpeedLittle(table, crc, s, address);
    }
    ChecksumIsRemainder(s);
  }
}
