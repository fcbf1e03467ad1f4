// BITCOUNT of bitops.c: counting the set bits of a range, 28 bytes at a time.
module BitCount {
  import opened Bits
  import opened BitRange
  import opened Options

  // The number of set bits from `lo` up to but not including `hi`.
  function CountIn(s: Bytes, lo: nat, hi: nat): nat
    decreases hi
  {
    if lo >= hi then 0 else CountIn(s, lo, hi - 1) + Bit(BitAt(s, hi - 1))
  }

  function OnesIn(s: Bytes, lo: nat, hi: nat): set<nat> { set i | lo <= i < hi && BitAt(s, i) }

  lemma {:induction false} CountIsSize(s: Bytes, lo: nat, hi: nat)
    ensures CountIn(s, lo, hi) == |OnesIn(s, lo, hi)|
    decreases hi
  {
    hide BitAt;
    if lo >= hi {
      assert OnesIn(s, lo, hi) == {};
    } else {
      var front := OnesIn(s, lo, hi - 1);
      CountIsSize(s, lo, hi - 1);
      assert OnesIn(s, lo, hi) == front + if BitAt(s, hi - 1) then {hi - 1} else {};
    }
  }

  lemma {:induction false} CountSplit(s: Bytes, lo: nat, mid: nat, hi: nat)
    requires lo <= mid <= hi
    ensures CountIn(s, lo, hi) == CountIn(s, lo, mid) + CountIn(s, mid, hi)
    decreases hi
  {
    hide BitAt;
    if mid < hi {
      CountSplit(s, lo, mid, hi - 1);
    }
  }

  // The same bits elsewhere, `dist` further on.
  lemma {:induction false} CountShift(s: Bytes, t: Bytes, lo: nat, hi: nat, dist: nat)
    requires forall i: nat | lo <= i < hi :: BitAt(t, i) == BitAt(s, i + dist)
    ensures CountIn(s, lo + dist, hi + dist) == CountIn(t, lo, hi)
    decreases hi
  {
    hide BitAt;
    if lo < hi {
      CountShift(s, t, lo, hi - 1, dist);
    }
  }

  // ---------- one byte ----------

  function ByteCount(b: bv8): nat
  {
    Bit(BitOf(b, 0)) + Bit(BitOf(b, 1)) + Bit(BitOf(b, 2)) + Bit(BitOf(b, 3)) +
    Bit(BitOf(b, 4)) + Bit(BitOf(b, 5)) + Bit(BitOf(b, 6)) + Bit(BitOf(b, 7))
  }

  // bitsinbyte, in lines of sixteen.
  const BITSINBYTE: seq<seq<nat>> := [
    [0, 1, 1, 2, 1, 2, 2, 3, 1, 2, 2, 3, 2, 3, 3, 4],
    [1, 2, 2, 3, 2, 3, 3, 4, 2, 3, 3, 4, 3, 4, 4, 5],
    [1, 2, 2, 3, 2, 3, 3, 4, 2, 3, 3, 4, 3, 4, 4, 5],
    [2, 3, 3, 4, 3, 4, 4, 5, 3, 4, 4, 5, 4, 5, 5, 6],
    [1, 2, 2, 3, 2, 3, 3, 4, 2, 3, 3, 4, 3, 4, 4, 5],
    [2, 3, 3, 4, 3, 4, 4, 5, 3, 4, 4, 5, 4, 5, 5, 6],
    [2, 3, 3, 4, 3, 4, 4, 5, 3, 4, 4, 5, 4, 5, 5, 6],
    [3, 4, 4, 5, 4, 5, 5, 6, 4, 5, 5, 6, 5, 6, 6, 7],
    [1, 2, 2, 3, 2, 3, 3, 4, 2, 3, 3, 4, 3, 4, 4, 5],
    [2, 3, 3, 4, 3, 4, 4, 5, 3, 4, 4, 5, 4, 5, 5, 6],
    [2, 3, 3, 4, 3, 4, 4, 5, 3, 4, 4, 5, 4, 5, 5, 6],
    [3, 4, 4, 5, 4, 5, 5, 6, 4, 5, 5, 6, 5, 6, 6, 7],
    [2, 3, 3, 4, 3, 4, 4, 5, 3, 4, 4, 5, 4, 5, 5, 6],
    [3, 4, 4, 5, 4, 5, 5, 6, 4, 5, 5, 6, 5, 6, 6, 7],
    [3, 4, 4, 5, 4, 5, 5, 6, 4, 5, 5, 6, 5, 6, 6, 7],
    [4, 5, 5, 6, 5, 6, 6, 7, 5, 6, 6, 7, 6, 7, 7, 8]]

  function InTable(b: bv8): nat { BITSINBYTE[Nibble(b >> 4)][Nibble(b & 15)] }

  // The bits of a number below 16.
  function HalfCount(x: bv8): nat
  {
    Bit(BitOf(x, 4)) + Bit(BitOf(x, 5)) + Bit(BitOf(x, 6)) + Bit(BitOf(x, 7))
  }

  // A line of the table is the first one, raised by a constant.
  function Raised(n: nat): seq<nat>
  {
    [n, 1 + n, 1 + n, 2 + n, 1 + n, 2 + n, 2 + n, 3 + n, 1 + n, 2 + n, 2 + n, 3 + n, 2 + n, 3 + n, 3 + n, 4 + n]
  }

  lemma Lines0()
    ensures BITSINBYTE[0] == Raised(0)
    ensures BITSINBYTE[1] == Raised(1)
    ensures BITSINBYTE[2] == Raised(1)
    ensures BITSINBYTE[3] == Raised(2)
  {}

  lemma Lines1()
    ensures BITSINBYTE[4] == Raised(1)
    ensures BITSINBYTE[5] == Raised(2)
    ensures BITSINBYTE[6] == Raised(2)
    ensures BITSINBYTE[7] == Raised(3)
  {}

  lemma Lines2()
    ensures BITSINBYTE[8] == Raised(1)
    ensures BITSINBYTE[9] == Raised(2)
    ensures BITSINBYTE[10] == Raised(2)
    ensures BITSINBYTE[11] == Raised(3)
  {}

  lemma Lines3()
    ensures BITSINBYTE[12] == Raised(2)
    ensures BITSINBYTE[13] == Raised(3)
    ensures BITSINBYTE[14] == Raised(3)
    ensures BITSINBYTE[15] == Raised(4)
  {}

  lemma LineOf(x: bv8)
    requires x < 16
    ensures BITSINBYTE[Nibble(x)] == Raised(HalfCount(x))
  {
    Lines0();
    Lines1();
    Lines2();
    Lines3();
    hide Raised;
  }

  lemma RaisedAt(n: nat, x: bv8)
    requires x < 16
    ensures Raised(n)[Nibble(x)] == n + HalfCount(x)
  {}

  lemma HighHalf(b: bv8)
    ensures b >> 4 < 16
    ensures BitOf(b >> 4, 4) == BitOf(b, 0) && BitOf(b >> 4, 5) == BitOf(b, 1)
    ensures BitOf(b >> 4, 6) == BitOf(b, 2) && BitOf(b >> 4, 7) == BitOf(b, 3)
  {}

  lemma LowHalf(b: bv8)
    ensures b & 15 < 16
    ensures BitOf(b & 15, 4) == BitOf(b, 4) && BitOf(b & 15, 5) == BitOf(b, 5)
    ensures BitOf(b & 15, 6) == BitOf(b, 6) && BitOf(b & 15, 7) == BitOf(b, 7)
  {}

  lemma Halves(b: bv8)
    ensures b >> 4 < 16 && b & 15 < 16 && ByteCount(b) == HalfCount(b >> 4) + HalfCount(b & 15)
  {
    hide BitOf;
    HighHalf(b);
    LowHalf(b);
  }

  // The table holds the number of bits of every byte.
  lemma TableExact(b: bv8)
    ensures InTable(b) == ByteCount(b)
  {
    Halves(b);
    LineOf(b >> 4);
    RaisedAt(HalfCount(b >> 4), b & 15);
    hide Raised, HalfCount, ByteCount;
  }

  // ---------- 28 bytes ----------

  // The three steps on every 32-bit word.
  function Pairs(a: bv32): bv32 { a - ((a >> 1) & 0x55555555) }

  function Nibbles(a: bv32): bv32 { (a & 0x33333333) + ((a >> 2) & 0x33333333) }

  function Lanes(a: bv32): bv32 { (a + (a >> 4)) & 0x0f0f0f0f }

  function Counted(a: bv32): bv32 { Lanes(Nibbles(Pairs(a))) }

  // The last step, on the sum of seven words.
  function Total(a: bv32): bv32 { (a * 0x01010101) >> 24 }

  // The same steps on a single byte.
  function Swar(b: bv8): bv8
  {
    var p := b - ((b >> 1) & 0x55);
    var n := (p & 0x33) + ((p >> 2) & 0x33);
    (n + (n >> 4)) & 0x0f
  }

  function Byte0(a: bv32): bv32 { a & 0xff }

  function Byte1(a: bv32): bv32 { (a >> 8) & 0xff }

  function Byte2(a: bv32): bv32 { (a >> 16) & 0xff }

  function Byte3(a: bv32): bv32 { (a >> 24) & 0xff }

  // No byte of the word holds more than `n`.
  predicate AtMost(a: bv32, n: bv32) { Byte0(a) <= n && Byte1(a) <= n && Byte2(a) <= n && Byte3(a) <= n }

  function Plus(a: bv32, b: bv32): bv32 { a + b }

  function ByteSum(a: bv32): bv32 { Plus(Plus(Byte3(a), Byte2(a)), Plus(Byte1(a), Byte0(a))) }

  // No borrow or carry crosses a byte: each byte goes through the steps by itself.
  lemma CountedLow(a: bv32)
    ensures Byte0(Counted(a)) == Swar(Byte0(a) as bv8) as bv32
    ensures Byte1(Counted(a)) == Swar(Byte1(a) as bv8) as bv32
  {}

  lemma CountedHigh(a: bv32)
    ensures Byte2(Counted(a)) == Swar(Byte2(a) as bv8) as bv32
    ensures Byte3(Counted(a)) == Swar(Byte3(a) as bv8) as bv32
  {}

  lemma SwarBound(b: bv8)
    ensures Swar(b) <= 8
  {}

  lemma SwarCounts(b: bv8)
    ensures ToNat(Swar(b)) == ByteCount(b)
  {}

  lemma AddByte0(x: bv32, y: bv32, n: bv32)
    requires n <= 48 && AtMost(x, n) && AtMost(y, 8)
    ensures Byte0(x + y) == Plus(Byte0(x), Byte0(y))
  {}

  lemma AddByte1(x: bv32, y: bv32, n: bv32)
    requires n <= 48 && AtMost(x, n) && AtMost(y, 8)
    ensures Byte1(x + y) == Plus(Byte1(x), Byte1(y))
  {}

  lemma AddByte2(x: bv32, y: bv32, n: bv32)
    requires n <= 48 && AtMost(x, n) && AtMost(y, 8)
    ensures Byte2(x + y) == Plus(Byte2(x), Byte2(y))
  {}

  lemma AddByte3(x: bv32, y: bv32, n: bv32)
    requires n <= 48 && AtMost(x, n) && AtMost(y, 8)
    ensures Byte3(x + y) == Plus(Byte3(x), Byte3(y))
  {}

  lemma Within(a: bv32, b: bv32, n: bv32)
    requires a <= n <= 48 && b <= 8
    ensures Plus(a, b) <= n + 8
  {}

  // Adding one more counted word overflows no byte, as long as there is room for eight more.
  lemma AddBytes(x: bv32, y: bv32, n: bv32)
    requires n <= 48 && AtMost(x, n) && AtMost(y, 8)
    ensures AtMost(x + y, n + 8) && ByteSum(x + y) == Plus(ByteSum(x), ByteSum(y))
  {
    hide Byte0, Byte1, Byte2, Byte3, Plus;
    var z := x + y;
    AddByte0(x, y, n);
    AddByte1(x, y, n);
    AddByte2(x, y, n);
    AddByte3(x, y, n);
    Within(Byte0(x), Byte0(y), n);
    Within(Byte1(x), Byte1(y), n);
    Within(Byte2(x), Byte2(y), n);
    Within(Byte3(x), Byte3(y), n);
    PlusSwap(Byte3(x), Byte3(y), Byte2(x), Byte2(y));
    PlusSwap(Byte1(x), Byte1(y), Byte0(x), Byte0(y));
    PlusSwap(Plus(Byte3(x), Byte2(x)), Plus(Byte3(y), Byte2(y)), Plus(Byte1(x), Byte0(x)), Plus(Byte1(y), Byte0(y)));
  }

  lemma PlusSwap(a: bv32, b: bv32, c: bv32, d: bv32)
    ensures Plus(Plus(a, b), Plus(c, d)) == Plus(Plus(a, c), Plus(b, d))
  {
    hide Plus;
    PlusAssoc(a, b, Plus(c, d));
    PlusAssoc(b, c, d);
    PlusComm(b, c);
    PlusAssoc(c, b, d);
    PlusAssoc(a, c, Plus(b, d));
  }

  lemma PlusAssoc(a: bv32, b: bv32, c: bv32)
    ensures Plus(Plus(a, b), c) == Plus(a, Plus(b, c))
  {
    calc {
      Plus(Plus(a, b), c);
      Plus(a + b, c);
      (a + b) + c;
      a + (b + c);
      Plus(a, b + c);
      Plus(a, Plus(b, c));
    }
  }

  lemma PlusComm(a: bv32, b: bv32)
    ensures Plus(a, b) == Plus(b, a)
  {}

  // a + (a << 8)
  function Twice(a: bv32): bv32 { a + (a << 8) }

  function TopOf(h: bv32): bv32 { (h + (h << 16)) >> 24 }

  lemma TotalTwice(a: bv32)
    ensures Total(a) == TopOf(Twice(a))
  {
    calc {
      Total(a);
      (a * 0x01010101) >> 24;
      { RawTwice(a); }
      ((a + (a << 8)) + ((a + (a << 8)) << 16)) >> 24;
      TopOf(a + (a << 8));
      TopOf(Twice(a));
    }
  }

  lemma RawTwice(a: bv32)
    ensures a * 0x01010101 == (a + (a << 8)) + ((a + (a << 8)) << 16)
  {}

  // The multiplication adds up the bytes in the top one.
  lemma TotalIsSum(a: bv32)
    requires AtMost(a, 56)
    ensures Total(a) == ByteSum(a)
  {
    hide AtMost, Total, Byte0, Byte1, Byte2, Byte3, Plus, Twice, TopOf;
    TotalTwice(a);
    PairSum3(a);
    PairSum1(a);
    PairBound(a);
    TopSum(Twice(a));
  }

  lemma PairSum3(a: bv32)
    requires AtMost(a, 56)
    ensures Byte3(Twice(a)) == Plus(Byte3(a), Byte2(a))
  {}

  lemma PairSum1(a: bv32)
    requires AtMost(a, 56)
    ensures Byte1(Twice(a)) == Plus(Byte1(a), Byte0(a))
  {}

  lemma PairBound(a: bv32)
    requires AtMost(a, 56)
    ensures AtMost(Twice(a), 112)
  {}

  lemma TopSum(h: bv32)
    requires AtMost(h, 112)
    ensures TopOf(h) == Plus(Byte3(h), Byte1(h))
  {}

  // ---------- adding up ----------

  lemma Successor(x: bv8)
    requires x < 255
    ensures (x + 1) as nat == x as nat + 1
  {}

  lemma Predecessor(y: bv8)
    requires y > 0
    ensures y as nat > 0 && (y - 1) as nat == y as nat - 1
  {
    Successor(y - 1);
    assert y - 1 + 1 == y;
  }

  function ToNat(b: bv8): nat { b as nat }

  // Small sums of bytes do not wrap around.
  lemma {:induction false} SmallSum(x: bv8, y: bv8)
    requires y <= 8 && x <= 240
    ensures ToNat(Add8(x, y)) == ToNat(x) + ToNat(y)
    decreases y as nat
  {
    if y > 0 {
      Predecessor(y);
      SmallSum(x, y - 1);
      Successor(x + (y - 1));
      assert x + (y - 1) + 1 == x + y;
    }
  }

  // The number of bits of all bytes.
  function PopCount(s: Bytes): nat
  {
    if s == [] then 0 else PopCount(s[..|s| - 1]) + ByteCount(s[|s| - 1])
  }

  function Add8(a: bv8, b: bv8): bv8 { a + b }

  function SwarSum(s: Bytes): bv8
  {
    if s == [] then 0 else Add8(SwarSum(s[..|s| - 1]), Swar(s[|s| - 1]))
  }

  // 8 * n, for up to 28 bytes.
  function Limit(n: nat): bv8 { if n == 0 then 0 else Limit(n - 1) + 8 }

  lemma Limits(n: nat)
    requires 0 < n <= 28
    ensures Limit(n) == Add8(Limit(n - 1), 8) && Limit(n - 1) <= 216
  {
    assert Limit(4) == 32 by { assert Limit(2) == 16; }
    assert Limit(8) == 64 by { assert Limit(6) == 48; }
    assert Limit(12) == 96 by { assert Limit(10) == 80; }
    assert Limit(16) == 128 by { assert Limit(14) == 112; }
    assert Limit(20) == 160 by { assert Limit(18) == 144; }
    assert Limit(24) == 192 by { assert Limit(22) == 176; }
    assert Limit(27) == 216 by { assert Limit(26) == 208; }
  }

  lemma {:induction false} SwarSumCounts(s: Bytes)
    requires |s| <= 28
    ensures SwarSum(s) <= Limit(|s|) && ToNat(SwarSum(s)) == PopCount(s)
    decreases |s|
  {
    hide Swar, ByteCount, Limit, ToNat, Add8;
    if s == [] {
      LimitZero();
    } else {
      var (front, b) := (s[..|s| - 1], s[|s| - 1]);
      SwarSumCounts(front);
      Limits(|s|);
      SwarBound(b);
      SwarCounts(b);
      NoWrap(SwarSum(front), Limit(|s| - 1), Swar(b));
      SmallSum(SwarSum(front), Swar(b));
    }
  }

  lemma LimitZero()
    ensures Limit(0) == 0 && ToNat(0) == 0
  {}

  lemma NoWrap(x: bv8, l: bv8, y: bv8)
    requires x <= l <= 216 && y <= 8
    ensures Add8(x, y) <= Add8(l, 8) && x <= 240
  {}

  // A word as it is loaded from four bytes of memory.
  function Load(s: Bytes, i: nat): bv32
    requires i + 4 <= |s|
  {
    Join(s[i], s[i + 1], s[i + 2], s[i + 3])
  }

  function Join(a: bv8, b: bv8, c: bv8, d: bv8): bv32
  {
    (a as bv32) | ((b as bv32) << 8) | ((c as bv32) << 16) | ((d as bv32) << 24)
  }

  lemma JoinBytes(a: bv8, b: bv8, c: bv8, d: bv8)
    ensures var w := Join(a, b, c, d);
            Byte0(w) as bv8 == a && Byte1(w) as bv8 == b && Byte2(w) as bv8 == c && Byte3(w) as bv8 == d
  {}

  function Wide(b: bv8): bv32 { b as bv32 }

  function Narrow(a: bv32): bv8
    requires a < 0x100
  {
    a as bv8
  }

  // The bytes of a counted word are the counts of the bytes it was loaded from.
  lemma CountedJoin(a: bv8, b: bv8, c: bv8, d: bv8)
    ensures var w := Counted(Join(a, b, c, d));
            && Byte0(w) == Wide(Swar(a)) && Byte1(w) == Wide(Swar(b))
            && Byte2(w) == Wide(Swar(c)) && Byte3(w) == Wide(Swar(d)) && AtMost(w, 8)
  {
    hide Counted, Swar, Join, Byte0, Byte1, Byte2, Byte3;
    JoinBytes(a, b, c, d);
    CountedLow(Join(a, b, c, d));
    CountedHigh(Join(a, b, c, d));
    SwarBound(a);
    SwarBound(b);
    SwarBound(c);
    SwarBound(d);
  }

  lemma NarrowSum(a: bv8, b: bv8, c: bv8, d: bv8)
    requires a <= 8 && b <= 8 && c <= 8 && d <= 8
    ensures var w := Plus(Plus(Wide(d), Wide(c)), Plus(Wide(b), Wide(a)));
            w <= 32 && w < 0x100 && Narrow(w) == Add8(Add8(Add8(a, b), c), d)
  {
    PairNarrow(a, b);
    PairNarrow(c, d);
    NarrowTwo(Plus(Wide(d), Wide(c)), Plus(Wide(b), Wide(a)));
    hide Narrow, Plus, Add8, Wide;
    Add8Comm(c, d);
    Add8Comm(a, b);
    Add8Comm(Add8(d, c), Add8(b, a));
    Add8Assoc(Add8(a, b), c, d);
  }

  lemma PairNarrow(a: bv8, b: bv8)
    requires a <= 8 && b <= 8
    ensures var w := Plus(Wide(b), Wide(a)); w <= 16 && w < 0x100 && Narrow(w) == Add8(b, a)
  {}

  lemma NarrowTwo(x: bv32, y: bv32)
    requires x <= 16 && y <= 16
    ensures Plus(x, y) <= 32 && Plus(x, y) < 0x100 && Narrow(Plus(x, y)) == Add8(Narrow(x), Narrow(y))
  {}

  lemma Add8Comm(a: bv8, b: bv8)
    ensures Add8(a, b) == Add8(b, a)
  {}

  lemma NarrowPlus(x: bv32, y: bv32)
    requires x <= 192 && y <= 32
    ensures Plus(x, y) <= 224 && Plus(x, y) < 0x100 && Narrow(Plus(x, y)) == Add8(Narrow(x), Narrow(y))
  {}

  lemma Add8Assoc(x: bv8, a: bv8, b: bv8)
    ensures Add8(Add8(x, a), b) == Add8(x, Add8(a, b))
  {
    calc {
      Add8(Add8(x, a), b);
      Add8(x + a, b);
      (x + a) + b;
      x + (a + b);
      Add8(x, a + b);
      Add8(x, Add8(a, b));
    }
  }

  lemma Add8Four(x: bv8, a: bv8, b: bv8, c: bv8, d: bv8)
    ensures Add8(Add8(Add8(Add8(x, a), b), c), d) == Add8(x, Add8(Add8(Add8(a, b), c), d))
  {
    hide Add8;
    Add8Assoc(x, a, b);
    Add8Assoc(x, Add8(a, b), c);
    Add8Assoc(x, Add8(Add8(a, b), c), d);
  }

  lemma SwarSumFour(s: Bytes, t: Bytes)
    requires |t| == 4
    ensures SwarSum(s + t) ==
            Add8(Add8(Add8(Add8(SwarSum(s), Swar(t[0])), Swar(t[1])), Swar(t[2])), Swar(t[3]))
  {
    hide Swar, Add8;
    assert s + t == s + [t[0]] + [t[1]] + [t[2]] + [t[3]];
    SwarSumNext(s, t[0]);
    SwarSumNext(s + [t[0]], t[1]);
    SwarSumNext(s + [t[0]] + [t[1]], t[2]);
    SwarSumNext(s + [t[0]] + [t[1]] + [t[2]], t[3]);
  }

  lemma SwarSumNext(s: Bytes, b: bv8)
    ensures SwarSum(s + [b]) == Add8(SwarSum(s), Swar(b))
  {
    assert (s + [b])[..|s|] == s;
  }

  // 8 * k and 32 * k, for up to seven words.
  function Eights(k: nat): bv32
    requires k <= 7
  {
    if k == 0 then 0 else if k == 1 then 8 else if k == 2 then 16 else if k == 3 then 24
    else if k == 4 then 32 else if k == 5 then 40 else if k == 6 then 48 else 56
  }

  function ThirtyTwos(k: nat): bv32
    requires k <= 7
  {
    if k == 0 then 0 else if k == 1 then 32 else if k == 2 then 64 else if k == 3 then 96
    else if k == 4 then 128 else if k == 5 then 160 else if k == 6 then 192 else 224
  }

  // The sum `a` of `k` counted words stands for the bytes `s` they were loaded from.
  predicate StandsFor(a: bv32, s: Bytes, k: nat)
    requires k <= 7
  {
    AtMost(a, Eights(k)) && ByteSum(a) <= ThirtyTwos(k) && ByteSum(a) < 0x100 && Narrow(ByteSum(a)) == SwarSum(s)
  }

  lemma StepBytes(x: bv32, y: bv32, k: nat)
    requires k < 7 && AtMost(x, Eights(k)) && AtMost(y, 8)
    ensures AtMost(Plus(x, y), Eights(k + 1)) && ByteSum(Plus(x, y)) == Plus(ByteSum(x), ByteSum(y))
  {
    AddBytes(x, y, Eights(k));
    hide AtMost, ByteSum;
  }

  lemma StepSum(x: bv32, y: bv32, k: nat)
    requires k < 7 && x <= ThirtyTwos(k) && y <= 32
    ensures Plus(x, y) <= ThirtyTwos(k + 1) && Plus(x, y) < 0x100 && x < 0x100 && y < 0x100
    ensures Narrow(Plus(x, y)) == Add8(Narrow(x), Narrow(y))
  {
    NarrowPlus(x, y);
    hide Narrow, Add8;
  }

  lemma OneMoreWord(a: bv32, s: Bytes, t: Bytes, k: nat)
    requires |t| == 4 && k < 7 && StandsFor(a, s, k)
    ensures StandsFor(Plus(a, Counted(Load(t, 0))), s + t, k + 1)
  {
    hide Counted, Swar, Join, Byte0, Byte1, Byte2, Byte3, Plus, Wide, Narrow, Add8, AtMost, Eights, ThirtyTwos, SwarSum;
    var w := Counted(Load(t, 0));
    CountedJoin(t[0], t[1], t[2], t[3]);
    SwarBound(t[0]);
    SwarBound(t[1]);
    SwarBound(t[2]);
    SwarBound(t[3]);
    NarrowSum(Swar(t[0]), Swar(t[1]), Swar(t[2]), Swar(t[3]));
    StepBytes(a, w, k);
    StepSum(ByteSum(a), ByteSum(w), k);
    SwarSumFour(s, t);
    Add8Four(SwarSum(s), Swar(t[0]), Swar(t[1]), Swar(t[2]), Swar(t[3]));
  }

  lemma NoWords()
    ensures StandsFor(0, [], 0)
  {}

  lemma SevenWords(a: bv32, s: Bytes)
    requires |s| == 28 && StandsFor(a, s, 7)
    ensures Total(a) < 0x100 && ToNat(Narrow(Total(a))) == PopCount(s)
  {
    TotalIsSum(a);
    SwarSumCounts(s);
    hide Total, ByteSum, AtMost, Narrow, SwarSum, ToNat;
  }

  // ---------- the methods ----------

  lemma PopNext(s: Bytes, i: nat)
    requires i < |s|
    ensures PopCount(s[..i + 1]) == PopCount(s[..i]) + ByteCount(s[i])
  {
    assert s[..i + 1][..i] == s[..i];
    hide ByteCount;
  }

  lemma {:induction false} PopConcat(a: Bytes, b: Bytes)
    ensures PopCount(a + b) == PopCount(a) + PopCount(b)
    decreases |b|
  {
    hide ByteCount;
    if b == [] {
      assert a + b == a;
    } else {
      assert (a + b)[..|a + b| - 1] == a + b[..|b| - 1];
      PopConcat(a, b[..|b| - 1]);
    }
  }

  // The body of the loop that takes 28 bytes at a time.
  method Count28(s: Bytes) returns (bits: nat)
    requires |s| == 28
    ensures bits == PopCount(s)
  {
    hide *;
    var sum: bv32 := 0;
    NoWords();
    for k := 0 to 7
      invariant StandsFor(sum, s[..4 * k], k)
    {
      var aux := Load(s, 4 * k);
      LoadSlice(s, 4 * k);
      OneMoreWord(sum, s[..4 * k], s[4 * k..4 * k + 4], k);
      assert s[..4 * k] + s[4 * k..4 * k + 4] == s[..4 * (k + 1)];
      aux := Pairs(aux);
      aux := Nibbles(aux);
      aux := Lanes(aux);
      CountedIs(Load(s, 4 * k));
      sum := Plus(sum, aux);
    }
    assert s[..28] == s;
    SevenWords(sum, s);
    bits := ToNat(Narrow(Total(sum)));
  }

  lemma LoadSlice(s: Bytes, i: nat)
    requires i + 4 <= |s|
    ensures Load(s[i..i + 4], 0) == Load(s, i)
  {
    hide Join;
  }

  lemma CountedIs(a: bv32)
    ensures Counted(a) == Lanes(Nibbles(Pairs(a)))
  {
    hide Lanes, Nibbles, Pairs;
  }

  // redisPopcount: `address` is where the buffer starts, which decides how many bytes go first one by one.
  method RedisPopcount(s: Bytes, address: nat) returns (bits: nat)
    ensures bits == PopCount(s)
  {
    hide *;
    bits := 0;
    var p, count := 0, |s|;
    PopNone(s);
    while (address + p) % 4 != 0 && count > 0
      invariant 0 <= count && p + count == |s| && bits == PopCount(s[..p])
      decreases count
    {
      TableExact(s[p]);
      PopNext(s, p);
      bits := bits + InTable(s[p]);
      p, count := p + 1, count - 1;
    }
    while count >= 28
      invariant 0 <= count && p + count == |s| && bits == PopCount(s[..p])
    {
      PopConcat(s[..p], s[p..p + 28]);
      assert s[..p] + s[p..p + 28] == s[..p + 28];
      var more := Count28(s[p..p + 28]);
      bits := bits + more;
      p, count := p + 28, count - 28;
    }
    while count > 0
      invariant 0 <= count && p + count == |s| && bits == PopCount(s[..p])
    {
      TableExact(s[p]);
      PopNext(s, p);
      bits := bits + InTable(s[p]);
      p, count := p + 1, count - 1;
    }
    assert s[..|s|] == s;
  }

  lemma PopNone(s: Bytes)
    ensures PopCount(s[..0]) == 0
  {}

  // ---------- ranges ----------

  lemma BitsOfByte(s: Bytes, i: nat, k: nat)
    requires i < |s| && k < 8
    ensures BitAt(s, 8 * i + k) == BitOf(s[i], k)
  {
    assert (8 * i + k) / 8 == i && (8 * i + k) % 8 == k;
  }

  // A byte counts the eight bits it holds.
  lemma CountByte(s: Bytes, i: nat)
    requires i < |s|
    ensures CountIn(s, 8 * i, 8 * i + 8) == ByteCount(s[i])
  {
    hide BitAt, BitOf, CountIn;
    NoneThere(s, 8 * i);
    NextBit(s, i, 0);
    NextBit(s, i, 1);
    NextBit(s, i, 2);
    NextBit(s, i, 3);
    NextBit(s, i, 4);
    NextBit(s, i, 5);
    NextBit(s, i, 6);
    NextBit(s, i, 7);
  }

  lemma NextBit(s: Bytes, i: nat, k: nat)
    requires i < |s| && k < 8
    ensures CountIn(s, 8 * i, 8 * i + (k + 1)) == CountIn(s, 8 * i, 8 * i + k) + Bit(BitOf(s[i], k))
  {
    BitsOfByte(s, i, k);
    hide BitAt, BitOf;
  }

  lemma {:induction false} PopIsCount(s: Bytes)
    ensures PopCount(s) == CountIn(s, 0, 8 * |s|)
    decreases |s|
  {
    hide ByteCount, BitAt;
    if s != [] {
      var n := |s| - 1;
      var front := s[..n];
      PopIsCount(front);
      forall i: nat | 0 <= i < 8 * n
        ensures BitAt(front, i) == BitAt(s, i + 0)
      {
        SameBits(s, n, i);
      }
      CountShift(s, front, 0, 8 * n, 0);
      CountByte(s, n);
      CountSplit(s, 0, 8 * n, 8 * n + 8);
    }
  }

  lemma SameBits(s: Bytes, n: nat, i: nat)
    requires n <= |s| && i < 8 * n
    ensures BitAt(s[..n], i) == BitAt(s, i)
  {}

  // Whole bytes in the middle of a string.
  lemma SliceCount(p: Bytes, t: Bytes, i: nat, n: nat)
    requires i + n <= |p| && t == p[i..i + n]
    ensures PopCount(t) == CountIn(p, 8 * i, 8 * (i + n))
  {
    hide BitOf, PopCount, CountIn;
    PopIsCount(t);
    forall k: nat | k < 8 * n
      ensures BitAt(t, k) == BitAt(p, k + 8 * i)
    {
      assert (k + 8 * i) / 8 == i + k / 8 && (k + 8 * i) % 8 == k % 8;
    }
    hide BitAt;
    CountShift(p, t, 0, 8 * n, 8 * i);
    assert 8 * n + 8 * i == 8 * (i + n) && 0 + 8 * i == 8 * i;
  }

  lemma {:induction false} CountNone(s: Bytes, lo: nat, hi: nat)
    requires forall i: nat | lo <= i < hi :: !BitAt(s, i)
    ensures CountIn(s, lo, hi) == 0
    decreases hi
  {
    hide BitAt;
    if lo < hi {
      CountNone(s, lo, hi - 1);
    }
  }

  // A byte of which only the bits from `x` to before `y` are left.
  lemma MaskedCount(p: Bytes, i: nat, m: bv8, x: nat, y: nat)
    requires i < |p| && x <= y <= 8
    requires forall k: nat | k < 8 :: BitOf(m, k) <==> x <= k < y && BitOf(p[i], k)
    ensures ByteCount(m) == CountIn(p, 8 * i + x, 8 * i + y)
  {
    hide BitOf, ByteCount, CountIn;
    var t := [m];
    forall k: nat | k < 8
      ensures BitAt(t, k) <==> x <= k < y && BitAt(p, k + 8 * i)
    {
      BitsOfByte(t, 0, k);
      BitsOfByte(p, i, k);
    }
    hide BitAt;
    CountByte(t, 0);
    CountNone(t, 0, x);
    CountNone(t, y, 8);
    CountSplit(t, 0, x, 8);
    CountSplit(t, x, y, 8);
    CountShift(p, t, x, y, 8 * i);
    assert x + 8 * i == 8 * i + x && y + 8 * i == 8 * i + y;
  }

  // The bits of the first byte before bit `x` ...
  lemma FirstEdge(p: Bytes, i: nat, x: nat)
    requires i < |p| && x < 8
    ensures ByteCount(p[i] & FirstMask(x)) == CountIn(p, 8 * i, 8 * i + x)
  {
    hide BitOf, FirstMask, LastMask, ByteCount, CountIn;
    var m := p[i] & FirstMask(x);
    forall k: nat | k < 8
      ensures BitOf(m, k) <==> 0 <= k < x && BitOf(p[i], k)
    {
      AndAt(p[i], FirstMask(x), k);
      MasksAt(x, k);
    }
    MaskedCount(p, i, m, 0, x);
  }

  // ... and those of the last byte behind bit `y`.
  lemma LastEdge(p: Bytes, i: nat, y: nat)
    requires i < |p| && y < 8
    ensures ByteCount(p[i] & LastMask(y)) == CountIn(p, 8 * i + y + 1, 8 * i + 8)
  {
    hide BitOf, FirstMask, LastMask, ByteCount, CountIn;
    var m := p[i] & LastMask(y);
    forall k: nat | k < 8
      ensures BitOf(m, k) <==> y + 1 <= k < 8 && BitOf(p[i], k)
    {
      AndAt(p[i], LastMask(y), k);
      MasksAt(y, k);
    }
    MaskedCount(p, i, m, y + 1, 8);
  }

  lemma MasksNone()
    ensures FirstMask(0) == 0 && LastMask(7) == 0
    ensures forall k: nat | 0 < k < 8 :: FirstMask(k) != 0
    ensures forall k: nat | k < 7 :: LastMask(k) != 0
    ensures ByteCount(0) == 0
  {}

  lemma TwoBytes(a: bv8, b: bv8)
    ensures PopCount([a, b]) == ByteCount(a) + ByteCount(b)
  {
    assert [a, b][..1] == [a] && [a][..0] == [];
    hide ByteCount;
    assert PopCount([a]) == ByteCount(a);
  }

  // ---------- the command ----------

  // What BITCOUNT answers.
  function Answer(o: Option<Bytes>, range: Option<(int, int)>, isbit: bool): nat
  {
    match o
    case None => 0
    case Some(p) =>
      match range
      case None => CountIn(p, 0, 8 * |p|)
      case Some((start, end)) =>
        var (a, b) := Normalized(if isbit then 8 * |p| else |p|, start, end);
        if (start < 0 && end < 0 && start > end) || a > b || a < 0 then 0
        else if isbit then CountIn(p, a, b + 1)
        else CountIn(p, 8 * a, 8 * b + 8)
  }

  // Bit `i` is in the range asked for, which counts bytes or bits; a range of negative indices that is the wrong way
  // round is empty even where both of them lie before the string.
  predicate Asked(p: Bytes, range: Option<(int, int)>, isbit: bool, i: nat)
  {
    && i < 8 * |p|
    && (range.Some? ==>
          var (start, end) := range.value;
          var (s, e) := Normalized(if isbit then 8 * |p| else |p|, start, end);
          s <= (if isbit then i else i / 8) <= e && !(end < start < 0))
  }

  // It is the number of bits asked for that are set.
  lemma AnswerMeans(p: Bytes, range: Option<(int, int)>, isbit: bool)
    ensures Answer(Some(p), range, isbit) == |set i | 0 <= i < 8 * |p| && Asked(p, range, isbit, i) && BitAt(p, i)|
    ensures Answer(None, range, isbit) == 0
  {
    hide CountIn, BitAt;
    var ones := set i | 0 <= i < 8 * |p| && Asked(p, range, isbit, i) && BitAt(p, i);
    var (start, end) := if range.Some? then range.value else (0, -1);
    var (a, b) := Normalized(if isbit then 8 * |p| else |p|, start, end);
    if (start < 0 && end < 0 && start > end) || a > b || a < 0 {
      assert ones == {};
      if range.None? {
        NoneThere(p, 0);
      }
    } else {
      var (lo, hi) :=
        if range.None? then (0, 8 * |p|) else if isbit then (a, b + 1) else (8 * a, 8 * b + 8);
      CountIsSize(p, lo, hi);
      assert ones == OnesIn(p, lo, hi);
    }
  }

  // Counting whole bytes and taking away the bits of the edges.
  method CountRange(p: Bytes, address: nat, lo: nat, hi: nat) returns (count: int)
    requires lo < hi <= 8 * |p|
    ensures count == CountIn(p, lo, hi)
  {
    hide BitOf, FirstMask, LastMask, ByteCount, CountIn, PopCount;
    var start, end := lo / 8, (hi - 1) / 8;
    var x, y := lo % 8, (hi - 1) % 8;
    var first, last := FirstMask(x), LastMask(y);
    MasksNone();
    FirstEdge(p, start, x);
    LastEdge(p, end, y);
    CountSplit(p, 8 * start, lo, 8 * (end + 1));
    CountSplit(p, lo, hi, 8 * (end + 1));
    var bytes := end - start + 1;
    count := RedisPopcount(p[start..start + bytes], address + start);
    SliceCount(p, p[start..start + bytes], start, bytes);
    NoneThere(p, 8 * start);
    NoneThere(p, hi);
    if first != 0 || last != 0 {
      var firstlast0, firstlast1: bv8 := 0, 0;
      if first != 0 {
        firstlast0 := p[start] & first;
      }
      if last != 0 {
        firstlast1 := p[end] & last;
      }
      var edges := RedisPopcount([firstlast0, firstlast1], address);
      TwoBytes(firstlast0, firstlast1);
      count := count - edges;
    }
  }

  lemma NoneThere(p: Bytes, i: nat)
    ensures CountIn(p, i, i) == 0
  {}

  // bitcountCommand from the parsed arguments on
  method BitcountCommand(o: Option<Bytes>, address: nat, range: Option<(int, int)>, isbit: bool) returns (count: int)
    ensures count == Answer(o, range, isbit)
  {
    hide CountIn;
    var p := if o.None? then [] else o.value;
    var start, end;
    if range.Some? {
      start, end := range.value.0, range.value.1;
      var totlen := |p|;
      if start < 0 && end < 0 && start > end {
        return 0;
      }
      if isbit {
        totlen := totlen * 8;
      }
      if start < 0 {
        start := totlen + start;
      }
      if end < 0 {
        end := totlen + end;
      }
      if start < 0 {
        start := 0;
      }
      if end < 0 {
        end := 0;
      }
      if end >= totlen {
        end := totlen - 1;
      }
    } else {
      start, end := 0, |p| - 1;
    }
    if o.None? {
      return 0;
    }
    if start > end {
      if p == [] {
        NoneThere(p, 0);
      }
      return 0;
    }
    var bits := range.Some? && isbit;
    count := CountRange(p, address, if bits then start else 8 * start, if bits then end + 1 else 8 * end + 8);
  }
}
