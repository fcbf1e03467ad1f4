// A string as an infinite, zero-padded array of bits: bit 0 is the most significant bit of the first byte.
module Bits {
  type Bytes = seq<bv8>

  // The mask of bit `k` of a byte, counted from the most significant one.
  function Mask(k: nat): bv8
    requires k < 8
  {
    if k == 0 then 0x80
    else if k == 1 then 0x40
    else if k == 2 then 0x20
    else if k == 3 then 0x10
    else if k == 4 then 0x08
    else if k == 5 then 0x04
    else if k == 6 then 0x02
    else 0x01
  }

  predicate BitOf(b: bv8, k: nat)
    requires k < 8
  {
    b & Mask(k) != 0
  }

  // Half a byte as an index.
  function Nibble(b: bv8): (n: nat)
    requires b < 16
    ensures n < 16
  {
    NibbleBound(b);
    b as nat
  }

  lemma NibbleBound(b: bv8)
    requires b < 16
    ensures b as nat < 16
  {}

  // Bit `k` of a byte made `on`.
  function WithBit(b: bv8, k: nat, on: bool): bv8
    requires k < 8
  {
    (b & !Mask(k)) | (if on then Mask(k) else 0)
  }

  predicate BitAt(s: Bytes, i: nat) { i / 8 < |s| && BitOf(s[i / 8], i % 8) }

  // Byte `i` of the string, zero behind it.
  function Padded(s: Bytes, i: nat): bv8 { if i < |s| then s[i] else 0 }

  // The positions of the bits that are set.
  function Ones(s: Bytes): set<nat> { set i | 0 <= i < 8 * |s| && BitAt(s, i) }

  lemma InOnes(s: Bytes, i: nat)
    ensures i in Ones(s) <==> BitAt(s, i)
  {}

  lemma WithBitAt(b: bv8, k: nat, on: bool, j: nat)
    requires k < 8 && j < 8
    ensures BitOf(WithBit(b, k, on), j) == if j == k then on else BitOf(b, j)
  {
    if j == k {
      assert ((b & !Mask(k)) | Mask(k)) & Mask(k) == Mask(k);
      assert ((b & !Mask(k)) | 0) & Mask(k) == 0;
    } else {
      MasksApart(j, k);
      OtherBit(b, Mask(k), Mask(j));
    }
  }

  lemma MasksApart(j: nat, k: nat)
    requires j < 8 && k < 8 && j != k
    ensures Mask(j) & Mask(k) == 0
  {}

  lemma OtherBit(b: bv8, m: bv8, n: bv8)
    requires n & m == 0
    ensures ((b & !m) | m) & n == b & n && ((b & !m) | 0) & n == b & n
  {}

  // ---------- numbers ----------

  function Pow2(n: nat): (p: nat)
    ensures p > 0
  {
    if n == 0 then 1 else 2 * Pow2(n - 1)
  }

  lemma {:induction false} PowMonotone(a: nat, b: nat)
    requires a <= b
    ensures Pow2(a) <= Pow2(b)
    decreases b
  {
    if a < b {
      PowMonotone(a, b - 1);
    }
  }

  // v & ((uint64_t)1 << k) is not zero
  predicate TestBit(v: nat, k: nat) { v / Pow2(k) % 2 == 1 }

  function Bit(on: bool): nat { if on then 1 else 0 }

  // The number in the `n` bits from `offset`, most significant first.
  function Field(ones: set<nat>, offset: nat, n: nat): nat
  {
    if n == 0 then 0 else 2 * Field(ones, offset, n - 1) + Bit(offset + n - 1 in ones)
  }

  function Inside(ones: set<nat>, offset: nat, n: nat): set<nat> { set i | i in ones && offset <= i < offset + n }

  // Bit `i` of the array, where the `n` bits from `offset` hold `v`.
  predicate PlacedAt(offset: nat, n: nat, v: nat, i: nat)
    requires offset <= i < offset + n
  {
    TestBit(v, offset + n - 1 - i)
  }

  // The bits of `v` put into the `n` places from `offset`.
  function Placed(offset: nat, n: nat, v: nat): set<nat>
  {
    set i | offset <= i < offset + n && PlacedAt(offset, n, v, i)
  }

  // The number `v` stored in the `n` bits from `offset`, every other bit as it was.
  function Store(ones: set<nat>, offset: nat, n: nat, v: nat): set<nat>
  {
    (ones - Inside(ones, offset, n)) + Placed(offset, n, v)
  }

  lemma {:induction false} FieldBound(ones: set<nat>, offset: nat, n: nat)
    ensures Field(ones, offset, n) < Pow2(n)
    decreases n
  {
    if n > 0 {
      FieldBound(ones, offset, n - 1);
    }
  }

  lemma {:induction false} SameField(a: set<nat>, b: set<nat>, offset: nat, n: nat)
    requires forall i | offset <= i < offset + n :: i in a <==> i in b
    ensures Field(a, offset, n) == Field(b, offset, n)
    decreases n
  {
    if n > 0 {
      SameField(a, b, offset, n - 1);
    }
  }

  lemma HalveQuotient(v: nat, p: nat)
    requires p > 0
    ensures v / (2 * p) == v / p / 2
  {
    var q := v / p;
    var r := v % p;
    assert v == q * p + r;
    var h := q / 2;
    assert q == 2 * h + q % 2;
    assert v == h * (2 * p) + (q % 2) * p + r;
    var rest := (q % 2) * p + r;
    assert 0 <= rest < 2 * p;
    Quotient(v, 2 * p, h, rest);
  }

  lemma Quotient(v: nat, d: nat, q: nat, r: nat)
    requires d > 0 && v == q * d + r && r < d
    ensures v / d == q && v % d == r
  {
    var k := v / d - q;
    assert v == v / d * d + v % d;
    assert k * d == v / d * d - q * d;
    Multiple(k, d);
  }

  lemma Multiple(k: int, d: int)
    requires d > 0
    ensures k >= 1 ==> k * d >= d
    ensures k <= -1 ==> k * d <= -d
    ensures k == 0 ==> k * d == 0
  {}

  lemma HalveFirst(v: nat, p: nat)
    requires p > 0
    ensures v / (2 * p) == v / 2 / p
  {
    var (h, q) := (v / 2, v / 2 / p);
    assert h == q * p + h % p;
    assert v == q * (2 * p) + (2 * (h % p) + v % 2);
    Quotient(v, 2 * p, q, 2 * (h % p) + v % 2);
  }

  // The leading `m` of the `n` low bits of `v` are the number without its last `n - m` bits.
  lemma {:induction false} PlacedField(offset: nat, n: nat, v: nat, m: nat)
    requires m <= n
    ensures Field(Placed(offset, n, v), offset, m) == v / Pow2(n - m) % Pow2(m)
    decreases m
  {
    hide Placed, Pow2, PlacedAt;
    if m == 0 {
      assert Pow2(0) == 1 by { PowZero(); }
    }
    if m > 0 {
      PlacedField(offset, n, v, m - 1);
      NextPlaced(v, Pow2(n - m), Pow2(m - 1));
      var i := offset + m - 1;
      InPlaced(offset, n, v, i);
      LastPlaced(offset, n, v, m);
    }
  }

  lemma PowZero()
    ensures Pow2(0) == 1
  {}

  lemma InPlaced(offset: nat, n: nat, v: nat, i: nat)
    requires offset <= i < offset + n
    ensures i in Placed(offset, n, v) <==> PlacedAt(offset, n, v, i)
  {}

  lemma LastPlaced(offset: nat, n: nat, v: nat, m: nat)
    requires 0 < m <= n
    ensures Bit(PlacedAt(offset, n, v, offset + m - 1)) == v / Pow2(n - m) % 2
    ensures Pow2(n - m + 1) == 2 * Pow2(n - m) && Pow2(m) == 2 * Pow2(m - 1)
  {}

  lemma NextPlaced(v: nat, x: nat, y: nat)
    requires x > 0 && y > 0
    ensures 2 * (v / (2 * x) % y) + v / x % 2 == v / x % (2 * y)
  {
    HalveQuotient(v, x);
    DoubleRemainder(v / x, y);
  }

  lemma DoubleRemainder(q: nat, p: nat)
    requires p > 0
    ensures 2 * (q / 2 % p) + q % 2 == q % (2 * p)
  {
    var (h, k) := (q / 2, q / 2 / p);
    assert h == k * p + h % p;
    assert q == 2 * h + q % 2;
    assert q == k * (2 * p) + (2 * (h % p) + q % 2);
    Quotient(q, 2 * p, k, 2 * (h % p) + q % 2);
  }

  // What is stored is read back, as far as it fits; what lies outside is as before.
  lemma FieldOfStore(ones: set<nat>, offset: nat, n: nat, v: nat)
    ensures Field(Store(ones, offset, n, v), offset, n) == v % Pow2(n)
  {
    SameField(Store(ones, offset, n, v), Placed(offset, n, v), offset, n);
    PlacedField(offset, n, v, n);
    assert v / Pow2(0) == v;
  }

  lemma FieldElsewhere(ones: set<nat>, offset: nat, n: nat, v: nat, at: nat, m: nat)
    requires at + m <= offset || offset + n <= at
    ensures Field(Store(ones, offset, n, v), at, m) == Field(ones, at, m)
  {
    SameField(Store(ones, offset, n, v), ones, at, m);
  }

  // Only the low `n` bits of a number are stored.
  lemma {:induction false} TestBitLow(v: nat, n: nat, k: nat)
    requires k < n
    ensures TestBit(v % Pow2(n), k) == TestBit(v, k)
    decreases k
  {
    var r := v % Pow2(n);
    DoubleRemainder(v, Pow2(n - 1));
    assert r == 2 * (v / 2 % Pow2(n - 1)) + v % 2;
    if k == 0 {
      assert v / Pow2(0) == v && r / Pow2(0) == r;
    } else {
      assert r / 2 == v / 2 % Pow2(n - 1);
      HalveFirst(r, Pow2(k - 1));
      HalveFirst(v, Pow2(k - 1));
      TestBitLow(v / 2, n - 1, k - 1);
    }
  }

  lemma {:induction false} PowSplit(a: nat, b: nat)
    ensures Pow2(a + b) == Pow2(a) * Pow2(b)
    decreases b
  {
    if b > 0 {
      PowSplit(a, b - 1);
    }
  }

  lemma StoreLow(ones: set<nat>, offset: nat, n: nat, v: nat)
    ensures Store(ones, offset, n, v % Pow2(n)) == Store(ones, offset, n, v)
  {
    forall i | offset <= i < offset + n
      ensures PlacedAt(offset, n, v % Pow2(n), i) == PlacedAt(offset, n, v, i)
    {
      TestBitLow(v, n, offset + n - 1 - i);
    }
    assert Placed(offset, n, v % Pow2(n)) == Placed(offset, n, v);
  }
}
