// BITPOS of bitops.c, and the search it rests on.
module BitPos {
  import opened Bits
  import opened BitRange
  import opened Options

  // The first bit equal to `bit` among those from `lo` up to but not including `hi`, or -1.
  function FirstIn(s: Bytes, bit: bool, lo: nat, hi: nat): int
    decreases hi - lo
  {
    if lo >= hi then -1 else if BitAt(s, lo) == bit then lo else FirstIn(s, bit, lo + 1, hi)
  }

  // That is what it is: the least such bit.
  lemma {:induction false} FirstInLeast(s: Bytes, bit: bool, lo: nat, hi: nat)
    ensures var r := FirstIn(s, bit, lo, hi);
            && (r == -1 <==> forall i | lo <= i < hi :: BitAt(s, i) != bit)
            && (r != -1 ==> lo <= r < hi && BitAt(s, r) == bit && forall i | lo <= i < r :: BitAt(s, i) != bit)
    decreases hi - lo
  {
    if lo < hi {
      FirstInLeast(s, bit, lo + 1, hi);
    }
  }

  lemma {:induction false} FirstInSplit(s: Bytes, bit: bool, lo: nat, mid: nat, hi: nat)
    requires lo <= mid <= hi
    ensures FirstIn(s, bit, lo, hi) ==
            if FirstIn(s, bit, lo, mid) != -1 then FirstIn(s, bit, lo, mid) else FirstIn(s, bit, mid, hi)
    decreases mid - lo
  {
    hide BitAt;
    if lo < mid {
      FirstInSplit(s, bit, lo + 1, mid, hi);
    }
  }

  // The same search elsewhere, `dist` bits further on.
  lemma {:induction false} FirstInShift(s: Bytes, t: Bytes, bit: bool, lo: nat, hi: nat, dist: nat)
    requires forall i | lo <= i < hi :: BitAt(t, i) == BitAt(s, i + dist)
    ensures var r := FirstIn(t, bit, lo, hi);
            FirstIn(s, bit, lo + dist, hi + dist) == if r == -1 then -1 else r + dist
    decreases hi - lo
  {
    hide BitAt;
    if lo < hi {
      FirstInShift(s, t, bit, lo + 1, hi, dist);
    }
  }

  // What redisBitpos promises: -1 only for a set bit; a clear bit is found behind the string at the latest.
  function Position(s: Bytes, bit: bool): int
  {
    var r := FirstIn(s, bit, 0, 8 * |s|);
    if r == -1 && !bit then 8 * |s| else r
  }

  // ---------- the search ----------

  function SkipByte(bit: bool): bv8 { if bit then 0x00 else 0xff }

  // A word of `w` bytes, the size of an unsigned long.
  predicate Word(s: Bytes, i: nat, b: bv8, w: nat)
    requires i + w <= |s|
  {
    forall k | i <= k < i + w :: s[k] == b
  }

  lemma SkipBits(b: bv8, bit: bool, k: nat)
    requires k < 8 && b == SkipByte(bit)
    ensures BitOf(b, k) != bit
  {}

  lemma OtherBits(b: bv8, bit: bool)
    requires b != SkipByte(bit)
    ensures exists k | 0 <= k < 8 :: BitOf(b, k) == bit
  {
    assert BitOf(b, 0) == bit || BitOf(b, 1) == bit || BitOf(b, 2) == bit || BitOf(b, 3) == bit ||
           BitOf(b, 4) == bit || BitOf(b, 5) == bit || BitOf(b, 6) == bit || BitOf(b, 7) == bit;
  }

  lemma SkippedByte(s: Bytes, bit: bool, i: nat)
    requires i < |s| && s[i] == SkipByte(bit)
    ensures FirstIn(s, bit, 8 * i, 8 * i + 8) == -1
  {
    FirstInLeast(s, bit, 8 * i, 8 * i + 8);
    forall j | 8 * i <= j < 8 * i + 8
      ensures BitAt(s, j) != bit
    {
      SkipBits(s[i], bit, j % 8);
    }
  }

  lemma {:induction false} SkippedWord(s: Bytes, bit: bool, i: nat, n: nat)
    requires i + n <= |s| && forall k | i <= k < i + n :: s[k] == SkipByte(bit)
    ensures FirstIn(s, bit, 8 * i, 8 * (i + n)) == -1
    decreases n
  {
    if n > 0 {
      SkippedWord(s, bit, i, n - 1);
      SkippedByte(s, bit, i + n - 1);
      FirstInSplit(s, bit, 8 * i, 8 * (i + n - 1), 8 * (i + n));
    }
  }

  lemma PaddedBit(s: Bytes, i: nat, k: nat)
    requires k < 8
    ensures BitAt(s, 8 * i + k) == BitOf(Padded(s, i), k)
  {
    assert (8 * i + k) / 8 == i && (8 * i + k) % 8 == k;
    assert !BitOf(0, k);
  }

  // The value of a byte is that of its bits.
  lemma ByteValue(b: bv8)
    ensures b as nat == 128 * Bit(BitOf(b, 0)) + 64 * Bit(BitOf(b, 1)) + 32 * Bit(BitOf(b, 2)) + 16 * Bit(BitOf(b, 3)) +
                        8 * Bit(BitOf(b, 4)) + 4 * Bit(BitOf(b, 5)) + 2 * Bit(BitOf(b, 6)) + Bit(BitOf(b, 7))
  {}

  lemma Halved(v: nat, k: nat)
    ensures TestBit(v, k + 1) == TestBit(v / 2, k)
    ensures TestBit(v, 0) == (v % 2 == 1)
  {
    HalveFirst(v, Pow2(k));
    assert v / Pow2(0) == v;
  }

  // The number in the first `n` bits of a byte.
  function Leading(b: bv8, n: nat): nat
    requires n <= 8
  {
    if n == 0 then 0 else 2 * Leading(b, n - 1) + Bit(BitOf(b, n - 1))
  }

  lemma {:induction false} LeadingTest(b: bv8, n: nat, k: nat)
    requires k < n <= 8
    ensures TestBit(Leading(b, n), n - 1 - k) == BitOf(b, k)
    decreases n
  {
    hide BitOf, TestBit;
    var v := Leading(b, n);
    assert v / 2 == Leading(b, n - 1);
    if k == n - 1 {
      Halved(v, 0);
    } else {
      Halved(v, n - 2 - k);
      LeadingTest(b, n - 1, k);
    }
  }

  lemma ByteIsLeading(b: bv8)
    ensures Leading(b, 8) == b as nat
  {
    ByteValue(b);
    hide BitOf;
    assert Leading(b, 2) == 2 * Bit(BitOf(b, 0)) + Bit(BitOf(b, 1)) by { assert Leading(b, 1) == Bit(BitOf(b, 0)); }
    assert Leading(b, 4) == 4 * Leading(b, 2) + 2 * Bit(BitOf(b, 2)) + Bit(BitOf(b, 3));
    assert Leading(b, 6) == 4 * Leading(b, 4) + 2 * Bit(BitOf(b, 4)) + Bit(BitOf(b, 5));
    assert Leading(b, 8) == 4 * Leading(b, 6) + 2 * Bit(BitOf(b, 6)) + Bit(BitOf(b, 7));
  }

  lemma ByteTest(b: bv8, k: nat)
    requires k < 8
    ensures TestBit(b as nat, 7 - k) == BitOf(b, k)
  {
    ByteIsLeading(b);
    LeadingTest(b, 8, k);
  }

  // The word made of `n` bytes from byte `i`, the first one most significant, zero behind the string.
  function Loaded(s: Bytes, i: nat, n: nat): nat
  {
    if n == 0 then 0 else 256 * Loaded(s, i, n - 1) + Padded(s, i + n - 1) as nat
  }

  lemma PushedByte(x: nat, c: nat, k: nat)
    requires c < 256
    ensures TestBit(256 * x + c, k + 8) == TestBit(x, k)
    ensures k < 8 ==> TestBit(256 * x + c, k) == TestBit(c, k)
  {
    hide TestBit, Pow2;
    var v := 256 * x + c;
    SixteenDown(v, k + 4);
    SixteenDown(v / 16, k);
    assert v / 16 / 16 == x;
    if k < 8 {
      TestBitLow(v, 8, k);
      TwoToEight();
    }
  }

  lemma TwoToEight()
    ensures Pow2(8) == 256
  {
    PowSplit(4, 4);
  }

  lemma SixteenDown(v: nat, k: nat)
    ensures TestBit(v, k + 4) == TestBit(v / 16, k)
  {
    hide TestBit;
    Halved(v, k + 3);
    Halved(v / 2, k + 2);
    Halved(v / 2 / 2, k + 1);
    Halved(v / 2 / 2 / 2, k);
    assert v / 2 / 2 / 2 / 2 == v / 16;
  }

  lemma {:induction false} LoadedBit(s: Bytes, i: nat, n: nat, t: nat)
    requires t < 8 * n
    ensures TestBit(Loaded(s, i, n), 8 * n - 1 - t) == BitAt(s, 8 * i + t)
    decreases n
  {
    hide TestBit, BitAt, BitOf, Padded;
    var (x, b) := (Loaded(s, i, n - 1), Padded(s, i + n - 1));
    if t < 8 * (n - 1) {
      LoadedBit(s, i, n - 1, t);
      PushedByte(x, b as nat, 8 * (n - 1) - 1 - t);
    } else {
      var k := t - 8 * (n - 1);
      PushedByte(x, b as nat, 7 - k);
      ByteTest(b, k);
      PaddedBit(s, i + n - 1, k);
    }
  }

  lemma {:induction false} LoadedBound(s: Bytes, i: nat, n: nat)
    ensures Loaded(s, i, n) < Pow2(8 * n)
    decreases n
  {
    if n > 0 {
      LoadedBound(s, i, n - 1);
      PowSplit(8 * (n - 1), 8);
      assert Pow2(8) == 256 by { PowSplit(4, 4); }
      hide Padded;
    }
  }

  // A number without bits is zero.
  lemma {:induction false} NoBitsZero(w: nat, n: nat)
    requires w < Pow2(n) && forall k | 0 <= k < n :: !TestBit(w, k)
    ensures w == 0
    decreases n
  {
    if n > 0 {
      assert !TestBit(w, 0);
      assert w / Pow2(0) == w;
      forall k | 0 <= k < n - 1
        ensures !TestBit(w / 2, k)
      {
        assert !TestBit(w, k + 1);
        HalveFirst(w, Pow2(k));
      }
      NoBitsZero(w / 2, n - 1);
    }
  }

  // Where the search for words has stopped, at byte `c`: the word there holds the bit, or the string ends within it.
  predicate Stopped(s: Bytes, bit: bool, c: nat, w: nat)
  {
    && c <= |s| && FirstIn(s, bit, 0, 8 * c) == -1
    && ((exists k | c <= k < c + w && k < |s| :: s[k] != SkipByte(bit)) || |s| < c + w)
  }

  lemma BitInWord(s: Bytes, bit: bool, c: nat, k: nat, w: nat) returns (t: nat)
    requires c <= k < c + w && k < |s| && s[k] != SkipByte(bit)
    ensures t < 8 * w && 8 * c + t < 8 * |s| && BitAt(s, 8 * c + t) == bit
  {
    OtherBits(s[k], bit);
    var j :| 0 <= j < 8 && BitOf(s[k], j) == bit;
    t := 8 * (k - c) + j;
    PaddedBit(s, k, j);
    assert 8 * c + t == 8 * k + j;
  }

  // Bit `t` of the word at byte `c`.
  predicate At(s: Bytes, c: nat, t: nat) { BitAt(s, 8 * c + t) }

  // The first match in the word is the position.
  lemma FoundInWord(s: Bytes, bit: bool, c: nat, t: nat, w: nat)
    requires Stopped(s, bit, c, w) && t < 8 * w && At(s, c, t) == bit
    requires forall u | 0 <= u < t :: At(s, c, u) != bit
    requires bit ==> 8 * c + t < 8 * |s|
    ensures Position(s, bit) == 8 * c + t
  {
    FirstInLeast(s, bit, 0, 8 * c);
    var (p, n) := (8 * c + t, 8 * |s|);
    forall i | 0 <= i < p
      ensures BitAt(s, i) != bit
    {
      if i >= 8 * c {
        assert At(s, c, i - 8 * c) != bit;
      }
    }
    FirstInLeast(s, bit, 0, n);
    if p >= n {
      assert p > n ==> BitAt(s, n) != bit;
    }
  }

  lemma NothingFound(s: Bytes, c: nat, w: nat)
    requires Stopped(s, true, c, w) && forall u | 0 <= u < 8 * w :: !At(s, c, u)
    ensures Position(s, true) == -1
  {
    FirstInLeast(s, true, 0, 8 * c);
    FirstInLeast(s, true, 0, 8 * |s|);
    forall i | 0 <= i < 8 * |s|
      ensures !BitAt(s, i)
    {
      EndsInWord(s, c, w);
      if i >= 8 * c {
        assert !At(s, c, i - 8 * c);
      }
    }
  }

  lemma EndsInWord(s: Bytes, c: nat, w: nat)
    requires Stopped(s, true, c, w) && forall u | 0 <= u < 8 * w :: !At(s, c, u)
    ensures |s| < c + w
  {
    forall k | c <= k < c + w && k < |s|
      ensures s[k] == SkipByte(true)
    {
      if s[k] != SkipByte(true) {
        var t := BitInWord(s, true, c, k, w);
        assert At(s, c, t);
      }
    }
  }

  // The word loop, from byte `c` on.
  method SkipWords(s: Bytes, bit: bool, c0: nat, w: nat) returns (c: nat)
    requires w > 0 && c0 <= |s| && FirstIn(s, bit, 0, 8 * c0) == -1
    ensures c <= |s| && Stopped(s, bit, c, w)
  {
    hide BitAt, FirstIn;
    c := c0;
    while |s| - c >= w
      invariant c <= |s| && FirstIn(s, bit, 0, 8 * c) == -1
    {
      if !Word(s, c, SkipByte(bit), w) {
        var k :| c <= k < c + w && s[k] != SkipByte(bit);
        return;
      }
      SkippedWord(s, bit, c, w);
      FirstInSplit(s, bit, 0, 8 * c, 8 * (c + w));
      c := c + w;
    }
  }

  // Loading a word of `w` bytes, byte by byte.
  method LoadWord(s: Bytes, c: nat, w: nat) returns (word: nat)
    requires c <= |s|
    ensures word == Loaded(s, c, w)
  {
    hide Loaded, Pow2;
    word := 0;
    var next, count := c, |s| - c;
    LoadedNone(s, c);
    for j := 0 to w
      invariant next + count == |s| && next == (if c + j <= |s| then c + j else |s|) && word == Loaded(s, c, j)
    {
      Roomy(s, c, j, w);
      word := word * 256 % Pow2(8 * w);
      if count > 0 {
        word := word + s[next] as nat;
        next := next + 1;
        count := count - 1;
      }
    }
  }

  lemma LoadedNone(s: Bytes, c: nat)
    ensures Loaded(s, c, 0) == 0
  {}

  // No byte is shifted out of a word that is not full.
  lemma Roomy(s: Bytes, c: nat, j: nat, w: nat)
    requires j < w
    ensures Loaded(s, c, j) * 256 < Pow2(8 * w)
    ensures Pow2(8 * w) > 0 && Loaded(s, c, j) * 256 % Pow2(8 * w) == Loaded(s, c, j) * 256
    ensures Loaded(s, c, j + 1) == 256 * Loaded(s, c, j) + Padded(s, c + j) as nat
  {
    hide Loaded, Pow2, Padded;
    LoadedBound(s, c, j);
    PowSplit(8 * j, 8);
    TwoToEight();
    PowMonotone(8 * (j + 1), 8 * w);
    NextLoaded(s, c, j);
    SmallMod(Loaded(s, c, j) * 256, Pow2(8 * w));
  }

  lemma SmallMod(x: nat, m: nat)
    requires x < m
    ensures x % m == x
  {}

  lemma NextLoaded(s: Bytes, c: nat, j: nat)
    ensures Loaded(s, c, j + 1) == 256 * Loaded(s, c, j) + Padded(s, c + j) as nat
  {}

  // redisBitpos: `address` is where the buffer starts, which decides how many bytes are looked at one by one first, and
  // `w` is the size of an unsigned long.
  method RedisBitpos(s: Bytes, address: nat, bit: bool, w: nat) returns (pos: int)
    requires w > 0
    ensures pos == Position(s, bit)
  {
    hide BitAt, FirstIn, TestBit, Loaded, Pow2, Position, At, WordBit, Stopped;
    NothingBefore(s, bit);
    var c, found := 0, false;
    while (address + c) % w != 0 && c < |s|
      invariant c <= |s| && !found && FirstIn(s, bit, 0, 8 * c) == -1
      decreases |s| - c
    {
      if s[c] != SkipByte(bit) {
        ByteStops(s, bit, c, w);
        found := true;
        break;
      }
      SkippedByte(s, bit, c);
      FirstInSplit(s, bit, 0, 8 * c, 8 * c + 8);
      c := c + 1;
    }
    if !found {
      c := SkipWords(s, bit, c, w);
    }
    pos := 8 * c;
    var word := LoadWord(s, c, w);
    WordIs(s, c, word, w);
    if bit && word == 0 {
      NothingFound(s, c, w);
      return -1;
    }
    ghost var hit := WordHasBit(s, bit, c, word, w);
    var top := 8 * w - 1;
    var one := top;
    while true
      invariant 0 <= one <= top && pos == 8 * c + (top - one) && top - one <= hit
      invariant forall t | 0 <= t < top - one :: At(s, c, t) != bit
      decreases one
    {
      assert WordBit(word, top - one, w) == At(s, c, top - one);
      // (one & word) != 0
      if WordBit(word, top - one, w) == bit {
        InString(s, bit, c, top - one);
        FoundInWord(s, bit, c, top - one, w);
        return;
      }
      pos := pos + 1;
      one := one - 1;
    }
  }

  // Bit `t` of a word, from the most significant one.
  predicate WordBit(word: nat, t: nat, w: nat)
    requires t < 8 * w
  {
    TestBit(word, 8 * w - 1 - t)
  }

  lemma WordIs(s: Bytes, c: nat, word: nat, w: nat)
    requires word == Loaded(s, c, w)
    ensures forall t | 0 <= t < 8 * w :: WordBit(word, t, w) == At(s, c, t)
    ensures word == 0 ==> forall t | 0 <= t < 8 * w :: !At(s, c, t)
  {
    forall t | 0 <= t < 8 * w
      ensures WordBit(word, t, w) == At(s, c, t) && !WordBit(0, t, w)
    {
      LoadedBit(s, c, w, t);
    }
  }

  lemma ByteStops(s: Bytes, bit: bool, c: nat, w: nat)
    requires w > 0 && c < |s| && s[c] != SkipByte(bit) && FirstIn(s, bit, 0, 8 * c) == -1
    ensures Stopped(s, bit, c, w)
  {}

  lemma NothingBefore(s: Bytes, bit: bool)
    ensures FirstIn(s, bit, 0, 0) == -1
  {}

  lemma InString(s: Bytes, bit: bool, c: nat, t: nat)
    requires At(s, c, t) == bit
    ensures bit ==> 8 * c + t < 8 * |s|
  {}

  // The word that stopped the search holds the bit, or it is zero and a set bit was wanted.
  lemma WordHasBit(s: Bytes, bit: bool, c: nat, word: nat, w: nat) returns (t: nat)
    requires Stopped(s, bit, c, w) && word == Loaded(s, c, w) && (bit ==> word != 0)
    requires forall t | 0 <= t < 8 * w :: WordBit(word, t, w) == At(s, c, t)
    ensures t < 8 * w && At(s, c, t) == bit
  {
    if bit {
      t := SomeBit(s, c, word, w);
    } else if k :| c <= k < c + w && k < |s| && s[k] != SkipByte(bit) {
      t := BitInWord(s, bit, c, k, w);
    } else {
      t := 8 * (|s| - c);
    }
  }

  lemma SomeBit(s: Bytes, c: nat, word: nat, w: nat) returns (t: nat)
    requires word == Loaded(s, c, w) && word != 0
    ensures t < 8 * w && WordBit(word, t, w)
  {
    LoadedBound(s, c, w);
    hide Loaded, TestBit, Pow2;
    t := 0;
    if forall k | 0 <= k < 8 * w :: !TestBit(word, k) {
      NoBitsZero(word, 8 * w);
    } else {
      var k :| 0 <= k < 8 * w && TestBit(word, k);
      t := 8 * w - 1 - k;
    }
  }

  // ---------- the command ----------

  // Whole bytes of the string, searched on their own.
  lemma SliceSearch(p: Bytes, bit: bool, i: nat, n: nat)
    requires i + n <= |p|
    ensures var r := FirstIn(p, bit, 8 * i, 8 * (i + n));
            Position(p[i..i + n], bit) == if r == -1 then (if bit then -1 else 8 * n) else r - 8 * i
  {
    hide FirstIn, BitAt;
    var t := p[i..i + n];
    SliceBits(p, t, i, n);
    FirstInShift(p, t, bit, 0, 8 * n, 8 * i);
    FirstInLeast(t, bit, 0, 8 * n);
    assert 8 * n + 8 * i == 8 * (i + n) && 0 + 8 * i == 8 * i;
  }

  lemma SliceBits(p: Bytes, t: Bytes, i: nat, n: nat)
    requires i + n <= |p| && t == p[i..i + n]
    ensures forall k: nat | k < 8 * n :: BitAt(t, k) == BitAt(p, k + 8 * i)
  {
    hide BitOf;
    forall k: nat | k < 8 * n
      ensures BitAt(t, k) == BitAt(p, k + 8 * i)
    {
      assert (k + 8 * i) / 8 == i + k / 8 && (k + 8 * i) % 8 == k % 8;
    }
  }

  // A byte whose bits outside `x`..`y` have been made the other kind.
  predicate Framed(tmp: bv8, b: bv8, bit: bool, x: nat, y: nat)
  {
    forall k | 0 <= k < 8 :: BitOf(tmp, k) == if x <= k < y then BitOf(b, k) else !bit
  }

  lemma FramedBits(p: Bytes, bit: bool, i: nat, tmp: bv8, x: nat, y: nat)
    requires i < |p| && x <= y <= 8 && Framed(tmp, p[i], bit, x, y)
    ensures forall k: nat | k < 8 :: BitAt([tmp], k) == if x <= k < y then BitAt(p, k + 8 * i) else !bit
  {
    hide BitOf, BitAt;
    forall k: nat | k < 8
      ensures BitAt([tmp], k) == if x <= k < y then BitAt(p, k + 8 * i) else !bit
    {
      PaddedBit([tmp], 0, k);
      PaddedBit(p, i, k);
    }
  }

  lemma FramedSearch(p: Bytes, bit: bool, i: nat, tmp: bv8, x: nat, y: nat)
    requires i < |p| && x <= y <= 8 && Framed(tmp, p[i], bit, x, y)
    ensures var r := FirstIn(p, bit, 8 * i + x, 8 * i + y);
            Position([tmp], bit) == if r == -1 then (if bit then -1 else 8) else r - 8 * i
  {
    hide BitOf, BitAt, Framed, FirstIn;
    var t := [tmp];
    FramedBits(p, bit, i, tmp, x, y);
    FirstInLeast(t, bit, 0, x);
    FirstInLeast(t, bit, y, 8);
    FirstInLeast(t, bit, x, y);
    FirstInSplit(t, bit, 0, x, 8);
    FirstInSplit(t, bit, x, y, 8);
    FirstInShift(p, t, bit, x, y, 8 * i);
    assert x + 8 * i == 8 * i + x && y + 8 * i == 8 * i + y;
  }

  // (bit) ? b & ~mask : b | mask
  function Cleared(b: bv8, mask: bv8, bit: bool): bv8 { if bit then b & !mask else b | mask }

  lemma ClearedAt(b: bv8, mask: bv8, bit: bool, k: nat)
    requires k < 8
    ensures BitOf(Cleared(b, mask, bit), k) == if BitOf(mask, k) then !bit else BitOf(b, k)
  {
    AndAt(b, !mask, k);
    OrAt(b, mask, k);
    NotAt(mask, k);
  }

  lemma FirstFramed(b: bv8, bit: bool, x: nat)
    requires x < 8
    ensures Framed(Cleared(b, FirstMask(x), bit), b, bit, x, 8)
  {
    forall k | 0 <= k < 8
      ensures BitOf(Cleared(b, FirstMask(x), bit), k) == if x <= k < 8 then BitOf(b, k) else !bit
    {
      ClearedAt(b, FirstMask(x), bit, k);
      MasksAt(x, k);
    }
  }

  lemma LastFramed(b: bv8, tmp: bv8, bit: bool, x: nat, y: nat)
    requires y < 8 && Framed(tmp, b, bit, x, 8)
    ensures Framed(Cleared(tmp, LastMask(y), bit), b, bit, x, y + 1)
  {
    forall k | 0 <= k < 8
      ensures BitOf(Cleared(tmp, LastMask(y), bit), k) == if x <= k < y + 1 then BitOf(b, k) else !bit
    {
      ClearedAt(tmp, LastMask(y), bit, k);
      MasksAt(y, k);
    }
  }

  lemma WholeFramed(b: bv8, bit: bool)
    ensures Framed(b, b, bit, 0, 8)
  {}

  lemma EmptyMasks()
    ensures FirstMask(0) == 0 && LastMask(7) == 0
    ensures forall k | 0 < k < 8 :: FirstMask(k) != 0
    ensures forall k | 0 <= k < 7 :: LastMask(k) != 0
  {}

  // A search of `n` units of bits that failed is reported as -1, or as the first bit behind them.
  function Outcome(r: int, base: nat, n: nat, bit: bool): int
  {
    if r == -1 then (if bit then -1 else n) else r - base
  }

  // The whole bytes from `start0` on, and the last byte without the bits behind bit `y`; `bytes` and `start` are where
  // the last search began.
  method SearchRest(p: Bytes, address: nat, w: nat, bit: bool, start0: nat, end: nat, y: nat)
    returns (pos: int, start: nat, bytes: nat)
    requires w > 0 && start0 <= end < |p| && y < 8
    ensures var r := FirstIn(p, bit, 8 * start0, 8 * end + y + 1);
            && pos == Outcome(r, 8 * start, 8 * bytes, bit)
            && (if r == -1 then start + bytes == end + 1 else 0 <= pos < 8 * bytes)
  {
    hide BitOf, BitAt, Framed, LastMask, FirstMask, Cleared, Position, FirstIn;
    start, bytes := start0, end - start0 + 1;
    ghost var hi := 8 * end + y + 1;
    var last := LastMask(y);
    EmptyMasks();
    FirstInLeast(p, bit, 8 * start0, hi);
    var curbytes := bytes - if last != 0 then 1 else 0;
    if curbytes > 0 {
      pos := RedisBitpos(p[start..start + curbytes], address + start, bit, w);
      SliceSearch(p, bit, start, curbytes);
      FirstInSplit(p, bit, 8 * start, 8 * (start + curbytes), hi);
      FirstInLeast(p, bit, 8 * start, 8 * (start + curbytes));
      if bytes == curbytes || (pos != -1 && pos != 8 * curbytes) {
        return;
      }
      start, bytes := start + curbytes, bytes - curbytes;
    }
    var tmpchar := Cleared(p[end], last, bit);
    WholeFramed(p[end], bit);
    LastFramed(p[end], p[end], bit, 0, y);
    FramedSearch(p, bit, end, tmpchar, 0, y + 1);
    pos := RedisBitpos([tmpchar], address, bit, w);
  }

  // The first byte alone, without the bits before bit `x` and, if it is the last one too, those behind bit `y`.
  method SearchFirst(p: Bytes, address: nat, w: nat, bit: bool, start: nat, end: nat, x: nat, y: nat) returns (pos: int)
    requires w > 0 && start <= end < |p| && x < 8 && y < 8 && (start == end ==> x <= y)
    ensures var r := FirstIn(p, bit, 8 * start + x, 8 * start + if start == end then y + 1 else 8);
            pos == Outcome(r, 8 * start, 8, bit)
  {
    hide BitOf, BitAt, Framed, FirstMask, LastMask, Cleared, Position, FirstIn;
    var first, last := FirstMask(x), LastMask(y);
    EmptyMasks();
    var tmpchar := Cleared(p[start], first, bit);
    FirstFramed(p[start], bit, x);
    if last != 0 && start == end {
      LastFramed(p[start], tmpchar, bit, x, y);
      tmpchar := Cleared(tmpchar, last, bit);
    }
    FramedSearch(p, bit, start, tmpchar, x, if start == end then y + 1 else 8);
    pos := RedisBitpos([tmpchar], address, bit, w);
  }

  // The part of bitposCommand that searches from bit `lo` to before bit `hi`.
  method Search(p: Bytes, address: nat, w: nat, bit: bool, lo: nat, hi: nat) returns (pos: int, start: nat, bytes: nat)
    requires w > 0 && lo < hi <= 8 * |p|
    ensures var r := FirstIn(p, bit, lo, hi);
            && pos == Outcome(r, 8 * start, 8 * bytes, bit)
            && (if r == -1 then start + bytes == (hi - 1) / 8 + 1 else 0 <= pos < 8 * bytes)
  {
    hide FirstIn, FirstMask, BitAt;
    start, bytes := lo / 8, (hi - 1) / 8 - lo / 8 + 1;
    var end := (hi - 1) / 8;
    var x, y := lo % 8, (hi - 1) % 8;
    EmptyMasks();
    if FirstMask(x) != 0 {
      ghost var stop := 8 * start + if start == end then y + 1 else 8;
      pos := SearchFirst(p, address, w, bit, start, end, x, y);
      FirstInSplit(p, bit, lo, stop, hi);
      FirstInLeast(p, bit, lo, stop);
      FirstInLeast(p, bit, stop, hi);
      if bytes == 1 || (pos != -1 && pos != 8) {
        return;
      }
      start, bytes := start + 1, bytes - 1;
    }
    pos, start, bytes := SearchRest(p, address, w, bit, start, end, y);
  }

  // What BITPOS answers.
  function Answer(o: Option<Bytes>, bit: bool, start: Option<int>, end: Option<int>, isbit: bool): int
    requires (end.Some? ==> start.Some?) && (isbit ==> end.Some?)
  {
    match o
    case None => if bit then -1 else 0
    case Some(p) =>
      var total := if isbit then 8 * |p| else |p|;
      var (a, b) := if start.None? then (0, |p| - 1)
                    else Normalized(total, start.value, if end.None? then total - 1 else end.value);
      if a > b then -1
      else
        var (lo, hi) := if isbit then (a, b + 1) else (8 * a, 8 * b + 8);
        if lo < 0 then -1
        else
          var r := FirstIn(p, bit, lo, hi);
          if r == -1 && !bit && end.None? then 8 * |p| else r
  }

  lemma AnswerIs(
      p: Bytes, bit: bool, start: Option<int>, end: Option<int>, isbit: bool, a: int, b: int, lo: nat, hi: nat)
    requires (end.Some? ==> start.Some?) && (isbit ==> end.Some?) && 0 <= a <= b
    requires (a, b) == if start.None? then (0, |p| - 1)
                       else Normalized(if isbit then 8 * |p| else |p|, start.value,
                                       if end.None? then |p| - 1 else end.value)
    requires (lo, hi) == if isbit then (a, b + 1) else (8 * a, 8 * b + 8)
    ensures Answer(Some(p), bit, start, end, isbit) ==
            if FirstIn(p, bit, lo, hi) == -1 && !bit && end.None? then 8 * |p| else FirstIn(p, bit, lo, hi)
  {
    hide FirstIn;
  }

  lemma NoKey(bit: bool, start: Option<int>, end: Option<int>, isbit: bool)
    requires (end.Some? ==> start.Some?) && (isbit ==> end.Some?)
    ensures Answer(None, bit, start, end, isbit) == if bit then -1 else 0
  {}

  lemma EmptyRange(p: Bytes, bit: bool, start: Option<int>, end: Option<int>, isbit: bool, a: int, b: int)
    requires (end.Some? ==> start.Some?) && (isbit ==> end.Some?) && a > b
    requires (a, b) == if start.None? then (0, |p| - 1)
                       else Normalized(if isbit then 8 * |p| else |p|, start.value,
                                       if end.None? then |p| - 1 else end.value)
    ensures Answer(Some(p), bit, start, end, isbit) == -1
  {}

  // Bit `i` is in the range asked for: `start` and `end` count bytes, or bits, and may be left out.
  predicate Asked(p: Bytes, start: Option<int>, end: Option<int>, isbit: bool, i: nat)
  {
    && i < 8 * |p|
    && (start.Some? ==>
          var (s, e) :=
            Normalized(if isbit then 8 * |p| else |p|, start.value, if end.None? then -1 else end.value);
          s <= (if isbit then i else i / 8) <= e)
  }

  // It is the first bit asked for that is like `bit`. If there is none it is -1; but when a clear bit is looked for up
  // to the end of the string, and some bit was asked for, it is the first one behind the string.
  lemma AnswerMeans(p: Bytes, bit: bool, start: Option<int>, end: Option<int>, isbit: bool)
    requires (end.Some? ==> start.Some?) && (isbit ==> end.Some?)
    ensures var r := Answer(Some(p), bit, start, end, isbit);
            if exists i :: Asked(p, start, end, isbit, i) && BitAt(p, i) == bit then
              && r >= 0 && Asked(p, start, end, isbit, r) && BitAt(p, r) == bit
              && forall i | Asked(p, start, end, isbit, i) && BitAt(p, i) == bit :: r <= i
            else
              r == if !bit && end.None? && exists i :: Asked(p, start, end, isbit, i) then 8 * |p| else -1
  {
    hide FirstIn, BitAt;
    var (a, b) := if start.None? then (0, |p| - 1)
                  else Normalized(if isbit then 8 * |p| else |p|, start.value,
                                  if end.None? then |p| - 1 else end.value);
    if a > b {
      EmptyRange(p, bit, start, end, isbit, a, b);
    } else {
      var (lo, hi) := if isbit then (a, b + 1) else (8 * a, 8 * b + 8);
      AnswerIs(p, bit, start, end, isbit, a, b, lo, hi);
      FirstInLeast(p, bit, lo, hi);
      hide Answer;
      assert forall i: nat :: Asked(p, start, end, isbit, i) <==> lo <= i < hi;
      assert Asked(p, start, end, isbit, lo);
    }
  }

  // bitposCommand from the parsed arguments on
  method BitposCommand(
      o: Option<Bytes>, address: nat, w: nat, bit: bool, start0: Option<int>, end0: Option<int>, isbit: bool)
    returns (r: int)
    requires w > 0 && (end0.Some? ==> start0.Some?) && (isbit ==> end0.Some?)
    ensures r == Answer(o, bit, start0, end0, isbit)
  {
    hide FirstIn, Answer, BitAt;
    if o.None? {
      NoKey(bit, start0, end0, isbit);
      return if bit then -1 else 0;
    }
    var p := o.value;
    var start, end;
    if start0.Some? {
      var totlen := |p|;
      if isbit {
        totlen := totlen * 8;
      }
      start := start0.value;
      end := if end0.None? then totlen - 1 else end0.value;
      if start < 0 {
        start := totlen + start;
      }
      if end < 0 {
        end := totlen + end;
      }
      if start < 0 {
        start := 0;
      }
      if end < 0 {
        end := 0;
      }
      if end >= totlen {
        end := totlen - 1;
      }
    } else {
      start, end := 0, |p| - 1;
    }
    if start > end {
      EmptyRange(p, bit, start0, end0, isbit, start, end);
      return -1;
    }
    var lo, hi := if isbit then start else 8 * start, if isbit then end + 1 else 8 * end + 8;
    FirstInLeast(p, bit, lo, hi);
    assert 0 <= start <= end < if isbit then 8 * |p| else |p|;
    assert end0.None? ==> hi == 8 * |p|;
    AnswerIs(p, bit, start0, end0, isbit, start, end, lo, hi);
    var pos, from, bytes := Search(p, address, w, bit, lo, hi);
    if end0.Some? && !bit && pos == bytes * 8 {
      return -1;
    }
    if pos != -1 {
      pos := pos + 8 * from;
    }
    r := pos;
  }
}
