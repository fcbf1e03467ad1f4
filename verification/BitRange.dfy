// Ranges of bits and bytes as BITCOUNT and BITPOS take them, and the masks for bytes that are only partly inside.
module BitRange {
  import opened Bits

  // (1 << n) - 1
  function LowBits(n: nat): bv8
    requires n <= 8
  {
    if n == 0 then 0x00
    else if n == 1 then 0x01
    else if n == 2 then 0x03
    else if n == 3 then 0x07
    else if n == 4 then 0x0f
    else if n == 5 then 0x1f
    else if n == 6 then 0x3f
    else if n == 7 then 0x7f
    else 0xff
  }

  // The bits of the first byte before bit `k`: ~((1 << (8 - k)) - 1) & 0xFF
  function FirstMask(k: nat): bv8
    requires k < 8
  {
    !LowBits(8 - k)
  }

  // The bits of the last byte behind bit `k`: (1 << (7 - k)) - 1
  function LastMask(k: nat): bv8
    requires k < 8
  {
    LowBits(7 - k)
  }

  lemma LowBitsAt(n: nat, j: nat)
    requires n <= 8 && j < 8
    ensures BitOf(LowBits(n), j) <==> j >= 8 - n
  {}

  // A single bit of a complement, a conjunction and a disjunction.
  lemma OneBit(a: bv8, b: bv8, m: bv8)
    requires m == 0x80 || m == 0x40 || m == 0x20 || m == 0x10 || m == 0x08 || m == 0x04 || m == 0x02 || m == 0x01
    ensures !a & m != 0 <==> a & m == 0
    ensures (a & b) & m != 0 <==> a & m != 0 && b & m != 0
    ensures (a | b) & m != 0 <==> a & m != 0 || b & m != 0
  {}

  lemma NotAt(b: bv8, j: nat)
    requires j < 8
    ensures BitOf(!b, j) <==> !BitOf(b, j)
  {
    OneBit(b, b, Mask(j));
  }

  lemma MasksAt(k: nat, j: nat)
    requires k < 8 && j < 8
    ensures BitOf(FirstMask(k), j) <==> j < k
    ensures BitOf(LastMask(k), j) <==> j > k
  {
    LowBitsAt(8 - k, j);
    LowBitsAt(7 - k, j);
    NotAt(LowBits(8 - k), j);
  }

  lemma AndAt(a: bv8, b: bv8, j: nat)
    requires j < 8
    ensures BitOf(a & b, j) <==> BitOf(a, j) && BitOf(b, j)
  {
    OneBit(a, b, Mask(j));
  }

  lemma OrAt(a: bv8, b: bv8, j: nat)
    requires j < 8
    ensures BitOf(a | b, j) <==> BitOf(a, j) || BitOf(b, j)
  {
    OneBit(a, b, Mask(j));
  }

  // What the commands make of `start` and `end` for a string of `total` units.
  function Normalized(total: nat, start: int, end: int): (int, int)
  {
    var s1 := if start < 0 then total + start else start;
    var e1 := if end < 0 then total + end else end;
    var s2 := if s1 < 0 then 0 else s1;
    var e2 := if e1 < 0 then 0 else e1;
    (s2, if e2 >= total then total - 1 else e2)
  }

  lemma NormalizedBounds(total: nat, start: int, end: int)
    ensures var (s, e) := Normalized(total, start, end); 0 <= s && e < total && e >= -1
  {}

  // A unit counted from the end that an index counts from.
  function Seen(total: nat, p: nat, index: int): int { if index < 0 then p - total else p }

  // A negative index counts from behind the last unit: a unit is inside exactly when, counted from the end that each
  // index counts from, it is not before `start` and not behind `end`; but an `end` that lies before the string is taken
  // for the first unit.
  lemma NormalizedMeans(total: nat, start: int, end: int, p: nat)
    requires p < total
    ensures var (s, e) := Normalized(total, start, end);
            s <= p <= e <==>
            start <= Seen(total, p, start) && (Seen(total, p, end) <= end || (end + total < 0 && p == 0))
  {}

  // So the range is the one asked for, for every unit, if and only if `end` does not lie before the string or `start`
  // lies behind its first unit.
  lemma RangeExactly(total: nat, start: int, end: int)
    requires total > 0
    ensures var (s, e) := Normalized(total, start, end);
            (forall p | 0 <= p < total ::
               s <= p <= e <==> start <= Seen(total, p, start) && Seen(total, p, end) <= end) <==>
            end + total >= 0 || start > Seen(total, 0, start)
  {
    var (s, e) := Normalized(total, start, end);
    NormalizedMeans(total, start, end, 0);
    forall p | 0 <= p < total
      ensures s <= p <= e <==>
              start <= Seen(total, p, start) && (Seen(total, p, end) <= end || (end + total < 0 && p == 0))
    {
      NormalizedMeans(total, start, end, p);
    }
  }
}
