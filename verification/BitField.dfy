// BITFIELD of bitops.c: numbers of up to 64 bits at any position of a string, read, set and incremented.
module BitField {
  import opened Bits

  const U64: int := 0x1_0000_0000_0000_0000
  const I64_MAX: int := 0x7fff_ffff_ffff_ffff

  // Conversions to uint64_t and int64_t.
  function ToU64(x: int): (u: nat)
    ensures u < U64
  {
    x % U64
  }

  function ToI64(x: int): (v: int)
    ensures -I64_MAX - 1 <= v <= I64_MAX
  {
    var u := x % U64;
    if u <= I64_MAX then u else u - U64
  }

  predicate IsI64(x: int) { -I64_MAX - 1 <= x <= I64_MAX }

  // v | ((uint64_t)-1 << bits)
  function OrHigh(v: nat, bits: nat): int { v % Pow2(bits) + (U64 - Pow2(bits)) }

  // v & ~((uint64_t)-1 << bits)
  function AndLow(v: nat, bits: nat): nat { v % Pow2(bits) }

  lemma Powers()
    ensures Pow2(63) == I64_MAX + 1 && Pow2(64) == U64
  {
    assert Pow2(8) == 0x100;
    PowSplit(8, 8);
    assert Pow2(16) == 0x10000;
    PowSplit(16, 16);
    assert Pow2(32) == 0x1_0000_0000;
    PowSplit(32, 32);
    assert Pow2(64) == 2 * Pow2(63);
  }

  lemma Widths(bits: nat)
    requires 1 <= bits <= 64
    ensures Pow2(bits) == 2 * Pow2(bits - 1) && Pow2(bits) <= U64
    ensures bits <= 63 ==> Pow2(bits) <= I64_MAX + 1
  {
    Powers();
    PowMonotone(bits, 64);
    if bits <= 63 {
      PowMonotone(bits, 63);
    }
  }

  // ---------- one field ----------

  // The number that `bits` bits stand for in two's complement.
  function SignedOf(u: nat, bits: nat): int
    requires bits > 0
  {
    if u < Pow2(bits - 1) then u else u - Pow2(bits)
  }

  lemma SetBitAt(s: Bytes, i: nat, on: bool, k: nat)
    requires i / 8 < |s|
    ensures BitAt(s[i / 8 := WithBit(s[i / 8], i % 8, on)], k) == if k == i then on else BitAt(s, k)
  {
    if k / 8 == i / 8 {
      WithBitAt(s[i / 8], i % 8, on, k % 8);
    }
  }

  // setUnsignedBitfield
  method SetUnsignedBitfield(p: array<bv8>, offset: nat, bits: nat, value: nat)
    requires bits <= 64 && value < U64 && offset + bits <= 8 * p.Length
    modifies p
    ensures Ones(p[..]) == Store(old(Ones(p[..])), offset, bits, value)
  {
    hide BitOf, WithBit, TestBit;
    ghost var before := p[..];
    for j := 0 to bits
      invariant forall i: nat :: BitAt(p[..], i) ==
                  if offset <= i < offset + j then PlacedAt(offset, bits, value, i) else BitAt(before, i)
    {
      var bitval := TestBit(value, bits - 1 - j);
      var at := offset + j;
      var byte, bit := at / 8, at % 8;
      ghost var s := p[..];
      p[byte] := WithBit(p[byte], bit, bitval);
      assert p[..] == s[byte := WithBit(s[byte], bit, bitval)];
      forall i: nat
        ensures BitAt(p[..], i) == if i == at then bitval else BitAt(s, i)
      {
        SetBitAt(s, at, bitval, i);
      }
      assert PlacedAt(offset, bits, value, at) == bitval;
    }
    StoredIs(before, p[..], offset, bits, value);
  }

  lemma StoredIs(before: Bytes, after: Bytes, offset: nat, bits: nat, value: nat)
    requires forall i: nat :: BitAt(after, i) ==
               if offset <= i < offset + bits then PlacedAt(offset, bits, value, i) else BitAt(before, i)
    ensures Ones(after) == Store(Ones(before), offset, bits, value)
  {
    hide BitAt, PlacedAt;
    var (a, b) := (Ones(after), Store(Ones(before), offset, bits, value));
    forall i: nat
      ensures i in a <==> i in b
    {
      InOnes(after, i);
      InOnes(before, i);
      if offset <= i < offset + bits {
        InPlaced(offset, bits, value, i);
      }
    }
  }

  // getUnsignedBitfield
  method GetUnsignedBitfield(p: Bytes, offset: nat, bits: nat) returns (value: nat)
    requires bits <= 64 && offset + bits <= 8 * |p|
    ensures value == Field(Ones(p), offset, bits) && value < Pow2(bits)
  {
    hide BitOf, Field, Pow2, ToU64;
    value := 0;
    NoField(Ones(p), offset);
    for j := 0 to bits
      invariant value == Field(Ones(p), offset, j)
    {
      FieldBound(Ones(p), offset, j);
      NoBitLost(value, j);
      NextField(Ones(p), offset, j);
      var at := offset + j;
      var bitval := BitOf(p[at / 8], at % 8);
      InOnes(p, at);
      value := ToU64(2 * value) + Bit(bitval);
    }
    FieldBound(Ones(p), offset, bits);
  }

  lemma NoField(ones: set<nat>, offset: nat)
    ensures Field(ones, offset, 0) == 0
  {}

  lemma NextField(ones: set<nat>, offset: nat, n: nat)
    ensures Field(ones, offset, n + 1) == 2 * Field(ones, offset, n) + Bit(offset + n in ones)
  {}

  // Shifting a number of fewer than 64 bits to the left loses none of them.
  lemma NoBitLost(value: nat, j: nat)
    requires value < Pow2(j) && j < 64
    ensures ToU64(2 * value) == 2 * value
  {
    Widths(j + 1);
  }

  // getSignedBitfield
  method GetSignedBitfield(p: Bytes, offset: nat, bits: nat) returns (value: int)
    requires 1 <= bits <= 64 && offset + bits <= 8 * |p|
    ensures value == SignedOf(Field(Ones(p), offset, bits), bits) && IsI64(value)
  {
    hide *;
    var u := GetUnsignedBitfield(p, offset, bits);
    SignExtend(u, bits);
    value := ToI64(u);
    if bits < 64 && TestBit(ToU64(value), bits - 1) {
      value := ToI64(OrHigh(ToU64(value), bits));
    }
  }

  lemma SignExtend(u: nat, bits: nat)
    requires 1 <= bits <= 64 && u < Pow2(bits)
    ensures var v := ToI64(u);
            && (if bits < 64 && TestBit(ToU64(v), bits - 1) then ToI64(OrHigh(ToU64(v), bits)) else v) ==
               SignedOf(u, bits)
    ensures IsI64(SignedOf(u, bits))
  {
    hide TestBit, Pow2;
    Widths(bits);
    Powers();
    TopBit(u, bits);
    assert ToU64(ToI64(u)) == u;
  }

  lemma TopBit(u: nat, bits: nat)
    requires 1 <= bits <= 64 && u < Pow2(bits)
    ensures TestBit(u, bits - 1) <==> u >= Pow2(bits - 1)
    ensures u % Pow2(bits) == u
  {
    var h := Pow2(bits - 1);
    if u >= h {
      Quotient(u, h, 1, u - h);
    } else {
      Quotient(u, h, 0, u);
    }
    Quotient(u, Pow2(bits), 0, u);
  }

  // setSignedBitfield
  method SetSignedBitfield(p: array<bv8>, offset: nat, bits: nat, value: int)
    requires 1 <= bits <= 64 && IsI64(value) && offset + bits <= 8 * p.Length
    modifies p
    ensures Ones(p[..]) == Store(old(Ones(p[..])), offset, bits, ToU64(value))
  {
    SetUnsignedBitfield(p, offset, bits, ToU64(value));
  }

  // ---------- overflow ----------

  datatype Overflow = Wrap | Sat | Fail

  function Low(signed: bool, bits: nat): int
    requires bits > 0
  {
    if signed then 0 - Pow2(bits - 1) else 0
  }

  function High(signed: bool, bits: nat): int
    requires bits > 0
  {
    if signed then Pow2(bits - 1) - 1 else Pow2(bits) - 1
  }

  predicate Fits(signed: bool, bits: nat, x: int)
    requires bits > 0
  {
    Low(signed, bits) <= x <= High(signed, bits)
  }

  // The number of the width that is congruent to `x`.
  function Wrapped(signed: bool, bits: nat, x: int): int
    requires bits > 0
  {
    if signed then SignedOf(x % Pow2(bits), bits) else x % Pow2(bits)
  }

  function Clamped(signed: bool, bits: nat, x: int): int
    requires bits > 0
  {
    if x < Low(signed, bits) then Low(signed, bits) else if x > High(signed, bits) then High(signed, bits) else x
  }

  // checkUnsignedBitfieldOverflow: 0 for no overflow, and otherwise `limit` unless the policy is to fail.
  method CheckUnsignedBitfieldOverflow(value: nat, incr: int, bits: nat, owtype: Overflow, limit0: nat)
    returns (r: int, limit: nat)
    requires 1 <= bits <= 63 && value < U64 && IsI64(incr)
    ensures var sum := value + incr;
            Fits(false, bits, value) || incr == 0 ==>
              && (r != 0 <==> !Fits(false, bits, sum))
              && (r != 0 && owtype == Wrap ==> limit == Wrapped(false, bits, sum))
              && (r != 0 && owtype == Sat ==> limit == Clamped(false, bits, sum))
  {
    hide Pow2, ToU64, ToI64, Wrapped, AndLow;
    Widths(bits);
    var max := Pow2(bits) - 1;
    Convert(max - value);
    Convert(0 - value);
    WrapUnsigned(value + incr, bits);
    var maxincr := ToI64(ToU64(max - value));
    var minincr := ToI64(ToU64(0 - value));
    limit := limit0;
    if value > max || (incr > 0 && incr > maxincr) {
      if owtype == Wrap {
        return 1, AndLow(ToU64(value + incr), bits);
      } else if owtype == Sat {
        limit := max;
      }
      return 1, limit;
    } else if incr < 0 && incr < minincr {
      if owtype == Wrap {
        return 1, AndLow(ToU64(value + incr), bits);
      } else if owtype == Sat {
        limit := 0;
      }
      return -1, limit;
    }
    r := 0;
  }

  // Converting there and back.
  lemma Convert(x: int)
    ensures IsI64(x) ==> ToI64(ToU64(x)) == x && ToI64(x) == x
    ensures I64_MAX < x <= I64_MAX + U64 ==> ToI64(ToU64(x)) == x - U64
  {}

  lemma WrapUnsigned(x: int, bits: nat)
    requires 1 <= bits <= 64
    ensures AndLow(ToU64(x), bits) == Wrapped(false, bits, x) == x % Pow2(bits)
  {
    Powers();
    PowSplit(bits, 64 - bits);
    ModMod(x, Pow2(bits), Pow2(64 - bits));
  }

  lemma ModMod(x: int, p: nat, q: nat)
    requires p > 0 && q > 0
    ensures p * q > 0 && x % (p * q) % p == x % p
  {
    var d := p * q;
    var (k, r) := (x / d, x % d);
    assert x == k * d + r;
    assert k * d == (k * q) * p;
    ModOff(r, k * q, p);
  }

  lemma ModOff(r: int, k: int, p: nat)
    requires p > 0
    ensures (k * p + r) % p == r % p
  {
    var q := r / p;
    assert k * p + r == (k + q) * p + r % p;
    QuotientInt(k * p + r, p, k + q, r % p);
  }

  lemma QuotientInt(v: int, d: nat, q: int, r: nat)
    requires d > 0 && v == q * d + r && r < d
    ensures v % d == r
  {
    var k := v / d - q;
    assert v == v / d * d + v % d;
    assert k * d == v / d * d - q * d;
    Multiple(k, d);
  }

  // checkSignedBitfieldOverflow
  method CheckSignedBitfieldOverflow(value: int, incr: int, bits: nat, owtype: Overflow, limit0: int)
    returns (r: int, limit: int)
    requires 1 <= bits <= 64 && IsI64(value) && IsI64(incr)
    ensures var sum := value + incr;
            Fits(true, bits, value) || incr == 0 ==>
              && (r != 0 <==> !Fits(true, bits, sum))
              && (r != 0 && owtype == Wrap ==> limit == Wrapped(true, bits, sum))
              && (r != 0 && owtype == Sat ==>
                   limit == if Fits(true, bits, value) then Clamped(true, bits, sum) else SignedSetLimit(bits, value))
    ensures IsI64(limit0) ==> IsI64(limit)
  {
    hide Pow2, ToU64, ToI64, Wrapped, AndLow, OrHigh, TestBit;
    Widths(bits);
    Powers();
    var max := Pow2(bits - 1) - 1;
    var min := (0 - max) - 1;
    Convert(max - value);
    Convert(min - value);
    WrapSigned(value + incr, bits);
    var maxincr := ToI64(ToU64(max - value));
    var minincr := ToI64(min - value);
    limit := limit0;
    var c := ToU64(value + incr);
    var wrapped := if bits == 64 then c
                   else if TestBit(c, bits - 1) then OrHigh(c, bits) else AndLow(c, bits);
    if value > max || (bits != 64 && incr > maxincr) || (value >= 0 && incr > 0 && incr > maxincr) {
      if owtype == Wrap {
        return 1, ToI64(wrapped);
      } else if owtype == Sat {
        limit := max;
      }
      return 1, limit;
    } else if value < min || (bits != 64 && incr < minincr) || (value < 0 && incr < 0 && incr < minincr) {
      if owtype == Wrap {
        return 1, ToI64(wrapped);
      } else if owtype == Sat {
        limit := min;
      }
      return -1, limit;
    }
    r := 0;
  }

  // What saturation gives for a number to be set that does not fit. The distance to the maximum is computed in 64 bits,
  // so for numbers far below a wide field it wraps around and the maximum is taken.
  function SignedSetLimit(bits: nat, value: int): int
    requires bits > 0
  {
    if value > High(true, bits) || High(true, bits) - value > I64_MAX then High(true, bits) else Low(true, bits)
  }

  // Setting saturates to the nearer bound exactly when the number is not that far below.
  lemma SetSaturates(bits: nat, value: int)
    requires 1 <= bits <= 64 && IsI64(value) && !Fits(true, bits, value)
    ensures SignedSetLimit(bits, value) == Clamped(true, bits, value) <==>
            value > High(true, bits) - I64_MAX - 1
  {
    Widths(bits);
  }

  // For example -2^63 set into 63 bits.
  lemma FarBelowIsHigh()
    ensures SignedSetLimit(63, -I64_MAX - 1) == High(true, 63) != Clamped(true, 63, -I64_MAX - 1)
  {
    Widths(63);
    Powers();
  }

  lemma WrapSigned(x: int, bits: nat)
    requires 1 <= bits <= 64
    ensures var c := ToU64(x);
            var wrapped := if bits == 64 then c else if TestBit(c, bits - 1) then OrHigh(c, bits) else AndLow(c, bits);
            ToI64(wrapped) == Wrapped(true, bits, x)
  {
    hide TestBit, Pow2, Wrapped, ToU64, ToI64, OrHigh, AndLow;
    Widths(bits);
    Powers();
    var c := ToU64(x);
    var low := AndLow(c, bits);
    WrapUnsigned(x, bits);
    WrappedIs(x, bits);
    LowBits(c, bits);
    if bits < 64 {
      TestBitLow(c, bits, bits - 1);
      TopBit(low, bits);
      InI64(low);
      InI64(low + (U64 - Pow2(bits)));
    } else {
      LowIsAll(c);
      InI64(c);
    }
  }

  lemma LowBits(c: nat, bits: nat)
    ensures 0 <= AndLow(c, bits) < Pow2(bits) && AndLow(c, bits) == c % Pow2(bits)
    ensures OrHigh(c, bits) == AndLow(c, bits) + (U64 - Pow2(bits))
  {}

  lemma LowIsAll(c: nat)
    requires c < U64
    ensures AndLow(c, 64) == c
  {
    Powers();
    ModTwice(c, U64);
  }

  lemma InI64(u: nat)
    requires u < U64
    ensures ToI64(u) == if u <= I64_MAX then u else u - U64
  {
    ModTwice(u, U64);
  }

  lemma WrappedIs(x: int, bits: nat)
    requires 1 <= bits <= 64
    ensures Wrapped(true, bits, x) == SignedOf(x % Pow2(bits), bits)
  {}

  // ---------- the command ----------

  datatype Op =
    | Get(signed: bool, bits: nat, offset: nat)
    | Set(signed: bool, bits: nat, offset: nat, value: int, owtype: Overflow)
    | IncrBy(signed: bool, bits: nat, offset: nat, incr: int, owtype: Overflow)

  datatype Reply = Null | Number(value: int)

  // What parsing the arguments lets through: i1 to i64, u1 to u63, and 64-bit operands.
  predicate ValidOp(op: Op)
  {
    1 <= op.bits <= (if op.signed then 64 else 63) && (op.Set? ==> IsI64(op.value)) && (op.IncrBy? ==> IsI64(op.incr))
  }

  function Read(ones: set<nat>, op: Op): int
    requires ValidOp(op)
  {
    var u := Field(ones, op.offset, op.bits);
    if op.signed then SignedOf(u, op.bits) else u
  }

  // A number put into the field of an operation, in two's complement.
  function Write(ones: set<nat>, op: Op, x: int): set<nat>
    requires ValidOp(op)
  {
    Store(ones, op.offset, op.bits, x % Pow2(op.bits))
  }

  // The number to be set: an unsigned field takes the operand as a uint64_t.
  function Operand(op: Op): int
    requires op.Set?
  {
    if op.signed then op.value else ToU64(op.value)
  }

  // What saturation stores.
  function Saturated(ones: set<nat>, op: Op): int
    requires ValidOp(op) && !op.Get?
  {
    if op.IncrBy? then Clamped(op.signed, op.bits, Read(ones, op) + op.incr)
    else if op.signed then SignedSetLimit(op.bits, op.value)
    else High(false, op.bits)
  }

  // An operation on the infinite bit array.
  function Apply(ones: set<nat>, op: Op): (set<nat>, Reply)
    requires ValidOp(op)
  {
    var old' := Read(ones, op);
    if op.Get? then (ones, Number(old'))
    else
      var exact := if op.IncrBy? then old' + op.incr else Operand(op);
      if !Fits(op.signed, op.bits, exact) && op.owtype == Fail then (ones, Null)
      else
        var x := if Fits(op.signed, op.bits, exact) then exact
                 else if op.owtype == Wrap then Wrapped(op.signed, op.bits, exact)
                 else Saturated(ones, op);
        (Write(ones, op, x), Number(if op.IncrBy? then x else old'))
  }

  predicate ValidOps(ops: seq<Op>) { forall i | 0 <= i < |ops| :: ValidOp(ops[i]) }

  function ApplyAll(ones: set<nat>, ops: seq<Op>): (set<nat>, seq<Reply>)
    requires ValidOps(ops)
  {
    if ops == [] then (ones, [])
    else
      var (ones1, replies) := ApplyAll(ones, ops[..|ops| - 1]);
      var (ones2, reply) := Apply(ones1, ops[|ops| - 1]);
      (ones2, replies + [reply])
  }

  lemma ReadFits(ones: set<nat>, op: Op)
    requires ValidOp(op)
    ensures Fits(op.signed, op.bits, Read(ones, op))
  {
    FieldBound(ones, op.offset, op.bits);
    Widths(op.bits);
  }

  lemma SignedMod(x: int, bits: nat)
    requires 1 <= bits <= 64 && Fits(true, bits, x)
    ensures SignedOf(x % Pow2(bits), bits) == x
  {
    Widths(bits);
    hide Pow2;
    if x >= 0 {
      QuotientInt(x, Pow2(bits), 0, x);
    } else {
      QuotientInt(x, Pow2(bits), -1, x + Pow2(bits));
    }
  }

  lemma ModTwice(x: int, m: int)
    requires m > 0
    ensures 0 <= x % m < m && x % m % m == x % m
    ensures 0 <= x < m ==> x % m == x
  {}

  lemma StoreOutside(ones: set<nat>, offset: nat, n: nat, v: nat)
    ensures forall i: nat | !(offset <= i < offset + n) :: i in Store(ones, offset, n, v) <==> i in ones
  {
    hide PlacedAt;
  }

  // What is written into a field is read back from it if it fits, and nothing else changes.
  lemma WriteReads(ones: set<nat>, op: Op, x: int)
    requires ValidOp(op) && Fits(op.signed, op.bits, x)
    ensures Read(Write(ones, op, x), op) == x
    ensures forall i: nat | !(op.offset <= i < op.offset + op.bits) :: i in Write(ones, op, x) <==> i in ones
  {
    hide Pow2, Store, SignedOf, Field;
    var m := Pow2(op.bits);
    ModTwice(x, m);
    FieldOfStore(ones, op.offset, op.bits, x % m);
    StoreOutside(ones, op.offset, op.bits, x % m);
    if op.signed {
      SignedMod(x, op.bits);
    }
  }

  // A number and its remainder differ by a multiple.
  lemma Congruent(x: int, p: int)
    requires p > 0
    ensures (x % p - x) % p == 0 && (x % p - p - x) % p == 0
  {
    var k := x / p;
    Multiples(-k, p);
    Multiples(-k - 1, p);
    assert x == k * p + x % p;
    assert x % p - x == (-k) * p;
    assert x % p - p - x == (-k - 1) * p;
  }

  lemma Multiples(k: int, p: int)
    requires p > 0
    ensures k * p % p == 0
  {
    QuotientInt(k * p, p, k, 0);
  }

  lemma WrappedFits(signed: bool, bits: nat, x: int)
    requires 1 <= bits <= 64
    ensures Fits(signed, bits, Wrapped(signed, bits, x)) && (Wrapped(signed, bits, x) - x) % Pow2(bits) == 0
  {
    hide Pow2;
    Widths(bits);
    ModTwice(x, Pow2(bits));
    Congruent(x, Pow2(bits));
  }

  // INCRBY: the field then holds the exact sum if it fits, and otherwise the sum modulo the width, the nearer bound, or
  // what it held before; the reply says which; and no bit outside the field changes.
  lemma IncrByExact(ones: set<nat>, op: Op)
    requires ValidOp(op) && op.IncrBy?
    ensures var (t, reply) := Apply(ones, op);
            var sum := Read(ones, op) + op.incr;
            && (Fits(op.signed, op.bits, sum) ==> Read(t, op) == sum && reply == Number(sum))
            && (!Fits(op.signed, op.bits, sum) ==>
                 match op.owtype
                 case Wrap => (Read(t, op) - sum) % Pow2(op.bits) == 0 && reply == Number(Read(t, op))
                 case Sat => Read(t, op) == Clamped(op.signed, op.bits, sum) && reply == Number(Read(t, op))
                 case Fail => t == ones && reply == Null)
            && Fits(op.signed, op.bits, Read(t, op))
            && forall i: nat | !(op.offset <= i < op.offset + op.bits) :: i in t <==> i in ones
  {
    var (t, reply) := Apply(ones, op);
    var sum := Read(ones, op) + op.incr;
    hide Read, Write, Wrapped, Pow2;
    ReadFits(ones, op);
    Widths(op.bits);
    WrappedFits(op.signed, op.bits, sum);
    if Fits(op.signed, op.bits, sum) {
      WriteReads(ones, op, sum);
    } else if op.owtype == Wrap {
      WriteReads(ones, op, Wrapped(op.signed, op.bits, sum));
    } else if op.owtype == Sat {
      WriteReads(ones, op, Clamped(op.signed, op.bits, sum));
    }
  }

  // SET: the field then holds the number given if it fits, and otherwise a number congruent to it, the nearer bound, or
  // what it held before; the reply is what it held before, or Null exactly when the number does not fit and overflow is
  // to fail; and no bit outside the field changes. An unsigned field takes the number as a uint64_t, so there a
  // negative one is too great. In a signed field a number that is more than I64_MAX below the greatest one is taken for
  // too great too.
  lemma SetExact(ones: set<nat>, op: Op)
    requires ValidOp(op) && op.Set?
    ensures var (t, reply) := Apply(ones, op);
            var x := if op.signed then op.value else op.value % U64;
            && reply == (if !Fits(op.signed, op.bits, x) && op.owtype == Fail then Null else Number(Read(ones, op)))
            && (Fits(op.signed, op.bits, x) ==> Read(t, op) == x)
            && (!Fits(op.signed, op.bits, x) ==>
                 match op.owtype
                 case Wrap => (Read(t, op) - op.value) % Pow2(op.bits) == 0
                 case Sat =>
                   Read(t, op) == if op.signed && x > High(true, op.bits) - I64_MAX - 1 then Clamped(true, op.bits, x)
                                  else High(op.signed, op.bits)
                 case Fail => t == ones)
            && Fits(op.signed, op.bits, Read(t, op))
            && forall i: nat | !(op.offset <= i < op.offset + op.bits) :: i in t <==> i in ones
  {
    var x := Operand(op);
    hide Read, Write, Wrapped, Pow2;
    ReadFits(ones, op);
    Widths(op.bits);
    WrappedFits(op.signed, op.bits, x);
    BoundsFit(op.signed, op.bits);
    if Fits(op.signed, op.bits, x) {
      WriteReads(ones, op, x);
    } else if op.owtype == Wrap {
      WriteReads(ones, op, Wrapped(op.signed, op.bits, x));
      OperandCongruent(op, Wrapped(op.signed, op.bits, x));
    } else if op.owtype == Sat {
      WriteReads(ones, op, Saturated(ones, op));
    }
  }

  lemma BoundsFit(signed: bool, bits: nat)
    requires 1 <= bits <= 64
    ensures Fits(signed, bits, High(signed, bits)) && Fits(signed, bits, Low(signed, bits))
  {}

  lemma LimitFits(bits: nat, value: int)
    requires 1 <= bits <= 64
    ensures Fits(true, bits, SignedSetLimit(bits, value))
  {
    BoundsFit(true, bits);
  }

  lemma OperandCongruent(op: Op, y: int)
    requires ValidOp(op) && op.Set? && (y - Operand(op)) % Pow2(op.bits) == 0
    ensures (y - op.value) % Pow2(op.bits) == 0
  {
    var (p, x) := (Pow2(op.bits), Operand(op));
    if !op.signed {
      Powers();
      PowSplit(op.bits, 64 - op.bits);
      var (q, k) := (Pow2(64 - op.bits), op.value / U64);
      assert op.value == k * (p * q) + x;
      assert k * (p * q) == (k * q) * p;
      ModOff(y - x, -(k * q), p);
      assert y - op.value == -(k * q) * p + (y - x);
    }
  }

  // Each operation is answered in its turn, from the bits the ones before it have left.
  lemma {:induction false} RepliesInTurn(ones: set<nat>, ops: seq<Op>, i: nat)
    requires ValidOps(ops) && i < |ops|
    ensures |ApplyAll(ones, ops).1| == |ops|
    ensures ApplyAll(ones, ops).1[i] == Apply(ApplyAll(ones, ops[..i]).0, ops[i]).1
    decreases |ops|
  {
    hide Apply;
    var front := ops[..|ops| - 1];
    RepliesCount(ones, front);
    if i < |front| {
      RepliesInTurn(ones, front, i);
      assert front[..i] == ops[..i];
    }
  }

  lemma {:induction false} RepliesCount(ones: set<nat>, ops: seq<Op>)
    requires ValidOps(ops)
    ensures |ApplyAll(ones, ops).1| == |ops|
    decreases |ops|
  {
    hide Apply;
    if ops != [] {
      RepliesCount(ones, ops[..|ops| - 1]);
    }
  }

  // ---------- what is counted as a change ----------

  // The operation is not a failing one, and not a GET.
  predicate Writes(ones: set<nat>, op: Op)
    requires ValidOp(op)
  {
    !op.Get? && Apply(ones, op).1 != Null
  }

  // A write counts if it changes a bit, and in a string that had to grow it always does.
  predicate Counts(ones: set<nat>, op: Op, grown: bool)
    requires ValidOp(op)
  {
    Writes(ones, op) && (grown || Apply(ones, op).0 != ones)
  }

  // What is added to the server's count of changes; the key is signalled as modified if it is not zero.
  function Changes(ones: set<nat>, ops: seq<Op>, grown: bool): nat
    requires ValidOps(ops)
  {
    if ops == [] then 0
    else
      var front := ops[..|ops| - 1];
      Changes(ones, front, grown) + if Counts(ApplyAll(ones, front).0, ops[|ops| - 1], grown) then 1 else 0
  }

  // The length of the string once there is room for every write, whether it will fail or not.
  function Grown(length: nat, ops: seq<Op>): nat
    requires ValidOps(ops)
  {
    if ops == [] then length
    else
      var (l, op) := (Grown(length, ops[..|ops| - 1]), ops[|ops| - 1]);
      var end := (op.offset + op.bits - 1) / 8 + 1;
      if !op.Get? && end > l then end else l
  }

  lemma {:induction false} FieldBit(ones: set<nat>, offset: nat, n: nat, i: nat)
    requires offset <= i < offset + n
    ensures TestBit(Field(ones, offset, n), offset + n - 1 - i) <==> i in ones
    decreases n
  {
    var (v, k) := (Field(ones, offset, n), offset + n - 1 - i);
    if k == 0 {
      assert v / Pow2(0) == v;
    } else {
      HalveFirst(v, Pow2(k - 1));
      FieldBit(ones, offset, n - 1, i);
    }
  }

  // Writing what is there already changes nothing.
  lemma WriteSame(ones: set<nat>, op: Op)
    requires ValidOp(op)
    ensures Write(ones, op, Read(ones, op)) == ones
  {
    var (v, x) := (Field(ones, op.offset, op.bits), Read(ones, op));
    hide Pow2, Field, TestBit;
    FieldBound(ones, op.offset, op.bits);
    Widths(op.bits);
    QuotientInt(x, Pow2(op.bits), if x == v then 0 else -1, v);
    forall i | op.offset <= i < op.offset + op.bits
      ensures i in Placed(op.offset, op.bits, v) <==> i in ones
    {
      InPlaced(op.offset, op.bits, v, i);
      FieldBit(ones, op.offset, op.bits, i);
    }
    StoredField(ones, op.offset, op.bits, v);
  }

  lemma StoredField(ones: set<nat>, offset: nat, n: nat, v: nat)
    requires forall i | offset <= i < offset + n :: i in Placed(offset, n, v) <==> i in ones
    ensures Store(ones, offset, n, v) == ones
  {
    hide PlacedAt;
    assert forall i :: i in Placed(offset, n, v) ==> offset <= i < offset + n;
    assert forall i :: i in Inside(ones, offset, n) <==> i in ones && offset <= i < offset + n;
  }

  // A number written changes a bit exactly when it is not the number that was there.
  lemma WriteChanges(ones: set<nat>, op: Op, x: int)
    requires ValidOp(op) && Fits(op.signed, op.bits, x)
    ensures Write(ones, op, x) != ones <==> x != Read(ones, op)
  {
    hide Write, Read;
    WriteReads(ones, op, x);
    WriteSame(ones, op);
  }

  lemma CountsIs(ones: set<nat>, op: Op, x: int, reply: int, dirty: bool)
    requires ValidOp(op) && !op.Get? && Fits(op.signed, op.bits, x)
    requires Apply(ones, op) == (Write(ones, op, x), Number(reply))
    ensures Counts(ones, op, dirty) <==> dirty || Read(ones, op) != x
  {
    WriteChanges(ones, op, x);
    hide Apply, Write, Read;
  }

  lemma NullCounts(ones: set<nat>, op: Op)
    requires ValidOp(op)
    ensures Apply(ones, op).1 == Null ==> !Counts(ones, op, true) && !Counts(ones, op, false)
  {
    hide Apply;
  }

  lemma {:induction false} NoChanges(ones: set<nat>, ops: seq<Op>, grown: bool)
    requires ValidOps(ops)
    ensures Changes(ones, ops, grown) == 0 ==> ApplyAll(ones, ops).0 == ones
    decreases |ops|
  {
    if ops != [] {
      var (front, op) := (ops[..|ops| - 1], ops[|ops| - 1]);
      NoChanges(ones, front, grown);
      FailsAlone(ApplyAll(ones, front).0, op);
      hide Apply;
    }
  }

  lemma FailsAlone(ones: set<nat>, op: Op)
    requires ValidOp(op)
    ensures !Writes(ones, op) ==> Apply(ones, op).0 == ones
  {}

  // Operation `i` writes when its turn comes.
  predicate WritesAt(ones: set<nat>, ops: seq<Op>, i: nat)
    requires ValidOps(ops) && i < |ops|
  {
    Writes(ApplyAll(ones, ops[..i]).0, ops[i])
  }

  lemma {:induction false} GrownCounts(ones: set<nat>, ops: seq<Op>)
    requires ValidOps(ops)
    ensures Changes(ones, ops, true) == 0 <==> forall i | 0 <= i < |ops| :: !WritesAt(ones, ops, i)
    decreases |ops|
  {
    hide Apply, Writes;
    if ops != [] {
      var front := ops[..|ops| - 1];
      GrownCounts(ones, front);
      forall i | 0 <= i < |front|
        ensures WritesAt(ones, ops, i) <==> WritesAt(ones, front, i)
      {
        assert front[..i] == ops[..i];
      }
      assert WritesAt(ones, ops, |front|) <==> Writes(ApplyAll(ones, front).0, ops[|front|]);
    }
  }

  // A string that is changed without being counted as changed, so that nobody is told and nothing is logged, is one
  // that grew to make room for writes that then all failed.
  lemma ChangeUncounted(ones: set<nat>, length: nat, ops: seq<Op>)
    requires ValidOps(ops)
    ensures var grown := Grown(length, ops) != length;
            Changes(ones, ops, grown) == 0 && (ApplyAll(ones, ops).0 != ones || grown) <==>
            grown && forall i | 0 <= i < |ops| :: !WritesAt(ones, ops, i)
  {
    NoChanges(ones, ops, Grown(length, ops) != length);
    GrownCounts(ones, ops);
    hide Changes, ApplyAll, Grown, WritesAt;
  }

  // For example setting a byte to 256 at the end of a missing key: the reply is Null, the key is there.
  lemma FailCreates()
    ensures var ops := [Set(false, 8, 0, 256, Fail)];
            && ValidOps(ops) && ApplyAll({}, ops) == ({}, [Null])
            && Grown(0, ops) == 1 && Changes({}, ops, true) == 0
  {
    var op := Set(false, 8, 0, 256, Fail);
    assert Pow2(8) == 0x100;
    assert Apply({}, op) == ({}, Null);
    hide Apply, Pow2;
    OneOp({}, 0, op);
    assert [] + [Null] == [Null];
  }

  lemma OneOp(ones: set<nat>, length: nat, op: Op)
    requires ValidOp(op)
    ensures var (t, reply) := Apply(ones, op);
            var end := (op.offset + op.bits - 1) / 8 + 1;
            && ValidOps([op]) && ApplyAll(ones, [op]) == (t, [] + [reply])
            && Grown(length, [op]) == (if !op.Get? && end > length then end else length)
            && Changes(ones, [op], true) == if Counts(ones, op, true) then 1 else 0
  {
    hide Apply, Counts;
    assert [op][..0] == [];
    NothingDone(ones, length);
  }

  // ---------- the loop ----------

  lemma {:induction false} FieldShift(a: set<nat>, b: set<nat>, i: nat, j: nat, n: nat)
    requires forall k | 0 <= k < n :: SameBit(a, b, i, j, k)
    ensures Field(a, i, n) == Field(b, j, n)
    decreases n
  {
    if n > 0 {
      FieldShift(a, b, i, j, n - 1);
      assert SameBit(a, b, i, j, n - 1);
    }
  }

  predicate SameBit(a: set<nat>, b: set<nat>, i: nat, j: nat, k: nat) { i + k in a <==> j + k in b }

  // GET copies up to nine bytes, so that a field can end behind the string.
  method NineBytes(src: Bytes, byte: nat) returns (buf: Bytes)
    ensures |buf| == 9 && forall i | 0 <= i < 9 :: buf[i] == if byte + i < |src| then src[byte + i] else 0
  {
    var a := new bv8[9](_ => 0);
    var i := 0;
    while i < 9
      invariant 0 <= i <= 9
      invariant forall k | 0 <= k < 9 :: a[k] == if k < i && byte + k < |src| then src[byte + k] else 0
    {
      if i + byte >= |src| {
        break;
      }
      a[i] := src[i + byte];
      i := i + 1;
    }
    buf := a[..];
  }

  lemma NineBytesField(src: Bytes, buf: Bytes, offset: nat, bits: nat)
    requires bits <= 64 && |buf| == 9
    requires forall i | 0 <= i < 9 :: buf[i] == if offset / 8 + i < |src| then src[offset / 8 + i] else 0
    ensures Field(Ones(buf), offset % 8, bits) == Field(Ones(src), offset, bits)
  {
    var (a, b) := (Ones(buf), Ones(src));
    hide BitOf, Field;
    forall k | 0 <= k < bits
      ensures SameBit(a, b, offset % 8, offset, k)
    {
      var (x, y) := (offset % 8 + k, offset + k);
      InOnes(buf, x);
      InOnes(src, y);
      assert y / 8 == offset / 8 + x / 8 && y % 8 == x % 8;
      NoBits(x % 8);
    }
    FieldShift(a, b, offset % 8, offset, bits);
  }

  lemma NoBits(k: nat)
    requires k < 8
    ensures !BitOf(0, k)
  {}

  method ReadField(src: Bytes, op: Op) returns (value: int)
    requires ValidOp(op)
    ensures value == Read(Ones(src), op)
  {
    hide Field, Ones, SignedOf, Pow2;
    var byte := op.offset / 8;
    var buf := NineBytes(src, byte);
    NineBytesField(src, buf, op.offset, op.bits);
    var at := op.offset - byte * 8;
    assert at == op.offset % 8;
    if op.signed {
      value := GetSignedBitfield(buf, at, op.bits);
    } else {
      value := GetUnsignedBitfield(buf, at, op.bits);
    }
  }

  // The branch of SET and INCRBY for signed fields.
  method UpdateSigned(p: array<bv8>, op: Op, dirty: bool) returns (reply: Reply, counts: bool)
    requires ValidOp(op) && !op.Get? && op.signed && op.offset + op.bits <= 8 * p.Length
    modifies p
    ensures (Ones(p[..]), reply) == Apply(old(Ones(p[..])), op)
    ensures counts <==> Counts(old(Ones(p[..])), op, dirty)
  {
    hide Ones, Field, SignedOf, Wrapped, Store, SignedSetLimit, Pow2, ToU64, Counts, Write;
    ghost var ones := Ones(p[..]);
    ReadFits(ones, op);
    Widths(op.bits);
    Powers();
    var oldval := GetSignedBitfield(p[..], op.offset, op.bits);
    var newval, overflow, retval;
    if op.IncrBy? {
      var wrapped;
      overflow, wrapped := CheckSignedBitfieldOverflow(oldval, op.incr, op.bits, op.owtype, 0);
      newval := if overflow != 0 then wrapped else oldval + op.incr;
      retval := newval;
    } else {
      newval := op.value;
      var wrapped;
      overflow, wrapped := CheckSignedBitfieldOverflow(newval, 0, op.bits, op.owtype, 0);
      if overflow != 0 {
        newval := wrapped;
      }
      retval := oldval;
    }
    if !(overflow != 0 && op.owtype == Fail) {
      SignedStore(ones, op, newval);
      WrappedFits(true, op.bits, if op.IncrBy? then oldval + op.incr else op.value);
      LimitFits(op.bits, if op.IncrBy? then oldval else op.value);
      CountsIs(ones, op, newval, retval, dirty);
      SetSignedBitfield(p, op.offset, op.bits, newval);
      reply := Number(retval);
      counts := dirty || oldval != newval;
    } else {
      NullCounts(ones, op);
      reply := Null;
      counts := false;
    }
  }

  lemma SignedStore(ones: set<nat>, op: Op, x: int)
    requires ValidOp(op)
    ensures Store(ones, op.offset, op.bits, ToU64(x)) == Write(ones, op, x)
  {
    hide Store;
    StoreLow(ones, op.offset, op.bits, ToU64(x));
    WrapUnsigned(x, op.bits);
  }

  // The branch of SET and INCRBY for unsigned fields.
  method UpdateUnsigned(p: array<bv8>, op: Op, dirty: bool) returns (reply: Reply, counts: bool)
    requires ValidOp(op) && !op.Get? && !op.signed && op.offset + op.bits <= 8 * p.Length
    modifies p
    ensures (Ones(p[..]), reply) == Apply(old(Ones(p[..])), op)
    ensures counts <==> Counts(old(Ones(p[..])), op, dirty)
  {
    hide Ones, Field, Wrapped, Store, Pow2, ToU64, Counts, Write;
    ghost var ones := Ones(p[..]);
    ReadFits(ones, op);
    Widths(op.bits);
    Powers();
    var oldval := GetUnsignedBitfield(p[..], op.offset, op.bits);
    var newval: nat, overflow, retval: nat;
    if op.IncrBy? {
      newval := ToU64(oldval + op.incr);
      var wrapped;
      overflow, wrapped := CheckUnsignedBitfieldOverflow(oldval, op.incr, op.bits, op.owtype, 0);
      InU64(oldval + op.incr);
      if overflow != 0 {
        newval := wrapped;
      }
      retval := newval;
    } else {
      newval := ToU64(op.value);
      var wrapped;
      overflow, wrapped := CheckUnsignedBitfieldOverflow(newval, 0, op.bits, op.owtype, 0);
      if overflow != 0 {
        newval := wrapped;
      }
      retval := oldval;
    }
    if !(overflow != 0 && op.owtype == Fail) {
      WrappedFits(false, op.bits, if op.IncrBy? then oldval + op.incr else ToU64(op.value));
      InU64(newval);
      SignedStore(ones, op, newval);
      CountsIs(ones, op, newval, retval, dirty);
      SetUnsignedBitfield(p, op.offset, op.bits, newval);
      reply := Number(retval);
      counts := dirty || oldval != newval;
    } else {
      NullCounts(ones, op);
      reply := Null;
      counts := false;
    }
  }

  lemma InU64(x: int)
    ensures 0 <= x < U64 ==> ToU64(x) == x
  {}

  // lookupStringForBitCommand: room up to the farthest bit to be written; the new bytes are zero.
  method MakeRoom(o: array<bv8>, maxbit: nat) returns (p: array<bv8>)
    ensures fresh(p) && p.Length == (if o.Length > maxbit / 8 then o.Length else maxbit / 8 + 1)
    ensures Ones(p[..]) == Ones(o[..])
  {
    var size := if o.Length > maxbit / 8 then o.Length else maxbit / 8 + 1;
    p := new bv8[size](_ => 0);
    for i := 0 to o.Length
      invariant forall k | 0 <= k < size :: p[k] == if k < i then o[k] else 0
    {
      p[i] := o[i];
    }
    ZerosBehind(o[..], p[..]);
  }

  // Zero bytes behind a string are no bits.
  lemma ZerosBehind(s: Bytes, t: Bytes)
    requires |s| <= |t| && forall k | 0 <= k < |t| :: t[k] == if k < |s| then s[k] else 0
    ensures Ones(s) == Ones(t)
  {
    hide BitOf;
    forall i: nat
      ensures i in Ones(s) <==> i in Ones(t)
    {
      InOnes(s, i);
      InOnes(t, i);
      NoBits(i % 8);
    }
  }

  // The first bit that need not be there: what the parsing loop of bitfieldGeneric finds out about the writes.
  method HighestWrite(length: nat, ops: seq<Op>) returns (readonly: bool, highest: nat)
    requires ValidOps(ops)
    ensures readonly <==> forall k | 0 <= k < |ops| :: ops[k].Get?
    ensures forall k | 0 <= k < |ops| :: !ops[k].Get? ==> ops[k].offset + ops[k].bits - 1 <= highest
    ensures Grown(length, ops) == if readonly || length > highest / 8 then length else highest / 8 + 1
  {
    readonly, highest := true, 0;
    for j := 0 to |ops|
      invariant readonly <==> forall k | 0 <= k < j :: ops[k].Get?
      invariant readonly ==> highest == 0
      invariant forall k | 0 <= k < j :: !ops[k].Get? ==> ops[k].offset + ops[k].bits - 1 <= highest
      invariant Grown(length, ops[..j]) == if readonly || length > highest / 8 then length else highest / 8 + 1
    {
      assert ValidOp(ops[j]);
      assert ops[..j + 1][..j] == ops[..j];
      if !ops[j].Get? {
        readonly := false;
        if highest < ops[j].offset + ops[j].bits - 1 {
          highest := ops[j].offset + ops[j].bits - 1;
        }
      }
    }
    assert ops[..|ops|] == ops;
  }

  // bitfieldGeneric from the parsed operations on: the string grows if it has to, and then each operation does to it
  // what it does to the infinite bit array.
  method BitfieldGeneric(o: array<bv8>, ops: seq<Op>) returns (p: array<bv8>, replies: seq<Reply>, changes: nat)
    requires ValidOps(ops)
    modifies o
    ensures (Ones(p[..]), replies) == ApplyAll(old(Ones(o[..])), ops)
    ensures p.Length == Grown(o.Length, ops)
    ensures changes == Changes(old(Ones(o[..])), ops, p.Length != o.Length)
  {
    hide Ones, Apply, Counts;
    ghost var ones := Ones(o[..]);
    var readonly, highest := HighestWrite(o.Length, ops);
    p := o;
    if !readonly {
      p := MakeRoom(o, highest);
    }
    var dirty := p.Length != o.Length;
    NothingDone(ones, o.Length);
    replies, changes := [], 0;
    for j := 0 to |ops|
      invariant p == o || fresh(p)
      invariant !readonly ==> 8 * p.Length > highest
      invariant (Ones(p[..]), replies) == ApplyAll(ones, ops[..j])
      invariant changes == Changes(ones, ops[..j], dirty)
    {
      assert ValidOp(ops[j]);
      assert ops[..j + 1][..j] == ops[..j];
      var reply, counts;
      if ops[j].Get? {
        var value := ReadField(p[..], ops[j]);
        reply, counts := Number(value), false;
        GetIs(Ones(p[..]), ops[j]);
      } else if ops[j].signed {
        reply, counts := UpdateSigned(p, ops[j], dirty);
      } else {
        reply, counts := UpdateUnsigned(p, ops[j], dirty);
      }
      replies := replies + [reply];
      if counts {
        changes := changes + 1;
      }
    }
    assert ops[..|ops|] == ops;
  }

  lemma NothingDone(ones: set<nat>, length: nat)
    ensures ApplyAll(ones, []) == (ones, []) && Changes(ones, [], true) == 0 == Changes(ones, [], false)
    ensures Grown(length, []) == length
  {}

  lemma GetIs(ones: set<nat>, op: Op)
    requires ValidOp(op) && op.Get?
    ensures Apply(ones, op) == (ones, Number(Read(ones, op)))
    ensures !Counts(ones, op, true) && !Counts(ones, op, false)
  {}
}
