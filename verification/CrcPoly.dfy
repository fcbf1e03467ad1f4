// The checksums as polynomials: what a register holds, and that the checksum is the remainder of a division.
module CrcPoly {
  import opened Gf2
  import opened Repeats
  import C = Crc64
  import S = Crc16

  // ---------- 64 bits ----------

  // `j` times doubled.
  function Up64(r: bv64, j: nat): bv64 { if j == 0 then r else C.Double(Up64(r, j - 1)) }

  // The coefficient of x^i.
  predicate Bit64(r: bv64, i: nat)
    requires i < 64
  {
    C.Top(Up64(r, 63 - i))
  }

  // The polynomial that a register stands for.
  function Poly64(r: bv64): Poly { set i | 0 <= i < 64 && Bit64(r, i) }

  lemma {:induction false} UpAdd64(r: bv64, m: nat, n: nat)
    ensures Up64(r, m + n) == Up64(Up64(r, m), n)
    decreases n
  {
    hide C.Double;
    if n > 0 {
      UpAdd64(r, m, n - 1);
    }
  }

  lemma {:induction false} UpXor64(a: bv64, b: bv64, j: nat)
    ensures Up64(C.Xor(a, b), j) == C.Xor(Up64(a, j), Up64(b, j))
    decreases j
  {
    hide C.Double, C.Xor;
    if j > 0 {
      UpXor64(a, b, j - 1);
      C.DoubleLinear(Up64(a, j - 1), Up64(b, j - 1));
    }
  }

  lemma UpBy2(r: bv64)
    ensures Up64(r, 1) == r << 1 && Up64(r, 2) == r << 2
  {
    assert Up64(r, 0) == r;
    assert Up64(r, 1) == C.Double(r);
    hide Up64;
    assert (r << 1) << 1 == r << 2;
    UpTwice(r);
  }

  lemma UpTwice(r: bv64)
    ensures Up64(r, 2) == C.Double(C.Double(r))
  {
    hide C.Double;
    assert Up64(r, 1) == C.Double(Up64(r, 0));
  }

  lemma UpBy4(r: bv64)
    ensures Up64(r, 4) == r << 4
  {
    hide *;
    UpBy2(r);
    UpBy2(r << 2);
    UpAdd64(r, 2, 2);
    assert (r << 2) << 2 == r << 4;
  }

  lemma UpBy8(r: bv64)
    ensures Up64(r, 8) == r << 8
  {
    hide *;
    UpBy4(r);
    UpBy4(r << 4);
    UpAdd64(r, 4, 4);
    assert (r << 4) << 4 == r << 8;
  }

  lemma UpBy16(r: bv64)
    ensures Up64(r, 16) == r << 16
  {
    hide *;
    UpBy8(r);
    UpBy8(r << 8);
    UpAdd64(r, 8, 8);
    assert (r << 8) << 8 == r << 16;
  }

  lemma UpBy32(r: bv64)
    ensures Up64(r, 32) == r << 32
  {
    hide *;
    UpBy16(r);
    UpBy16(r << 16);
    UpAdd64(r, 16, 16);
    assert (r << 16) << 16 == r << 32;
  }

  // After 64 doublings nothing is left.
  lemma UpOut64(r: bv64)
    ensures Up64(r, 64) == 0
  {
    hide *;
    UpBy32(r);
    UpBy32(r << 32);
    UpAdd64(r, 32, 32);
    assert (r << 32) << 32 == 0;
  }

  lemma Last64()
    ensures Up64(1, 63) == 0x8000000000000000
  {
    hide *;
    UpBy32(1);
    UpBy16(0x100000000);
    UpAdd64(1, 32, 16);
    UpBy8(0x1000000000000);
    UpAdd64(1, 48, 8);
    UpBy4(0x100000000000000);
    UpAdd64(1, 56, 4);
    UpBy2(0x1000000000000000);
    UpAdd64(1, 60, 2);
    UpBy2(0x4000000000000000);
    UpAdd64(1, 62, 1);
  }

  predicate Single64(p: bv64) { p != 0 && p & (p - 1) == 0 }

  lemma SingleNext64(p: bv64)
    requires Single64(p)
    ensures C.Top(p) ==> p << 1 == 0
    ensures !C.Top(p) ==> Single64(p << 1)
  {}

  lemma {:induction false} UpZero64(j: nat)
    ensures Up64(0, j) == 0
    decreases j
  {
    if j > 0 {
      UpZero64(j - 1);
      hide Up64;
      assert C.Double(0) == 0;
    }
  }

  // A single bit reaches the top after 63 doublings and not before.
  lemma {:induction false} UpOne64(j: nat)
    requires j < 63
    ensures Single64(Up64(1, j)) && !C.Top(Up64(1, j))
    decreases j
  {
    if j == 0 {
      assert Up64(1, 0) == 1;
    } else {
      UpOne64(j - 1);
      SingleNext64(Up64(1, j - 1));
    }
    hide Up64, Single64, C.Top;
    if C.Top(Up64(1, j)) {
      NotYet64(j);
    }
  }

  lemma NotYet64(j: nat)
    requires j < 63 && Single64(Up64(1, j))
    ensures !C.Top(Up64(1, j))
  {
    SingleNext64(Up64(1, j));
    UpAdd64(1, j + 1, 62 - j);
    UpZero64(62 - j);
    Last64();
    UpStep64(1, j);
    hide Up64, Single64;
  }

  lemma UpStep64(r: bv64, j: nat)
    ensures Up64(r, j + 1) == Up64(r, j) << 1
  {}

  lemma XorBit64(a: bv64, b: bv64, i: nat)
    requires i < 64
    ensures Bit64(C.Xor(a, b), i) <==> Bit64(a, i) != Bit64(b, i)
  {
    hide C.Xor, C.Top, Up64;
    UpXor64(a, b, 63 - i);
    C.TopLinear(Up64(a, 63 - i), Up64(b, 63 - i));
  }

  lemma UpDouble64(r: bv64, j: nat)
    ensures Up64(C.Double(r), j) == Up64(r, j + 1)
  {
    UpAdd64(r, 1, j);
    assert Up64(r, 1) == C.Double(Up64(r, 0));
  }

  lemma DoubleBit64(r: bv64, i: nat)
    requires 0 < i < 64
    ensures Bit64(C.Double(r), i) <==> Bit64(r, i - 1)
  {
    UpDouble64(r, 63 - i);
  }

  lemma OneBit64(bit: bool, i: nat)
    requires i < 64
    ensures Bit64(C.One(bit), i) <==> bit && i == 0
  {
    UpZero64(63 - i);
    if i > 0 {
      UpOne64(63 - i);
    } else {
      Last64();
    }
    hide Up64;
  }

  lemma XorPoly64(a: bv64, b: bv64)
    ensures Poly64(C.Xor(a, b)) == Add(Poly64(a), Poly64(b))
  {
    hide Bit64, C.Xor;
    forall i: nat | i < 64
      ensures Bit64(C.Xor(a, b), i) <==> Bit64(a, i) != Bit64(b, i)
    {
      XorBit64(a, b, i);
    }
  }

  lemma LowBit64(r: bv64)
    ensures !Bit64(C.Double(r), 0)
  {
    UpDouble64(r, 63);
    UpOut64(r);
    hide Up64;
  }

  lemma TopBit64(r: bv64)
    ensures Bit64(r, 63) <==> C.Top(r)
  {}

  // Doubling the register multiplies by x, but for the coefficient that falls out.
  lemma DoublePoly64(r: bv64)
    ensures Raise(Poly64(r), 1) == Poly64(C.Double(r)) + if C.Top(r) then {64} else {}
    ensures 64 !in Poly64(C.Double(r))
  {
    hide Bit64, C.Double, C.Top;
    LowBit64(r);
    TopBit64(r);
    forall i: nat
      ensures i in Raise(Poly64(r), 1) <==> i in Poly64(C.Double(r)) || (C.Top(r) && i == 64)
    {
      InRaise(Poly64(r), 1, i);
      if 0 < i < 64 {
        DoubleBit64(r, i);
      }
    }
  }

  lemma OnePoly64(bit: bool)
    ensures Poly64(C.One(bit)) == Coefficient(bit)
  {
    hide Bit64, C.One;
    forall i: nat | i < 64
      ensures Bit64(C.One(bit), i) <==> bit && i == 0
    {
      OneBit64(bit, i);
    }
  }

  lemma ZeroPoly64()
    ensures Poly64(0) == {}
  {
    OnePoly64(false);
  }

  // The generator without its highest term.
  function Low64(): Poly { Poly64(C.POLY) }

  lemma FedPoly64(feed: bool)
    ensures Poly64(C.Fed(feed)) == if feed then Low64() else {}
  {
    ZeroPoly64();
    hide Bit64;
  }

  // One step of the division.
  lemma StepPoly64(r: bv64, bit: bool)
    ensures var s := Add(Raise(Poly64(r), 1), Coefficient(bit));
            Poly64(C.Xor(C.TimesX(r), C.One(bit))) == if 64 in s then Add(s, Divisor(64, Low64())) else s
  {
    hide Bit64, C.Xor, C.Double, C.Top, C.Fed, C.One, Poly64;
    XorPoly64(C.TimesX(r), C.One(bit));
    XorPoly64(C.Double(r), C.Fed(C.Top(r)));
    OnePoly64(bit);
    DoublePoly64(r);
    FedPoly64(C.Top(r));
    Below64(C.POLY);
    hide Raise;
    Reduced(64, Poly64(C.Double(r)), C.Top(r), Coefficient(bit), Low64());
  }

  lemma Below64(r: bv64)
    ensures Below(Poly64(r), 64)
  {}

  // The register after the message is its remainder as a polynomial.
  lemma {:induction false} RegisterIs64(bits: seq<bool>)
    ensures Poly64(C.Remainder(bits)) == Remainder(bits, 64, Low64())
  {
    hide Poly64, C.Xor, C.TimesX, C.One, Low64, Divisor, Raise;
    if bits == [] {
      ZeroPoly64();
    } else {
      RegisterIs64(bits[..|bits| - 1]);
      StepPoly64(C.Remainder(bits[..|bits| - 1]), bits[|bits| - 1]);
    }
  }

  // The checksum of a message, started from 0 and read backwards, is the one polynomial of degree below 64 that differs
  // from the message times x^64 by a multiple of the generator.
  lemma Checksum64(data: seq<bv8>, r: Poly)
    ensures var m := Raise(PolyOf(C.BitsOf(data)), 64);
            Leaves(m, Divisor(64, Low64()), 64, r) <==> r == Poly64(C.RawFold(0, data))
    ensures C.Fold(0, data) == C.Reflect(C.RawFold(0, data))
  {
    hide *;
    C.ChecksumIsRemainder(data);
    RegisterIs64(C.BitsOf(data) + Repeat(false, 64));
    PolyZeros(C.BitsOf(data), 64);
    Below64(C.POLY);
    LowIs64();
    RemainderIs(C.BitsOf(data) + Repeat(false, 64), 64, Low64(), r);
  }

  lemma LowIs64()
    ensures Low64() == Poly64(C.POLY)
  {}

  // ---------- 16 bits ----------

  // `j` times doubled.
  function Up16(r: bv16, j: nat): bv16 { if j == 0 then r else S.Shift(Up16(r, j - 1)) }

  // The coefficient of x^i.
  predicate Bit16(r: bv16, i: nat)
    requires i < 16
  {
    S.Top(Up16(r, 15 - i))
  }

  // The polynomial that a register stands for.
  function Poly16(r: bv16): Poly { set i | 0 <= i < 16 && Bit16(r, i) }

  lemma {:induction false} UpAdd16(r: bv16, m: nat, n: nat)
    ensures Up16(r, m + n) == Up16(Up16(r, m), n)
    decreases n
  {
    hide S.Shift;
    if n > 0 {
      UpAdd16(r, m, n - 1);
    }
  }

  lemma {:induction false} UpXor16(a: bv16, b: bv16, j: nat)
    ensures Up16(S.Xor(a, b), j) == S.Xor(Up16(a, j), Up16(b, j))
    decreases j
  {
    hide S.Shift, S.Xor;
    if j > 0 {
      UpXor16(a, b, j - 1);
      S.ShiftLinear(Up16(a, j - 1), Up16(b, j - 1));
    }
  }

  lemma ShortBy2(r: bv16)
    ensures Up16(r, 1) == r << 1 && Up16(r, 2) == r << 2
  {
    assert Up16(r, 0) == r;
    assert Up16(r, 1) == S.Shift(r);
    hide Up16;
    assert (r << 1) << 1 == r << 2;
    ShortTwice(r);
  }

  lemma ShortTwice(r: bv16)
    ensures Up16(r, 2) == S.Shift(S.Shift(r))
  {
    hide S.Shift;
    assert Up16(r, 1) == S.Shift(Up16(r, 0));
  }

  lemma ShortBy4(r: bv16)
    ensures Up16(r, 4) == r << 4
  {
    hide *;
    ShortBy2(r);
    ShortBy2(r << 2);
    UpAdd16(r, 2, 2);
    assert (r << 2) << 2 == r << 4;
  }

  lemma ShortBy8(r: bv16)
    ensures Up16(r, 8) == r << 8
  {
    hide *;
    ShortBy4(r);
    ShortBy4(r << 4);
    UpAdd16(r, 4, 4);
    assert (r << 4) << 4 == r << 8;
  }

  // After 16 doublings nothing is left.
  lemma UpOut16(r: bv16)
    ensures Up16(r, 16) == 0
  {
    hide *;
    ShortBy8(r);
    ShortBy8(r << 8);
    UpAdd16(r, 8, 8);
    assert (r << 8) << 8 == 0;
  }

  lemma Last16()
    ensures Up16(1, 15) == 0x8000
  {
    hide *;
    ShortBy8(1);
    ShortBy4(0x100);
    UpAdd16(1, 8, 4);
    ShortBy2(0x1000);
    UpAdd16(1, 12, 2);
    ShortBy2(0x4000);
    UpAdd16(1, 14, 1);
  }

  predicate Single16(p: bv16) { p != 0 && p & (p - 1) == 0 }

  lemma SingleNext16(p: bv16)
    requires Single16(p)
    ensures S.Top(p) ==> p << 1 == 0
    ensures !S.Top(p) ==> Single16(p << 1)
  {}

  lemma {:induction false} UpZero16(j: nat)
    ensures Up16(0, j) == 0
    decreases j
  {
    if j > 0 {
      UpZero16(j - 1);
      hide Up16;
      assert S.Shift(0) == 0;
    }
  }

  // A single bit reaches the top after 15 doublings and not before.
  lemma {:induction false} UpOne16(j: nat)
    requires j < 15
    ensures Single16(Up16(1, j)) && !S.Top(Up16(1, j))
    decreases j
  {
    if j == 0 {
      assert Up16(1, 0) == 1;
    } else {
      UpOne16(j - 1);
      SingleNext16(Up16(1, j - 1));
    }
    hide Up16, Single16, S.Top;
    if S.Top(Up16(1, j)) {
      NotYet16(j);
    }
  }

  lemma NotYet16(j: nat)
    requires j < 15 && Single16(Up16(1, j))
    ensures !S.Top(Up16(1, j))
  {
    SingleNext16(Up16(1, j));
    UpAdd16(1, j + 1, 14 - j);
    UpZero16(14 - j);
    Last16();
    UpStep16(1, j);
    hide Up16, Single16;
  }

  lemma UpStep16(r: bv16, j: nat)
    ensures Up16(r, j + 1) == Up16(r, j) << 1
  {}

  lemma XorBit16(a: bv16, b: bv16, i: nat)
    requires i < 16
    ensures Bit16(S.Xor(a, b), i) <==> Bit16(a, i) != Bit16(b, i)
  {
    hide S.Xor, S.Top, Up16;
    UpXor16(a, b, 15 - i);
    S.TopLinear(Up16(a, 15 - i), Up16(b, 15 - i));
  }

  lemma UpDouble16(r: bv16, j: nat)
    ensures Up16(S.Shift(r), j) == Up16(r, j + 1)
  {
    UpAdd16(r, 1, j);
    assert Up16(r, 1) == S.Shift(Up16(r, 0));
  }

  lemma DoubleBit16(r: bv16, i: nat)
    requires 0 < i < 16
    ensures Bit16(S.Shift(r), i) <==> Bit16(r, i - 1)
  {
    UpDouble16(r, 15 - i);
  }

  lemma OneBit16(bit: bool, i: nat)
    requires i < 16
    ensures Bit16(S.One(bit), i) <==> bit && i == 0
  {
    UpZero16(15 - i);
    if i > 0 {
      UpOne16(15 - i);
    } else {
      Last16();
    }
    hide Up16;
  }

  lemma XorPoly16(a: bv16, b: bv16)
    ensures Poly16(S.Xor(a, b)) == Add(Poly16(a), Poly16(b))
  {
    hide Bit16, S.Xor;
    forall i: nat | i < 16
      ensures Bit16(S.Xor(a, b), i) <==> Bit16(a, i) != Bit16(b, i)
    {
      XorBit16(a, b, i);
    }
  }

  lemma LowBit16(r: bv16)
    ensures !Bit16(S.Shift(r), 0)
  {
    UpDouble16(r, 15);
    UpOut16(r);
    hide Up16;
  }

  lemma TopBit16(r: bv16)
    ensures Bit16(r, 15) <==> S.Top(r)
  {}

  // Doubling the register multiplies by x, but for the coefficient that falls out.
  lemma DoublePoly16(r: bv16)
    ensures Raise(Poly16(r), 1) == Poly16(S.Shift(r)) + if S.Top(r) then {16} else {}
    ensures 16 !in Poly16(S.Shift(r))
  {
    hide Bit16, S.Shift, S.Top;
    LowBit16(r);
    TopBit16(r);
    forall i: nat
      ensures i in Raise(Poly16(r), 1) <==> i in Poly16(S.Shift(r)) || (S.Top(r) && i == 16)
    {
      InRaise(Poly16(r), 1, i);
      if 0 < i < 16 {
        DoubleBit16(r, i);
      }
    }
  }

  lemma OnePoly16(bit: bool)
    ensures Poly16(S.One(bit)) == Coefficient(bit)
  {
    hide Bit16, S.One;
    forall i: nat | i < 16
      ensures Bit16(S.One(bit), i) <==> bit && i == 0
    {
      OneBit16(bit, i);
    }
  }

  lemma ZeroPoly16()
    ensures Poly16(0) == {}
  {
    OnePoly16(false);
  }

  // The generator without its highest term.
  function Low16(): Poly { Poly16(S.POLY) }

  lemma FedPoly16(feed: bool)
    ensures Poly16(S.Fed(feed)) == if feed then Low16() else {}
  {
    ZeroPoly16();
    hide Bit16;
  }

  // One step of the division.
  lemma StepPoly16(r: bv16, bit: bool)
    ensures var s := Add(Raise(Poly16(r), 1), Coefficient(bit));
            Poly16(S.Xor(S.TimesX(r), S.One(bit))) == if 16 in s then Add(s, Divisor(16, Low16())) else s
  {
    hide Bit16, S.Xor, S.Shift, S.Top, S.Fed, S.One, Poly16;
    XorPoly16(S.TimesX(r), S.One(bit));
    XorPoly16(S.Shift(r), S.Fed(S.Top(r)));
    OnePoly16(bit);
    DoublePoly16(r);
    FedPoly16(S.Top(r));
    Below16(S.POLY);
    hide Raise;
    Reduced(16, Poly16(S.Shift(r)), S.Top(r), Coefficient(bit), Low16());
  }

  lemma Below16(r: bv16)
    ensures Below(Poly16(r), 16)
  {}

  // The register after the message is its remainder as a polynomial.
  lemma {:induction false} RegisterIs16(bits: seq<bool>)
    ensures Poly16(S.Remainder(bits)) == Remainder(bits, 16, Low16())
  {
    hide Poly16, S.Xor, S.TimesX, S.One, Low16, Divisor, Raise;
    if bits == [] {
      ZeroPoly16();
    } else {
      RegisterIs16(bits[..|bits| - 1]);
      StepPoly16(S.Remainder(bits[..|bits| - 1]), bits[|bits| - 1]);
    }
  }

  // The CRC-16 of a message is the one polynomial of degree below 16 that differs from the message times x^16 by a
  // multiple of the generator.
  lemma Checksum16(data: seq<bv8>, r: Poly)
    ensures var m := Raise(PolyOf(S.BitsOf(data)), 16);
            Leaves(m, Divisor(16, Low16()), 16, r) <==> r == Poly16(S.Fold(0, data))
  {
    hide *;
    S.FoldIsRemainder(data);
    RegisterIs16(S.BitsOf(data) + Repeat(false, 16));
    PolyZeros(S.BitsOf(data), 16);
    Below16(S.POLY);
    LowIs16();
    RemainderIs(S.BitsOf(data) + Repeat(false, 16), 16, Low16(), r);
  }

  lemma LowIs16()
    ensures Low16() == Poly16(S.POLY)
  {}
}
