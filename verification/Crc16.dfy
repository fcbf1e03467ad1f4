// CRC-16/XMODEM: the constant table of crc16.c, its byte-at-a-time walk, and the slice-by-8 walk of crcspeed.c.
module Crc16 {
  import B = Bits
  import W = Crc64
  import opened Repeats

  type Bytes = seq<bv8>

  // x^16 + x^12 + x^5 + 1, without its leading term.
  const POLY: bv16 := 0x1021

  const ROW_0: seq<bv16> := [
    0x0000, 0x1021, 0x2042, 0x3063, 0x4084, 0x50a5, 0x60c6, 0x70e7,
    0x8108, 0x9129, 0xa14a, 0xb16b, 0xc18c, 0xd1ad, 0xe1ce, 0xf1ef]
  const ROW_1: seq<bv16> := [
    0x1231, 0x0210, 0x3273, 0x2252, 0x52b5, 0x4294, 0x72f7, 0x62d6,
    0x9339, 0x8318, 0xb37b, 0xa35a, 0xd3bd, 0xc39c, 0xf3ff, 0xe3de]
  const ROW_2: seq<bv16> := [
    0x2462, 0x3443, 0x0420, 0x1401, 0x64e6, 0x74c7, 0x44a4, 0x5485,
    0xa56a, 0xb54b, 0x8528, 0x9509, 0xe5ee, 0xf5cf, 0xc5ac, 0xd58d]
  const ROW_3: seq<bv16> := [
    0x3653, 0x2672, 0x1611, 0x0630, 0x76d7, 0x66f6, 0x5695, 0x46b4,
    0xb75b, 0xa77a, 0x9719, 0x8738, 0xf7df, 0xe7fe, 0xd79d, 0xc7bc]
  const ROW_4: seq<bv16> := [
    0x48c4, 0x58e5, 0x6886, 0x78a7, 0x0840, 0x1861, 0x2802, 0x3823,
    0xc9cc, 0xd9ed, 0xe98e, 0xf9af, 0x8948, 0x9969, 0xa90a, 0xb92b]
  const ROW_5: seq<bv16> := [
    0x5af5, 0x4ad4, 0x7ab7, 0x6a96, 0x1a71, 0x0a50, 0x3a33, 0x2a12,
    0xdbfd, 0xcbdc, 0xfbbf, 0xeb9e, 0x9b79, 0x8b58, 0xbb3b, 0xab1a]
  const ROW_6: seq<bv16> := [
    0x6ca6, 0x7c87, 0x4ce4, 0x5cc5, 0x2c22, 0x3c03, 0x0c60, 0x1c41,
    0xedae, 0xfd8f, 0xcdec, 0xddcd, 0xad2a, 0xbd0b, 0x8d68, 0x9d49]
  const ROW_7: seq<bv16> := [
    0x7e97, 0x6eb6, 0x5ed5, 0x4ef4, 0x3e13, 0x2e32, 0x1e51, 0x0e70,
    0xff9f, 0xefbe, 0xdfdd, 0xcffc, 0xbf1b, 0xaf3a, 0x9f59, 0x8f78]
  const ROW_8: seq<bv16> := [
    0x9188, 0x81a9, 0xb1ca, 0xa1eb, 0xd10c, 0xc12d, 0xf14e, 0xe16f,
    0x1080, 0x00a1, 0x30c2, 0x20e3, 0x5004, 0x4025, 0x7046, 0x6067]
  const ROW_9: seq<bv16> := [
    0x83b9, 0x9398, 0xa3fb, 0xb3da, 0xc33d, 0xd31c, 0xe37f, 0xf35e,
    0x02b1, 0x1290, 0x22f3, 0x32d2, 0x4235, 0x5214, 0x6277, 0x7256]
  const ROW_A: seq<bv16> := [
    0xb5ea, 0xa5cb, 0x95a8, 0x8589, 0xf56e, 0xe54f, 0xd52c, 0xc50d,
    0x34e2, 0x24c3, 0x14a0, 0x0481, 0x7466, 0x6447, 0x5424, 0x4405]
  const ROW_B: seq<bv16> := [
    0xa7db, 0xb7fa, 0x8799, 0x97b8, 0xe75f, 0xf77e, 0xc71d, 0xd73c,
    0x26d3, 0x36f2, 0x0691, 0x16b0, 0x6657, 0x7676, 0x4615, 0x5634]
  const ROW_C: seq<bv16> := [
    0xd94c, 0xc96d, 0xf90e, 0xe92f, 0x99c8, 0x89e9, 0xb98a, 0xa9ab,
    0x5844, 0x4865, 0x7806, 0x6827, 0x18c0, 0x08e1, 0x3882, 0x28a3]
  const ROW_D: seq<bv16> := [
    0xcb7d, 0xdb5c, 0xeb3f, 0xfb1e, 0x8bf9, 0x9bd8, 0xabbb, 0xbb9a,
    0x4a75, 0x5a54, 0x6a37, 0x7a16, 0x0af1, 0x1ad0, 0x2ab3, 0x3a92]
  const ROW_E: seq<bv16> := [
    0xfd2e, 0xed0f, 0xdd6c, 0xcd4d, 0xbdaa, 0xad8b, 0x9de8, 0x8dc9,
    0x7c26, 0x6c07, 0x5c64, 0x4c45, 0x3ca2, 0x2c83, 0x1ce0, 0x0cc1]
  const ROW_F: seq<bv16> := [
    0xef1f, 0xff3e, 0xcf5d, 0xdf7c, 0xaf9b, 0xbfba, 0x8fd9, 0x9ff8,
    0x6e17, 0x7e36, 0x4e55, 0x5e74, 0x2e93, 0x3eb2, 0x0ed1, 0x1ef0]

  const CRC16TAB: seq<seq<bv16>> := [
    ROW_0, ROW_1, ROW_2, ROW_3, ROW_4, ROW_5, ROW_6, ROW_7,
    ROW_8, ROW_9, ROW_A, ROW_B, ROW_C, ROW_D, ROW_E, ROW_F]

  // The entry for one byte, the table being written in lines of sixteen.
  function Lookup(b: bv8): bv16
  {
    CRC16TAB[B.Nibble(b >> 4)][B.Nibble(b & 15)]
  }

  // ---------- division of polynomials over GF(2) ----------

  function Xor(a: bv16, b: bv16): bv16 { a ^ b }

  function Shift(r: bv16): bv16 { r << 1 }

  function Top(r: bv16): bool { r & 0x8000 != 0 }

  function Fed(feed: bool): bv16 { if feed then POLY else 0 }

  // Multiplication by x modulo the polynomial.
  function TimesX(r: bv16): bv16 { Xor(Shift(r), Fed(Top(r))) }

  function TimesXn(r: bv16, n: nat): bv16
    decreases n
  {
    if n == 0 then r else TimesX(TimesXn(r, n - 1))
  }

  function One(bit: bool): bv16 { if bit then 1 else 0 }

  // The remainder of the polynomial with coefficients `bits`, highest first.
  function Remainder(bits: seq<bool>): bv16
  {
    if bits == [] then 0 else Xor(TimesX(Remainder(bits[..|bits| - 1])), One(bits[|bits| - 1]))
  }

  // The low `k` bits of a byte, high bit first.
  function BitsOfByte(b: bv8, k: nat): seq<bool>
    decreases k
  {
    if k == 0 then [] else BitsOfByte(b >> 1, k - 1) + [b & 1 == 1]
  }

  function BitsOf(data: Bytes): seq<bool>
  {
    if data == [] then [] else BitsOf(data[..|data| - 1]) + BitsOfByte(data[|data| - 1], 8)
  }

  // A byte at the top of the register.
  function Place(b: bv8): bv16 { (b as bv16) << 8 }

  // The register after one more byte.
  function ByteStep(r: bv16, b: bv8): bv16 { TimesXn(Xor(r, Place(b)), 8) }

  function Fold(r: bv16, data: Bytes): bv16
    decreases |data|
  {
    if data == [] then r else ByteStep(Fold(r, data[..|data| - 1]), data[|data| - 1])
  }

  lemma XorAssoc(a: bv16, b: bv16, c: bv16)
    ensures Xor(Xor(a, b), c) == Xor(a, Xor(b, c))
  {
    assert (a ^ b) ^ c == a ^ (b ^ c);
  }

  lemma XorComm(a: bv16, b: bv16)
    ensures Xor(a, b) == Xor(b, a)
  {}

  lemma XorSwap(a: bv16, b: bv16, c: bv16, d: bv16)
    ensures Xor(Xor(a, b), Xor(c, d)) == Xor(Xor(a, c), Xor(b, d))
  {
    hide *;
    XorAssoc(a, b, Xor(c, d));
    XorAssoc(b, c, d);
    XorComm(b, c);
    XorAssoc(c, b, d);
    XorAssoc(a, c, Xor(b, d));
  }

  lemma XorZero(a: bv16)
    ensures Xor(a, 0) == a && Xor(0, a) == a
  {}

  lemma ShiftLinear(a: bv16, b: bv16)
    ensures Shift(Xor(a, b)) == Xor(Shift(a), Shift(b))
  {
    assert (a ^ b) << 1 == (a << 1) ^ (b << 1);
  }

  lemma TopLinear(a: bv16, b: bv16)
    ensures Top(Xor(a, b)) == (Top(a) != Top(b))
  {
    assert (a ^ b) & 0x8000 == (a & 0x8000) ^ (b & 0x8000);
    assert a & 0x8000 == 0 || a & 0x8000 == 0x8000;
    assert b & 0x8000 == 0 || b & 0x8000 == 0x8000;
  }

  lemma FedLinear(a: bool, b: bool)
    ensures Fed(a != b) == Xor(Fed(a), Fed(b))
  {}

  lemma TimesXLinear(a: bv16, b: bv16)
    ensures TimesX(Xor(a, b)) == Xor(TimesX(a), TimesX(b))
  {
    hide Xor, Shift, Top, Fed;
    ShiftLinear(a, b);
    TopLinear(a, b);
    FedLinear(Top(a), Top(b));
    XorSwap(Shift(a), Shift(b), Fed(Top(a)), Fed(Top(b)));
  }

  lemma {:induction false} TimesXnLinear(a: bv16, b: bv16, n: nat)
    ensures TimesXn(Xor(a, b), n) == Xor(TimesXn(a, n), TimesXn(b, n))
    decreases n
  {
    hide Xor, TimesX;
    if n > 0 {
      TimesXnLinear(a, b, n - 1);
      TimesXLinear(TimesXn(a, n - 1), TimesXn(b, n - 1));
    }
  }

  lemma {:induction false} TimesXnAdd(r: bv16, m: nat, n: nat)
    ensures TimesXn(r, m + n) == TimesXn(TimesXn(r, m), n)
    decreases n
  {
    hide TimesX;
    if n > 0 {
      TimesXnAdd(r, m, n - 1);
    }
  }

  lemma Eight(r: bv16)
    ensures TimesXn(r, 8) == TimesX(TimesX(TimesX(TimesX(TimesX(TimesX(TimesX(TimesX(r))))))))
  {
    hide TimesX;
    var r4 := TimesX(TimesX(TimesX(TimesX(r))));
    assert TimesXn(r, 4) == r4;
    assert TimesXn(r4, 4) == TimesX(TimesX(TimesX(TimesX(r4))));
    TimesXnAdd(r, 4, 4);
  }

  // While the top byte is empty, multiplying is shifting.
  lemma LowShifts(r: bv16)
    requires r & 0xff00 == 0
    ensures TimesXn(r, 8) == r << 8
  {
    Eight(r);
    hide TimesXn;
    var (r2, r4, r6) := (r << 2, r << 4, r << 6);
    assert TimesX(r) == r << 1 && TimesX(r << 1) == r2;
    assert TimesX(r2) == r2 << 1 && TimesX(r2 << 1) == r4;
    assert TimesX(r4) == r4 << 1 && TimesX(r4 << 1) == r6;
    assert TimesX(r6) == r6 << 1 && TimesX(r6 << 1) == r << 8;
  }

  // ---------- the constant table ----------

  function Entry(b: bv8): bv16 { TimesXn(Place(b), 8) }

  // A line of the table differs from the first one by a constant.
  function Xored(x: bv16): seq<bv16>
  {
    [Xor(ROW_0[0], x), Xor(ROW_0[1], x), Xor(ROW_0[2], x), Xor(ROW_0[3], x), Xor(ROW_0[4], x), Xor(ROW_0[5], x),
     Xor(ROW_0[6], x), Xor(ROW_0[7], x), Xor(ROW_0[8], x), Xor(ROW_0[9], x), Xor(ROW_0[10], x), Xor(ROW_0[11], x),
     Xor(ROW_0[12], x), Xor(ROW_0[13], x), Xor(ROW_0[14], x), Xor(ROW_0[15], x)]
  }

  lemma Lines0()
    ensures ROW_0 == Xored(ROW_0[0])
    ensures ROW_1 == Xored(ROW_1[0])
    ensures ROW_2 == Xored(ROW_2[0])
    ensures ROW_3 == Xored(ROW_3[0])
  {}

  lemma Lines1()
    ensures ROW_4 == Xored(ROW_4[0])
    ensures ROW_5 == Xored(ROW_5[0])
    ensures ROW_6 == Xored(ROW_6[0])
    ensures ROW_7 == Xored(ROW_7[0])
  {}

  lemma Lines2()
    ensures ROW_8 == Xored(ROW_8[0])
    ensures ROW_9 == Xored(ROW_9[0])
    ensures ROW_A == Xored(ROW_A[0])
    ensures ROW_B == Xored(ROW_B[0])
  {}

  lemma Lines3()
    ensures ROW_C == Xored(ROW_C[0])
    ensures ROW_D == Xored(ROW_D[0])
    ensures ROW_E == Xored(ROW_E[0])
    ensures ROW_F == Xored(ROW_F[0])
  {}

  lemma FirstLine0()
    ensures ROW_0[0] == Entry(0x00)
    ensures ROW_0[1] == Entry(0x01)
    ensures ROW_0[2] == Entry(0x02)
    ensures ROW_0[3] == Entry(0x03)
  {
    Eight(Place(0x00));
    Eight(Place(0x01));
    Eight(Place(0x02));
    Eight(Place(0x03));
    hide TimesXn;
  }

  lemma FirstLine1()
    ensures ROW_0[4] == Entry(0x04)
    ensures ROW_0[5] == Entry(0x05)
    ensures ROW_0[6] == Entry(0x06)
    ensures ROW_0[7] == Entry(0x07)
  {
    Eight(Place(0x04));
    Eight(Place(0x05));
    Eight(Place(0x06));
    Eight(Place(0x07));
    hide TimesXn;
  }

  lemma FirstLine2()
    ensures ROW_0[8] == Entry(0x08)
    ensures ROW_0[9] == Entry(0x09)
    ensures ROW_0[10] == Entry(0x0a)
    ensures ROW_0[11] == Entry(0x0b)
  {
    Eight(Place(0x08));
    Eight(Place(0x09));
    Eight(Place(0x0a));
    Eight(Place(0x0b));
    hide TimesXn;
  }

  lemma FirstLine3()
    ensures ROW_0[12] == Entry(0x0c)
    ensures ROW_0[13] == Entry(0x0d)
    ensures ROW_0[14] == Entry(0x0e)
    ensures ROW_0[15] == Entry(0x0f)
  {
    Eight(Place(0x0c));
    Eight(Place(0x0d));
    Eight(Place(0x0e));
    Eight(Place(0x0f));
    hide TimesXn;
  }

  lemma FirstColumn0()
    ensures ROW_0[0] == Entry(0x00)
    ensures ROW_1[0] == Entry(0x10)
    ensures ROW_2[0] == Entry(0x20)
    ensures ROW_3[0] == Entry(0x30)
  {
    Eight(Place(0x00));
    Eight(Place(0x10));
    Eight(Place(0x20));
    Eight(Place(0x30));
    hide TimesXn;
  }

  lemma FirstColumn1()
    ensures ROW_4[0] == Entry(0x40)
    ensures ROW_5[0] == Entry(0x50)
    ensures ROW_6[0] == Entry(0x60)
    ensures ROW_7[0] == Entry(0x70)
  {
    Eight(Place(0x40));
    Eight(Place(0x50));
    Eight(Place(0x60));
    Eight(Place(0x70));
    hide TimesXn;
  }

  lemma FirstColumn2()
    ensures ROW_8[0] == Entry(0x80)
    ensures ROW_9[0] == Entry(0x90)
    ensures ROW_A[0] == Entry(0xa0)
    ensures ROW_B[0] == Entry(0xb0)
  {
    Eight(Place(0x80));
    Eight(Place(0x90));
    Eight(Place(0xa0));
    Eight(Place(0xb0));
    hide TimesXn;
  }

  lemma FirstColumn3()
    ensures ROW_C[0] == Entry(0xc0)
    ensures ROW_D[0] == Entry(0xd0)
    ensures ROW_E[0] == Entry(0xe0)
    ensures ROW_F[0] == Entry(0xf0)
  {
    Eight(Place(0xc0));
    Eight(Place(0xd0));
    Eight(Place(0xe0));
    Eight(Place(0xf0));
    hide TimesXn;
  }

  lemma LinesXored(i: nat)
    requires i < 16
    ensures CRC16TAB[i] == Xored(CRC16TAB[i][0])
  {
    Lines0();
    Lines1();
    Lines2();
    Lines3();
    hide Xored;
  }

  lemma FirstLine(j: bv8)
    requires j < 16
    ensures ROW_0[B.Nibble(j)] == Entry(j)
  {
    FirstLine0();
    FirstLine1();
    FirstLine2();
    FirstLine3();
    hide Entry;
  }

  lemma FirstColumn(i: bv8)
    requires i < 16
    ensures CRC16TAB[B.Nibble(i)][0] == Entry(i << 4)
  {
    FirstColumn0();
    FirstColumn1();
    FirstColumn2();
    FirstColumn3();
    hide Entry;
  }

  lemma PlaceNibbles(b: bv8)
    ensures Place(b) == Xor(Place((b >> 4) << 4), Place(b & 15))
  {
    assert (b as bv16) << 8 == ((((b >> 4) << 4) as bv16) << 8) ^ (((b & 15) as bv16) << 8);
  }

  // All 256 constants are what dividing the byte by the polynomial leaves.
  lemma TableExact(b: bv8)
    ensures Lookup(b) == Entry(b)
  {
    var (i, j) := (b >> 4, b & 15);
    LinesXored(B.Nibble(i));
    FirstLine(j);
    FirstColumn(i);
    PlaceNibbles(b);
    TimesXnLinear(Place(i << 4), Place(j), 8);
    XoredAt(CRC16TAB[B.Nibble(i)][0], B.Nibble(j));
    hide TimesXn, Place, Xored;
    XorComm(Entry(i << 4), Entry(j));
  }

  lemma XoredAt(x: bv16, j: nat)
    requires j < 16
    ensures Xored(x)[j] == Xor(ROW_0[j], x)
  {
    hide Xor;
  }

  // ---------- one byte at a time ----------

  function High(r: bv16): bv8 { (r >> 8) as bv8 }

  function Low(r: bv16): bv8 { (r & 0xff) as bv8 }

  function Wide(b: bv8): bv16 { b as bv16 }

  lemma RegisterParts(r: bv16)
    ensures r == Xor(Place(High(r)), Wide(Low(r)))
    ensures r << 8 == Place(Low(r)) && Wide(Low(r)) & 0xff00 == 0
  {}

  lemma SplitRegister(r: bv16, b: bv8)
    ensures Xor(r, Place(b)) == Xor(Place(High(r) ^ b), Wide(Low(r)))
    ensures r << 8 == Place(Low(r)) && Wide(Low(r)) & 0xff00 == 0
  {
    hide *;
    RegisterParts(r);
    PlaceXor(High(r), b);
    var (h, l, p) := (Place(High(r)), Wide(Low(r)), Place(b));
    calc {
      Xor(r, p);
      Xor(Xor(h, l), p);
      { XorAssoc(h, l, p); XorComm(l, p); XorAssoc(h, p, l); }
      Xor(Xor(h, p), l);
    }
  }

  lemma PlaceXor(a: bv8, b: bv8)
    ensures Place(a ^ b) == Xor(Place(a), Place(b))
  {}

  // The table update of crc16 is eight steps of the division.
  lemma TableStep(r: bv16, b: bv8)
    ensures Xor(r << 8, Lookup(High(r) ^ b)) == ByteStep(r, b)
  {
    SplitRegister(r, b);
    TimesXnLinear(Place(High(r) ^ b), Wide(Low(r)), 8);
    LowShifts(Wide(Low(r)));
    TableExact(High(r) ^ b);
    hide TimesXn, Lookup, High;
    XorComm(r << 8, Entry(High(r) ^ b));
  }

  lemma FoldNext(r: bv16, data: Bytes, k: nat)
    requires k < |data|
    ensures Fold(r, data[..k + 1]) == ByteStep(Fold(r, data[..k]), data[k])
  {
    assert data[..k + 1][..k] == data[..k];
    hide ByteStep;
  }

  // crc16
  method Crc16(buf: Bytes) returns (crc: bv16)
    ensures crc == Fold(0, buf)
    ensures crc == Remainder(BitsOf(buf) + Repeat(false, 16))
  {
    hide *;
    FoldIsRemainder(buf);
    NoBytes(0);
    crc := 0;
    for counter := 0 to |buf|
      invariant crc == Fold(0, buf[..counter])
    {
      TableStep(crc, buf[counter]);
      FoldNext(0, buf, counter);
      crc := Xor(crc << 8, Lookup(High(crc) ^ buf[counter]));
    }
    assert buf[..|buf|] == buf;
  }

  lemma NoBytes(r: bv16)
    ensures Fold(r, []) == r && SumFrom([]) == 0
  {}

  // ---------- the remainder ----------

  // `b` has at most `k` significant bits.
  predicate Small(b: bv8, k: nat)
    decreases k
  {
    if k == 0 then b == 0 else Small(b >> 1, k - 1)
  }

  lemma AppendBit(b: bv8)
    ensures Xor(TimesX(Wide(b >> 1)), One(b & 1 == 1)) == Wide(b)
  {
    var w := Wide(b >> 1);
    assert w & 0x8000 == 0;
    assert TimesX(w) == w << 1 by { XorZero(w << 1); }
    assert b & 1 == 0 || b & 1 == 1;
    assert (w << 1) ^ ((b & 1) as bv16) == b as bv16;
  }

  lemma NoBits(b: bv8)
    requires Small(b, 0)
    ensures Wide(b) == 0
  {}

  lemma {:induction false} AppendByte(bits: seq<bool>, b: bv8, k: nat)
    requires Small(b, k)
    ensures Remainder(bits + BitsOfByte(b, k)) == Xor(TimesXn(Remainder(bits), k), Wide(b))
    decreases k
  {
    hide Xor, TimesX, Wide, One;
    if k == 0 {
      assert bits + BitsOfByte(b, 0) == bits;
      NoBits(b);
      XorZero(Remainder(bits));
    } else {
      var (c, bit) := (b >> 1, b & 1 == 1);
      var all := bits + BitsOfByte(b, k);
      assert all[..|all| - 1] == bits + BitsOfByte(c, k - 1) && all[|all| - 1] == bit;
      AppendByte(bits, c, k - 1);
      TimesXLinear(TimesXn(Remainder(bits), k - 1), Wide(c));
      XorAssoc(TimesXn(Remainder(bits), k), TimesX(Wide(c)), One(bit));
      AppendBit(b);
    }
  }

  lemma EightBits(b: bv8)
    ensures Small(b, 8)
  {
    assert Small(b >> 4 >> 4, 0);
    assert Small(b >> 4, 4);
  }

  lemma {:induction false} ZeroStays(n: nat)
    ensures TimesXn(0, n) == 0
    decreases n
  {
    if n > 0 {
      assert TimesX(0) == 0;
      hide TimesX;
      ZeroStays(n - 1);
    }
  }

  lemma {:induction false} RemainderZeros(bits: seq<bool>, n: nat)
    ensures Remainder(bits + Repeat(false, n)) == TimesXn(Remainder(bits), n)
    decreases n
  {
    hide Xor, TimesX;
    if n == 0 {
      assert bits + Repeat(false, 0) == bits;
    } else {
      assert (bits + Repeat(false, n))[..|bits| + n - 1] == bits + Repeat(false, n - 1);
      RemainderZeros(bits, n - 1);
      XorZero(TimesX(Remainder(bits + Repeat(false, n - 1))));
    }
  }

  lemma {:induction false} FoldIsTimes(data: Bytes)
    ensures Fold(0, data) == TimesXn(Remainder(BitsOf(data)), 16)
    decreases |data|
  {
    hide Xor, TimesXn, Place, Wide, Small, BitsOfByte;
    if data == [] {
      ZeroStays(16);
    } else {
      var (front, b) := (data[..|data| - 1], data[|data| - 1]);
      var r := Remainder(BitsOf(front));
      EightBits(b);
      AppendByte(BitsOf(front), b, 8);
      FoldIsTimes(front);
      TimesXnLinear(TimesXn(r, 16), Place(b), 8);
      TimesXnLinear(TimesXn(r, 8), Wide(b), 16);
      TimesXnAdd(r, 16, 8);
      TimesXnAdd(r, 8, 16);
      TimesXnAdd(Wide(b), 8, 8);
      WideToPlace(b);
    }
  }

  lemma WideToPlace(b: bv8)
    ensures TimesXn(Wide(b), 8) == Place(b)
  {
    LowShifts(Wide(b));
  }

  // The checksum is what is left of message * x^16 after dividing it bit by bit.
  lemma FoldIsRemainder(data: Bytes)
    ensures Fold(0, data) == Remainder(BitsOf(data) + Repeat(false, 16))
  {
    hide *;
    FoldIsTimes(data);
    RemainderZeros(BitsOf(data), 16);
  }

  // The checksum of a concatenation is the chained checksum.
  lemma {:induction false} FoldConcat(r: bv16, a: Bytes, b: Bytes)
    ensures Fold(r, a + b) == Fold(Fold(r, a), b)
    decreases |b|
  {
    hide ByteStep;
    if b == [] {
      assert a + b == a;
    } else {
      var n := |b| - 1;
      assert (a + b)[..|a + b| - 1] == a + b[..n];
      FoldConcat(r, a, b[..n]);
    }
  }

  // ---------- eight bytes at a time ----------

  // What each byte contributes to the register at the end.
  function SumFrom(s: Bytes): bv16
  {
    if s == [] then 0 else Xor(TimesXn(Place(s[0]), 8 * |s|), SumFrom(s[1..]))
  }

  lemma {:induction false} FoldIsSum(r: bv16, s: Bytes)
    ensures Fold(r, s) == Xor(TimesXn(r, 8 * |s|), SumFrom(s))
    decreases |s|
  {
    hide Xor, TimesXn, Place;
    if s == [] {
      TimesNone(r);
      XorZero(r);
    } else {
      var n := 8 * |s[1..]|;
      var r1 := ByteStep(r, s[0]);
      assert [s[0]] + s[1..] == s;
      FoldConcat(r, [s[0]], s[1..]);
      assert Fold(r, [s[0]]) == r1 by { assert [s[0]][..0] == []; }
      FoldIsSum(r1, s[1..]);
      TimesXnAdd(Xor(r, Place(s[0])), 8, n);
      TimesXnLinear(r, Place(s[0]), 8 + n);
      XorAssoc(TimesXn(r, 8 + n), TimesXn(Place(s[0]), 8 + n), SumFrom(s[1..]));
    }
  }

  lemma TimesNone(r: bv16)
    ensures TimesXn(r, 0) == r
  {}

  // Row `k` of the slice-by-8 table: a byte followed by `k` others.
  function Row(k: nat, b: bv8): bv16 { TimesXn(Place(b), 8 * (k + 1)) }

  ghost predicate SliceTable(t: array2<bv16>)
    reads t
  {
    t.Length0 == 8 && t.Length1 == 256 && forall k, n | 0 <= k < 8 && 0 <= n < 256 :: t[k, n] == Row(k, W.ToByte(n))
  }

  lemma RowNext(k: nat, b: bv8, crc: bv16)
    requires crc == Row(k, b)
    ensures Row(k + 1, b) == Xor(Row(0, High(crc)), crc << 8)
  {
    TimesXnAdd(Place(b), 8 * (k + 1), 8);
    SplitRegister(crc, 0);
    TimesXnLinear(Place(High(crc)), Wide(Low(crc)), 8);
    LowShifts(Wide(Low(crc)));
    hide TimesXn, High, Low;
    assert High(crc) ^ 0 == High(crc);
    assert Place(0) == 0;
    XorZero(crc);
  }

  // crcspeed16little_init, given crc16 itself as the engine.
  method Little16Init(table: array2<bv16>)
    requires table.Length0 == 8 && table.Length1 == 256
    modifies table
    ensures SliceTable(table)
  {
    hide Row, W.ToByte, Remainder, Fold;
    for n := 0 to 256
      invariant forall m | 0 <= m < n :: table[0, m] == Row(0, W.ToByte(m))
    {
      var v := W.ToByte(n);
      var crc := Crc16([v]);
      SingleByte(v);
      table[0, n] := crc;
    }
    for n := 0 to 256
      invariant forall m | 0 <= m < 256 :: table[0, m] == Row(0, W.ToByte(m))
      invariant forall j, m | 0 <= j < 8 && 0 <= m < n :: table[j, m] == Row(j, W.ToByte(m))
    {
      NestColumn(table, n);
    }
  }

  lemma SingleByte(v: bv8)
    ensures Fold(0, [v]) == Row(0, v)
  {
    hide TimesXn, Place, Xor;
    assert [v][..0] == [];
    XorZero(Place(v));
  }

  // The inner loop of the initialisation: rows 1 to 7 of the column for byte `n`.
  method NestColumn(table: array2<bv16>, n: nat)
    requires table.Length0 == 8 && table.Length1 == 256 && n < 256
    requires forall m | 0 <= m < 256 :: table[0, m] == Row(0, W.ToByte(m))
    modifies table
    ensures forall k | 0 <= k < 8 :: table[k, n] == Row(k, W.ToByte(n))
    ensures forall k, m | 0 <= k < 8 && 0 <= m < 256 && m != n :: table[k, m] == old(table[k, m])
  {
    hide *;
    var crc := table[0, n];
    for k := 1 to 8
      invariant crc == Row(k - 1, W.ToByte(n))
      invariant forall m | 0 <= m < 256 :: table[0, m] == Row(0, W.ToByte(m))
      invariant forall j | 0 <= j < k :: table[j, n] == Row(j, W.ToByte(n))
      invariant forall j, m | 0 <= j < 8 && 0 <= m < 256 && m != n :: table[j, m] == old(table[j, m])
    {
      RowNext(k - 1, W.ToByte(n), crc);
      W.IndexRoundTrip(High(crc));
      crc := Xor(table[0, W.Index(High(crc))], crc << 8);
      table[k, n] := crc;
    }
  }

  // The eight lookups for eight bytes, nested as the source nests them.
  function Xor8(a: bv16, b: bv16, c: bv16, d: bv16, e: bv16, f: bv16, g: bv16, h: bv16): bv16
  {
    Xor(Xor(Xor(Xor(Xor(Xor(Xor(a, b), c), d), e), f), g), h)
  }

  lemma XorNest(a: bv16, b: bv16, c: bv16, d: bv16, e: bv16, f: bv16, g: bv16, h: bv16)
    ensures Xor8(a, b, c, d, e, f, g, h) == Xor(a, Xor(b, Xor(c, Xor(d, Xor(e, Xor(f, Xor(g, h)))))))
  {
    hide Xor;
    var (ab, gh) := (Xor(a, b), Xor(g, h));
    var (abc, fgh) := (Xor(ab, c), Xor(f, gh));
    var (abcd, efgh) := (Xor(abc, d), Xor(e, fgh));
    XorAssoc(Xor(Xor(abcd, e), f), g, h);
    XorAssoc(Xor(abcd, e), f, gh);
    XorAssoc(abcd, e, fgh);
    XorAssoc(abc, d, efgh);
    XorAssoc(ab, c, Xor(d, efgh));
    XorAssoc(a, b, Xor(c, Xor(d, efgh)));
  }

  lemma SumEight(s: Bytes)
    requires |s| == 8
    ensures SumFrom(s) ==
            Xor(Row(7, s[0]), Xor(Row(6, s[1]), Xor(Row(5, s[2]), Xor(Row(4, s[3]), Xor(Row(3, s[4]), Xor(Row(2, s[5]),
              Xor(Row(1, s[6]), Row(0, s[7]))))))))
  {
    hide Xor, TimesXn, Place;
    SumFour(s[4..]);
    assert s[1..][1..] == s[2..] && s[2..][1..] == s[3..] && s[3..][1..] == s[4..];
    assert SumFrom(s[3..]) == Xor(Row(4, s[3]), SumFrom(s[4..]));
    assert SumFrom(s[2..]) == Xor(Row(5, s[2]), SumFrom(s[3..]));
    assert SumFrom(s[1..]) == Xor(Row(6, s[1]), SumFrom(s[2..]));
  }

  lemma SumFour(s: Bytes)
    requires |s| == 4
    ensures SumFrom(s) == Xor(Row(3, s[0]), Xor(Row(2, s[1]), Xor(Row(1, s[2]), Row(0, s[3]))))
  {
    hide Xor, TimesXn, Place;
    assert s[1..][1..] == s[2..] && s[2..][1..] == s[3..] && s[3..][1..] == [];
    assert SumFrom(s[3..]) == Xor(Row(0, s[3]), SumFrom([]));
    assert SumFrom(s[2..]) == Xor(Row(1, s[2]), SumFrom(s[3..]));
    XorZero(Row(0, s[3]));
  }

  // The register's bytes meet the first two bytes of the word.
  lemma RegisterMeetsWord(r: bv16, a: bv8, b: bv8, rest: bv16)
    ensures Xor(TimesXn(r, 64), Xor(Row(7, a), Xor(Row(6, b), rest))) ==
            Xor(Row(7, a ^ High(r)), Xor(Row(6, b ^ Low(r)), rest))
  {
    hide *;
    var (h, l) := (High(r), Low(r));
    RegisterParts(r);
    RowXor(7, a, h);
    RowXor(6, b, l);
    TimesXnLinear(Place(h), Wide(l), 64);
    TimesXnAdd(Wide(l), 8, 56);
    WideToPlace(l);
    RowIs(7, h);
    RowIs(6, l);
    XorSwap(Row(7, h), Row(6, l), Row(7, a), Xor(Row(6, b), rest));
    XorAssoc(Row(6, l), Row(6, b), rest);
    XorComm(Row(7, h), Row(7, a));
    XorComm(Row(6, l), Row(6, b));
  }

  lemma RowIs(k: nat, b: bv8)
    ensures Row(k, b) == TimesXn(Place(b), 8 * (k + 1))
  {}

  lemma RowXor(k: nat, a: bv8, b: bv8)
    ensures Row(k, a ^ b) == Xor(Row(k, a), Row(k, b))
  {
    PlaceXor(a, b);
    TimesXnLinear(Place(a), Place(b), 8 * (k + 1));
    hide TimesXn, Place, Xor;
  }

  lemma SliceStep(r: bv16, s: Bytes)
    requires |s| == 8
    ensures Fold(r, s) ==
            Xor8(Row(7, s[0] ^ High(r)), Row(6, s[1] ^ Low(r)), Row(5, s[2]), Row(4, s[3]), Row(3, s[4]),
                 Row(2, s[5]), Row(1, s[6]), Row(0, s[7]))
  {
    hide *;
    FoldIsSum(r, s);
    SumEight(s);
    var last := Xor(Row(2, s[5]), Xor(Row(1, s[6]), Row(0, s[7])));
    var rest := Xor(Row(5, s[2]), Xor(Row(4, s[3]), Xor(Row(3, s[4]), last)));
    RegisterMeetsWord(r, s[0], s[1], rest);
    XorNest(Row(7, s[0] ^ High(r)), Row(6, s[1] ^ Low(r)), Row(5, s[2]), Row(4, s[3]), Row(3, s[4]), Row(2, s[5]),
            Row(1, s[6]), Row(0, s[7]));
  }

  // Byte `i` of a loaded word is byte `i` of memory.
  lemma {:induction false} ByteOfLoad(s: Bytes, i: nat)
    requires i < |s| <= 8
    ensures W.ByteOf(W.LoadLittle(s), i) == s[i]
    decreases i
  {
    var (b, w) := (s[0], W.LoadLittle(s[1..]));
    W.LoadLittleFits(s[1..]);
    W.LowMaskTop(|s| - 1);
    JoinParts(b, w, W.LowMask(|s| - 1));
    if i > 0 {
      hide W.Within, W.Join, W.LowMask, W.DropByte;
      ByteOfLoad(s[1..], i - 1);
    }
  }

  lemma JoinParts(b: bv8, w: bv64, m: bv64)
    requires W.Within(w, m) && W.Within(m, 0x00ffffffffffffff)
    ensures (W.Join(b, w) & 0xff) as bv8 == b && W.DropByte(W.Join(b, w)) == w
  {
    assert w & !0x00ffffffffffffff == 0;
  }

  lemma Rows(t: array2<bv16>, k: nat, b: bv8)
    requires SliceTable(t) && k < 8
    ensures t.Length0 == 8 && t.Length1 == 256
    ensures t[k, W.Index(b)] == Row(k, b)
  {
    W.IndexRoundTrip(b);
    hide Row;
  }

  lemma SliceByte(t: array2<bv16>, r: bv16, b: bv8)
    requires SliceTable(t)
    ensures t.Length0 == 8 && t.Length1 == 256
    ensures Xor(t[0, W.Index(High(r) ^ b)], r << 8) == ByteStep(r, b)
  {
    Rows(t, 0, High(r) ^ b);
    TableStep(r, b);
    TableExact(High(r) ^ b);
    hide TimesXn, Place, High, Xor, Lookup, SliceTable;
    XorComm(Row(0, High(r) ^ b), r << 8);
  }

  method LittleWord(table: array2<bv16>, crc: bv16, word: Bytes) returns (r: bv16)
    requires SliceTable(table) && |word| == 8
    ensures r == Fold(crc, word)
  {
    hide *;
    var n := W.LoadLittle(word);
    forall i | 0 <= i < 8
      ensures W.ByteOf(n, i) == word[i]
    {
      ByteOfLoad(word, i);
    }
    SliceStep(crc, word);
    Rows(table, 7, word[0] ^ High(crc));
    Rows(table, 6, word[1] ^ Low(crc));
    Rows(table, 5, word[2]);
    Rows(table, 4, word[3]);
    Rows(table, 3, word[4]);
    Rows(table, 2, word[5]);
    Rows(table, 1, word[6]);
    Rows(table, 0, word[7]);
    r := Xor8(table[7, W.Index(W.ByteOf(n, 0) ^ High(crc))], table[6, W.Index(W.ByteOf(n, 1) ^ Low(crc))],
              table[5, W.Index(W.ByteOf(n, 2))], table[4, W.Index(W.ByteOf(n, 3))],
              table[3, W.Index(W.ByteOf(n, 4))], table[2, W.Index(W.ByteOf(n, 5))],
              table[1, W.Index(W.ByteOf(n, 6))], table[0, W.Index(W.ByteOf(n, 7))]);
  }

  // crcspeed16little: `address` is where the buffer starts, which decides how many bytes go first one by one.
  method CrcSpeed16Little(table: array2<bv16>, crc0: bv16, buf: Bytes, address: nat) returns (crc: bv16)
    requires SliceTable(table)
    ensures crc == Fold(crc0, buf)
  {
    hide *;
    crc := crc0;
    var next, len := 0, |buf|;
    NoBytes(crc0);
    while len > 0 && (address + next) % 8 != 0
      invariant 0 <= next && 0 <= len && next + len == |buf| && crc == Fold(crc0, buf[..next])
    {
      FoldNext(crc0, buf, next);
      SliceByte(table, crc, buf[next]);
      crc := Xor(table[0, W.Index(High(crc) ^ buf[next])], crc << 8);
      next, len := next + 1, len - 1;
    }
    while len >= 8
      invariant 0 <= next && 0 <= len && next + len == |buf| && crc == Fold(crc0, buf[..next])
    {
      FoldConcat(crc0, buf[..next], buf[next..next + 8]);
      assert buf[..next] + buf[next..next + 8] == buf[..next + 8];
      crc := LittleWord(table, crc, buf[next..next + 8]);
      next, len := next + 8, len - 8;
    }
    while len > 0
      invariant 0 <= next && 0 <= len && next + len == |buf| && crc == Fold(crc0, buf[..next])
    {
      FoldNext(crc0, buf, next);
      SliceByte(table, crc, buf[next]);
      crc := Xor(table[0, W.Index(High(crc) ^ buf[next])], crc << 8);
      next, len := next + 1, len - 1;
    }
    assert buf[..|buf|] == buf;
  }
}
