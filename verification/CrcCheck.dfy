// The parameters of the two checksums: their generators by their exponents, and the check values that crc64.c and
// crc16.c give for the digits 1 to 9.
module CrcCheck {
  import C = Crc64
  import S = Crc16
  import H = Cluster

  const DIGITS: seq<bv8> := [0x31, 0x32, 0x33, 0x34, 0x35, 0x36, 0x37, 0x38, 0x39]

  // x^64 + x^63 + x^61 + ... + x^3 + 1, without its leading term.
  lemma Generator64()
    ensures C.POLY ==
            (1 << 63) | (1 << 61) | (1 << 59) | (1 << 58) | (1 << 56) | (1 << 55) | (1 << 52) | (1 << 49) | (1 << 48) |
            (1 << 47) | (1 << 46) | (1 << 44) | (1 << 41) | (1 << 37) | (1 << 36) | (1 << 34) | (1 << 32) | (1 << 31) |
            (1 << 28) | (1 << 26) | (1 << 23) | (1 << 22) | (1 << 19) | (1 << 16) | (1 << 13) | (1 << 12) | (1 << 10) |
            (1 << 8) | (1 << 7) | (1 << 5) | (1 << 3) | 1
  {}

  // x^16 + x^12 + x^5 + 1
  lemma Generator16()
    ensures S.POLY == (1 << 12) | (1 << 5) | 1
  {}

  // ---------- 64 bits ----------

  // One byte takes the register from `r` to `next`.
  predicate Moves64(r: bv64, b: bv8, next: bv64) { C.Steps(C.Xor(r, C.Byte(b)), 8) == next }

  // Eight steps with the register after each of them.
  lemma EightSteps(q: seq<bv64>)
    requires |q| == 9 && forall i | 0 <= i < 8 :: C.BitStep(q[i]) == q[i + 1]
    ensures C.Steps(q[0], 8) == q[8]
  {
    hide C.BitStep;
    assert C.Steps(q[7], 1) == C.Steps(q[8], 0);
    assert C.Steps(q[5], 3) == C.Steps(q[6], 2) == C.Steps(q[7], 1);
    assert C.Steps(q[3], 5) == C.Steps(q[4], 4) == C.Steps(q[5], 3);
    assert C.Steps(q[1], 7) == C.Steps(q[2], 6) == C.Steps(q[3], 5);
  }

  lemma Digit64_1()
    ensures Moves64(0x0000000000000000, 0x31, 0xfdc17184a9f739fa)
  {
    hide C.Steps;
    EightSteps([0x0000000000000031, 0x95ac9329ac4bc9ad, 0xdf7adabd7a6e2d63, 0xfa11fe77117cdf04,
                0x7d08ff3b88be6f82, 0x3e847f9dc45f37c1, 0x8aeeace74e645255, 0xd0dbc55a0b79e09f, 0xfdc17184a9f739fa]);
  }

  lemma Digit64_2()
    ensures Moves64(0xfdc17184a9f739fa, 0x32, 0xe10364513a98ed96)
  {
    hide C.Steps;
    EightSteps([0xfdc17184a9f739c8, 0x7ee0b8c254fb9ce4, 0x3f705c612a7dce72, 0x1fb82e30953ee739,
                0x9a708431e6d4ba29, 0xd894d1315f2194a1, 0xf9e6fbb103db03e5, 0xe95feef12da64847, 0xe10364513a98ed96]);
  }

  lemma Digit64_3()
    ensures Moves64(0xe10364513a98ed96, 0x33, 0xd5bcfb814479b1ac)
  {
    hide C.Steps;
    EightSteps([0xe10364513a98eda5, 0xe52d21013107bf67, 0xe73a03a934c81606, 0x739d01d49a640b03,
                0xac6213c3e179cc34, 0x563109e1f0bce61a, 0x2b1884f0f85e730d, 0x8020d151d064f033, 0xd5bcfb814479b1ac]);
  }

  lemma Digit64_4()
    ensures Moves64(0xd5bcfb814479b1ac, 0x34, 0x43593c5dcda521f0)
  {
    hide C.Steps;
    EightSteps([0xd5bcfb814479b198, 0x6ade7dc0a23cd8cc, 0x356f3ee0511e6c66, 0x1ab79f70288f3633,
                0x98f75c91b80c52ac, 0x4c7bae48dc062956, 0x263dd7246e0314ab, 0x86b278bb9b4a43e0, 0x43593c5dcda521f0]);
  }

  lemma Digit64_5()
    ensures Moves64(0x43593c5dcda521f0, 0x35, 0xf0758513239c7e0d)
  {
    hide C.Steps;
    EightSteps([0x43593c5dcda521c5, 0xb4000d074a995957, 0xcfac95aa0907651e, 0x67d64ad50483b28f,
                0xa647b6432e0a10f2, 0x5323db2197050879, 0xbc3d7eb967c94d89, 0xcbb22c751faf6f71, 0xf0758513239c7e0d]);
  }

  lemma Digit64_6()
    ensures Moves64(0xf0758513239c7e0d, 0x36, 0xa3a90925b2ab4903)
  {
    hide C.Steps;
    EightSteps([0xf0758513239c7e3b, 0xed9651a03d85f6a8, 0x76cb28d01ec2fb54, 0x3b6594680f617daa,
                0x1db2ca3407b0bed5, 0x9b75f633af9396df, 0xd81668307b8202da, 0x6c0b34183dc1016d, 0xa3a90925b2ab4903]);
  }

  lemma Digit64_7()
    ensures Moves64(0xa3a90925b2ab4903, 0x37, 0x47824d362431ad45)
  {
    hide C.Steps;
    EightSteps([0xa3a90925b2ab4934, 0x51d48492d955a49a, 0x28ea42496caad24d, 0x81d9b20d1a1ea093,
                0xd5404a2f214499fc, 0x6aa0251790a24cfe, 0x3550128bc851267f, 0x8f049a6c48635a8a, 0x47824d362431ad45]);
  }

  lemma Digit64_8()
    ensures Moves64(0x47824d362431ad45, 0x38, 0x49ec20b315e86dc2)
  {
    hide C.Steps;
    EightSteps([0x47824d362431ad7d, 0xb66db5b2be531f0b, 0xce9a49f0f3624630, 0x674d24f879b12318,
                0x33a6927c3cd8918c, 0x19d3493e1e6c48c6, 0x0ce9a49f0f362463, 0x93d841662bd0db84, 0x49ec20b315e86dc2]);
  }

  lemma Digit64_9()
    ensures Moves64(0x49ec20b315e86dc2, 0x39, 0xe9c6d914c4b8d9ca)
  {
    hide C.Steps;
    EightSteps([0x49ec20b315e86dfb, 0xb15a837026bfff48, 0x58ad41b8135fffa4, 0x2c56a0dc09afffd2,
                0x162b506e04d7ffe9, 0x9eb93b1eae203641, 0xdaf00ea6fb5bd295, 0xf8d4947ad1e620ff, 0xe9c6d914c4b8d9ca]);
  }

  lemma FoldNext64(r: bv64, b: bv8, rest: seq<bv8>, next: bv64)
    requires Moves64(r, b, next)
    ensures C.Fold(r, [b] + rest) == C.Fold(next, rest)
  {
    assert ([b] + rest)[1..] == rest;
    hide C.Steps;
  }

  lemma FirstDigits64()
    ensures C.Fold(0, DIGITS) == C.Fold(0xe10364513a98ed96, DIGITS[2..])
  {
    hide Moves64, C.Fold;
    assert DIGITS[0..] == DIGITS;
    Digit64_1();
    FoldNext64(0x0000000000000000, 0x31, DIGITS[1..], 0xfdc17184a9f739fa);
    assert DIGITS[0..] == [0x31] + DIGITS[1..];
    Digit64_2();
    FoldNext64(0xfdc17184a9f739fa, 0x32, DIGITS[2..], 0xe10364513a98ed96);
    assert DIGITS[1..] == [0x32] + DIGITS[2..];
  }

  lemma MiddleDigits64()
    ensures C.Fold(0xe10364513a98ed96, DIGITS[2..]) == C.Fold(0xf0758513239c7e0d, DIGITS[5..])
  {
    hide Moves64, C.Fold;
    Digit64_3();
    FoldNext64(0xe10364513a98ed96, 0x33, DIGITS[3..], 0xd5bcfb814479b1ac);
    assert DIGITS[2..] == [0x33] + DIGITS[3..];
    Digit64_4();
    FoldNext64(0xd5bcfb814479b1ac, 0x34, DIGITS[4..], 0x43593c5dcda521f0);
    assert DIGITS[3..] == [0x34] + DIGITS[4..];
    Digit64_5();
    FoldNext64(0x43593c5dcda521f0, 0x35, DIGITS[5..], 0xf0758513239c7e0d);
    assert DIGITS[4..] == [0x35] + DIGITS[5..];
  }

  lemma CheckValue64()
    ensures C.Fold(0, DIGITS) == 0xe9c6d914c4b8d9ca
  {
    hide Moves64, C.Fold;
    FirstDigits64();
    MiddleDigits64();
    Digit64_6();
    FoldNext64(0xf0758513239c7e0d, 0x36, DIGITS[6..], 0xa3a90925b2ab4903);
    assert DIGITS[5..] == [0x36] + DIGITS[6..];
    Digit64_7();
    FoldNext64(0xa3a90925b2ab4903, 0x37, DIGITS[7..], 0x47824d362431ad45);
    assert DIGITS[6..] == [0x37] + DIGITS[7..];
    Digit64_8();
    FoldNext64(0x47824d362431ad45, 0x38, DIGITS[8..], 0x49ec20b315e86dc2);
    assert DIGITS[7..] == [0x38] + DIGITS[8..];
    Digit64_9();
    FoldNext64(0x49ec20b315e86dc2, 0x39, DIGITS[9..], 0xe9c6d914c4b8d9ca);
    assert DIGITS[8..] == [0x39] + DIGITS[9..];
    assert DIGITS[9..] == [];
    FoldNone64(0xe9c6d914c4b8d9ca);
  }

  lemma FoldNone64(r: bv64)
    ensures C.Fold(r, []) == r
  {}

  // ---------- 16 bits ----------

  lemma FoldNext16(front: seq<bv8>, b: bv8, r: bv16, next: bv16)
    requires S.Fold(0, front) == r && S.ByteStep(r, b) == next
    ensures S.Fold(0, front + [b]) == next
  {
    assert (front + [b])[..|front|] == front;
    hide S.ByteStep;
  }

  lemma CheckValue16()
    ensures S.Fold(0, DIGITS) == 0x31c3
  {
    hide S.Fold;
    FoldNone16();
    Digit16_1();
    FoldNext16(DIGITS[..0], 0x31, 0x0000, 0x2672);
    assert DIGITS[..1] == DIGITS[..0] + [0x31];
    Digit16_2();
    FoldNext16(DIGITS[..1], 0x32, 0x2672, 0x20b5);
    assert DIGITS[..2] == DIGITS[..1] + [0x32];
    Digit16_3();
    FoldNext16(DIGITS[..2], 0x33, 0x20b5, 0x9752);
    assert DIGITS[..3] == DIGITS[..2] + [0x33];
    Digit16_4();
    FoldNext16(DIGITS[..3], 0x34, 0x9752, 0xd789);
    assert DIGITS[..4] == DIGITS[..3] + [0x34];
    Digit16_5();
    FoldNext16(DIGITS[..4], 0x35, 0xd789, 0x546c);
    assert DIGITS[..5] == DIGITS[..4] + [0x35];
    Digit16_6();
    FoldNext16(DIGITS[..5], 0x36, 0x546c, 0x20e4);
    assert DIGITS[..6] == DIGITS[..5] + [0x36];
    Digit16_7();
    FoldNext16(DIGITS[..6], 0x37, 0x20e4, 0x86d6);
    assert DIGITS[..7] == DIGITS[..6] + [0x37];
    Digit16_8();
    FoldNext16(DIGITS[..7], 0x38, 0x86d6, 0x9015);
    assert DIGITS[..8] == DIGITS[..7] + [0x38];
    Digit16_9();
    FoldNext16(DIGITS[..8], 0x39, 0x9015, 0x31c3);
    assert DIGITS[..9] == DIGITS[..8] + [0x39];
    assert DIGITS[..9] == DIGITS;
  }

  lemma FoldNone16()
    ensures S.Fold(0, DIGITS[..0]) == 0
  {}

  lemma Digit16_1()
    ensures S.ByteStep(0x0000, 0x31) == 0x2672
  {}

  lemma Digit16_2()
    ensures S.ByteStep(0x2672, 0x32) == 0x20b5
  {}

  lemma Digit16_3()
    ensures S.ByteStep(0x20b5, 0x33) == 0x9752
  {}

  lemma Digit16_4()
    ensures S.ByteStep(0x9752, 0x34) == 0xd789
  {}

  lemma Digit16_5()
    ensures S.ByteStep(0xd789, 0x35) == 0x546c
  {}

  lemma Digit16_6()
    ensures S.ByteStep(0x546c, 0x36) == 0x20e4
  {}

  lemma Digit16_7()
    ensures S.ByteStep(0x20e4, 0x37) == 0x86d6
  {}

  lemma Digit16_8()
    ensures S.ByteStep(0x86d6, 0x38) == 0x9015
  {}

  lemma Digit16_9()
    ensures S.ByteStep(0x9015, 0x39) == 0x31c3
  {}

  // So the key made of these digits is in slot 12739.
  lemma CheckSlot()
    ensures H.SlotOf(H.HashTag(DIGITS)) == 12739
  {
    CheckValue16();
    hide S.Fold;
    assert H.Find(DIGITS, H.OPEN, 0) == |DIGITS|;
  }
}
