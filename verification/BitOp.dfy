// BITOP of bitops.c: combining strings of any lengths, four words at a time as long as all of them go on.
module BitOp {
  import B = Bits
  import R = BitRange
  import W = Crc64
  import M = Crc16

  type Bytes = B.Bytes

  datatype Operator = And | Or | Xor | Not

  function Combine(op: Operator, a: bv8, b: bv8): bv8
  {
    match op
    case And => a & b
    case Or => a | b
    case Xor => a ^ b
    case Not => a
  }

  function First(op: Operator, a: bv8): bv8 { if op == Not then !a else a }

  // Byte `j` of the first `n` strings combined.
  function Folded(op: Operator, srcs: seq<Bytes>, j: nat, n: nat): bv8
    requires 0 < n <= |srcs|
    decreases n
  {
    if n == 1 then First(op, B.Padded(srcs[0], j))
    else Combine(op, Folded(op, srcs, j, n - 1), B.Padded(srcs[n - 1], j))
  }

  function MaxLength(srcs: seq<Bytes>): nat
  {
    if srcs == [] then 0
    else
      var (m, l) := (MaxLength(srcs[..|srcs| - 1]), |srcs[|srcs| - 1]|);
      if l > m then l else m
  }

  // The result: as long as the longest string.
  predicate IsResult(op: Operator, srcs: seq<Bytes>, res: Bytes)
    requires srcs != []
  {
    |res| == MaxLength(srcs) && forall j | 0 <= j < |res| :: res[j] == Folded(op, srcs, j, |srcs|)
  }

  // ---------- bits ----------

  // How many of the first `n` strings have bit `i`, taken as zero-padded.
  function Having(srcs: seq<Bytes>, i: nat, n: nat): nat
    requires n <= |srcs|
  {
    if n == 0 then 0 else Having(srcs, i, n - 1) + if B.BitAt(srcs[n - 1], i) then 1 else 0
  }

  // What the operator makes of a bit that `k` of `n` strings have.
  predicate BitResult(op: Operator, k: nat, n: nat)
  {
    match op
    case And => k == n
    case Or => k > 0
    case Xor => k % 2 == 1
    case Not => k == 0
  }

  lemma PaddedBit(s: Bytes, i: nat)
    ensures B.BitOf(B.Padded(s, i / 8), i % 8) <==> B.BitAt(s, i)
  {
    assert (0 as bv8) & B.Mask(i % 8) == 0;
  }

  lemma CombineBit(op: Operator, a: bv8, b: bv8, j: nat)
    requires j < 8 && op != Not
    ensures B.BitOf(Combine(op, a, b), j) <==>
            match op
            case And => B.BitOf(a, j) && B.BitOf(b, j)
            case Or => B.BitOf(a, j) || B.BitOf(b, j)
            case _ => B.BitOf(a, j) != B.BitOf(b, j)
  {
    hide B.BitOf, Combine;
    IsAnd(a, b);
    IsOr(a, b);
    IsXor(a, b);
    match op
    case And => R.AndAt(a, b, j);
    case Or => R.OrAt(a, b, j);
    case Xor => XorAt(a, b, j);
  }

  lemma XorAt(a: bv8, b: bv8, j: nat)
    requires j < 8
    ensures B.BitOf(a ^ b, j) <==> B.BitOf(a, j) != B.BitOf(b, j)
  {
    XorBit(a, b, B.Mask(j));
  }

  lemma XorBit(a: bv8, b: bv8, m: bv8)
    requires m == 0x80 || m == 0x40 || m == 0x20 || m == 0x10 || m == 0x08 || m == 0x04 || m == 0x02 || m == 0x01
    ensures (a ^ b) & m != 0 <==> (a & m != 0) != (b & m != 0)
  {}

  lemma {:induction false} HavingBound(srcs: seq<Bytes>, i: nat, n: nat)
    requires n <= |srcs|
    ensures Having(srcs, i, n) <= n
    decreases n
  {
    if n > 0 {
      HavingBound(srcs, i, n - 1);
    }
  }

  lemma {:induction false} FoldedBit(op: Operator, srcs: seq<Bytes>, i: nat, n: nat)
    requires 0 < n <= |srcs| && (op == Not ==> n == 1)
    ensures B.BitOf(Folded(op, srcs, i / 8, n), i % 8) <==> BitResult(op, Having(srcs, i, n), n)
    decreases n
  {
    hide B.BitOf, Combine, B.Padded;
    if n == 1 {
      assert Having(srcs, i, 0) == 0;
      PaddedBit(srcs[0], i);
      R.NotAt(B.Padded(srcs[0], i / 8), i % 8);
    } else {
      FoldedBit(op, srcs, i, n - 1);
      HavingBound(srcs, i, n - 1);
      PaddedBit(srcs[n - 1], i);
      CombineBit(op, Folded(op, srcs, i / 8, n - 1), B.Padded(srcs[n - 1], i / 8), i % 8);
    }
  }

  // Bit by bit, the result is the conjunction, the disjunction or the parity of the zero-padded strings, or the
  // complement of the only one; and it is as long as the longest of them.
  lemma ResultBits(op: Operator, srcs: seq<Bytes>, res: Bytes, i: nat)
    requires srcs != [] && IsResult(op, srcs, res) && i < 8 * |res| && (op == Not ==> |srcs| == 1)
    ensures B.BitAt(res, i) <==> BitResult(op, Having(srcs, i, |srcs|), |srcs|)
  {
    hide Folded;
    FoldedBit(op, srcs, i, |srcs|);
    assert i / 8 < |res| && res[i / 8] == Folded(op, srcs, i / 8, |srcs|);
  }

  lemma {:induction false} LongestLength(srcs: seq<Bytes>)
    ensures forall k | 0 <= k < |srcs| :: |srcs[k]| <= MaxLength(srcs)
    ensures srcs != [] ==> exists k | 0 <= k < |srcs| :: |srcs[k]| == MaxLength(srcs)
    decreases |srcs|
  {
    if srcs != [] {
      var front := srcs[..|srcs| - 1];
      LongestLength(front);
      assert forall k | 0 <= k < |front| :: front[k] == srcs[k];
      if |srcs[|srcs| - 1]| > MaxLength(front) || front == [] {
        assert |srcs[|srcs| - 1]| == MaxLength(srcs);
      } else {
        var k :| 0 <= k < |front| && |front[k]| == MaxLength(front);
        assert |srcs[k]| == MaxLength(srcs);
      }
    }
  }

  // ---------- words ----------

  function WordOf(op: Operator, a: bv64, b: bv64): bv64
  {
    match op
    case And => a & b
    case Or => a | b
    case Xor => a ^ b
    case Not => a
  }

  lemma DropAnd(a: bv64, b: bv64)
    ensures W.DropByte(WordOf(And, a, b)) == WordOf(And, W.DropByte(a), W.DropByte(b))
  {
    calc {
      W.DropByte(WordOf(And, a, b));
      W.DropByte(a & b);
      (a & b) >> 8;
      (a >> 8) & (b >> 8);
      WordOf(And, a >> 8, b >> 8);
      WordOf(And, W.DropByte(a), W.DropByte(b));
    }
  }

  lemma LowAnd(a: bv64, b: bv64)
    ensures W.ByteOf(WordOf(And, a, b), 0) == Combine(And, W.ByteOf(a, 0), W.ByteOf(b, 0))
  {
    calc {
      W.ByteOf(WordOf(And, a, b), 0);
      W.ByteOf(a & b, 0);
      ((a & b) & 0xff) as bv8;
      { RawAnd(a, b); }
      ((a & 0xff) as bv8) & ((b & 0xff) as bv8);
      W.ByteOf(a, 0) & W.ByteOf(b, 0);
      Combine(And, W.ByteOf(a, 0), W.ByteOf(b, 0));
    }
  }

  lemma RawAnd(a: bv64, b: bv64)
    ensures ((a & b) & 0xff) as bv8 == ((a & 0xff) as bv8) & ((b & 0xff) as bv8)
  {}

  lemma DropOr(a: bv64, b: bv64)
    ensures W.DropByte(WordOf(Or, a, b)) == WordOf(Or, W.DropByte(a), W.DropByte(b))
  {
    calc {
      W.DropByte(WordOf(Or, a, b));
      W.DropByte(a | b);
      (a | b) >> 8;
      (a >> 8) | (b >> 8);
      WordOf(Or, a >> 8, b >> 8);
      WordOf(Or, W.DropByte(a), W.DropByte(b));
    }
  }

  lemma LowOr(a: bv64, b: bv64)
    ensures W.ByteOf(WordOf(Or, a, b), 0) == Combine(Or, W.ByteOf(a, 0), W.ByteOf(b, 0))
  {
    calc {
      W.ByteOf(WordOf(Or, a, b), 0);
      W.ByteOf(a | b, 0);
      ((a | b) & 0xff) as bv8;
      { RawOr(a, b); }
      ((a & 0xff) as bv8) | ((b & 0xff) as bv8);
      W.ByteOf(a, 0) | W.ByteOf(b, 0);
      Combine(Or, W.ByteOf(a, 0), W.ByteOf(b, 0));
    }
  }

  lemma RawOr(a: bv64, b: bv64)
    ensures ((a | b) & 0xff) as bv8 == ((a & 0xff) as bv8) | ((b & 0xff) as bv8)
  {}

  lemma DropXor(a: bv64, b: bv64)
    ensures W.DropByte(WordOf(Xor, a, b)) == WordOf(Xor, W.DropByte(a), W.DropByte(b))
  {
    calc {
      W.DropByte(WordOf(Xor, a, b));
      W.DropByte(a ^ b);
      (a ^ b) >> 8;
      (a >> 8) ^ (b >> 8);
      WordOf(Xor, a >> 8, b >> 8);
      WordOf(Xor, W.DropByte(a), W.DropByte(b));
    }
  }

  lemma LowXor(a: bv64, b: bv64)
    ensures W.ByteOf(WordOf(Xor, a, b), 0) == Combine(Xor, W.ByteOf(a, 0), W.ByteOf(b, 0))
  {
    calc {
      W.ByteOf(WordOf(Xor, a, b), 0);
      W.ByteOf(a ^ b, 0);
      ((a ^ b) & 0xff) as bv8;
      { RawXor(a, b); }
      ((a & 0xff) as bv8) ^ ((b & 0xff) as bv8);
      W.ByteOf(a, 0) ^ W.ByteOf(b, 0);
      Combine(Xor, W.ByteOf(a, 0), W.ByteOf(b, 0));
    }
  }

  lemma RawXor(a: bv64, b: bv64)
    ensures ((a ^ b) & 0xff) as bv8 == ((a & 0xff) as bv8) ^ ((b & 0xff) as bv8)
  {}

  lemma DropWord(op: Operator, a: bv64, b: bv64)
    ensures W.DropByte(WordOf(op, a, b)) == WordOf(op, W.DropByte(a), W.DropByte(b))
  {
    match op
    case And => DropAnd(a, b); hide *;
    case Or => DropOr(a, b); hide *;
    case Xor => DropXor(a, b); hide *;
    case Not => hide W.DropByte;
  }

  lemma LowWord(op: Operator, a: bv64, b: bv64)
    ensures W.ByteOf(WordOf(op, a, b), 0) == Combine(op, W.ByteOf(a, 0), W.ByteOf(b, 0))
  {
    match op
    case And => LowAnd(a, b); hide *;
    case Or => LowOr(a, b); hide *;
    case Xor => LowXor(a, b); hide *;
    case Not => hide W.ByteOf;
  }

  // Working on whole words is working on each byte.
  lemma {:induction false} WordBytes(op: Operator, a: bv64, b: bv64, i: nat)
    ensures W.ByteOf(WordOf(op, a, b), i) == Combine(op, W.ByteOf(a, i), W.ByteOf(b, i))
    decreases i
  {
    hide WordOf, Combine, W.DropByte;
    if i == 0 {
      LowWord(op, a, b);
    } else {
      DropWord(op, a, b);
      WordBytes(op, W.DropByte(a), W.DropByte(b), i - 1);
    }
  }

  // The complement of a loaded word, byte by byte.
  lemma NotBytes(s: Bytes, i: nat)
    requires i < |s| <= 8
    ensures W.ByteOf(!W.LoadLittle(s), i) == !s[i]
  {
    M.ByteOfLoad(s, i);
    NotByteOf(W.LoadLittle(s), i);
  }

  lemma NotByteOf(a: bv64, i: nat)
    requires i < 8
    ensures W.ByteOf(!a, i) == !W.ByteOf(a, i)
  {
    XorOnes(a);
    WordBytes(Xor, a, 0xffff_ffff_ffff_ffff, i);
    OnesBytes(i);
    hide W.ByteOf;
    assert W.ByteOf(a, i) ^ 0xff == !W.ByteOf(a, i);
  }

  lemma XorOnes(a: bv64)
    ensures !a == WordOf(Xor, a, 0xffff_ffff_ffff_ffff)
  {}

  lemma OnesBytes(i: nat)
    requires i < 8
    ensures W.ByteOf(0xffff_ffff_ffff_ffff, i) == 0xff
  {
    M.ByteOfLoad([0xff, 0xff, 0xff, 0xff, 0xff, 0xff, 0xff, 0xff], i);
    OnesLoad();
  }

  lemma OnesLoad()
    ensures W.LoadLittle([0xff, 0xff, 0xff, 0xff, 0xff, 0xff, 0xff, 0xff]) == 0xffff_ffff_ffff_ffff
  {
    W.LoadLittleFlat([0xff, 0xff, 0xff, 0xff, 0xff, 0xff, 0xff, 0xff]);
  }

  // ---------- the loops ----------

  // One word of the result: lres[k] op= lp[i][k], or lres[k] = ~lres[k]. A word has `w` bytes, the size of an unsigned
  // long; a shorter one is the low part of eight bytes.
  method CombineWord(op: Operator, res: array<bv8>, o: nat, src: Bytes, w: nat)
    requires w <= 8 && o + w <= res.Length && (op != Not ==> o + w <= |src|)
    modifies res
    ensures forall k | 0 <= k < res.Length ::
              res[k] == if o <= k < o + w then if op == Not then !old(res[k]) else Combine(op, old(res[k]), src[k])
                        else old(res[k])
  {
    hide Combine, WordOf, W.ByteOf, W.LoadLittle;
    ghost var before := res[o..o + w];
    var mine := W.LoadLittle(res[o..o + w]);
    var word := if op == Not then !mine else WordOf(op, mine, W.LoadLittle(src[o..o + w]));
    forall i | 0 <= i < w
      ensures W.ByteOf(word, i) == if op == Not then !before[i] else Combine(op, before[i], src[o + i])
    {
      if op == Not {
        NotBytes(before, i);
      } else {
        WordBytes(op, mine, W.LoadLittle(src[o..o + w]), i);
        M.ByteOfLoad(before, i);
        M.ByteOfLoad(src[o..o + w], i);
      }
    }
    for i := 0 to w
      invariant forall k | 0 <= k < res.Length ::
                  res[k] == if o <= k < o + i then W.ByteOf(word, k - o) else old(res[k])
    {
      res[o + i] := W.ByteOf(word, i);
    }
    assert forall k | o <= k < o + w :: before[k - o] == old(res[k]);
  }

  // Four words at once.
  method CombineFour(op: Operator, res: array<bv8>, o: nat, src: Bytes, w: nat)
    requires w <= 8 && o + 4 * w <= res.Length && (op != Not ==> o + 4 * w <= |src|)
    modifies res
    ensures forall k | 0 <= k < res.Length ::
              res[k] == if o <= k < o + 4 * w then if op == Not then !old(res[k]) else Combine(op, old(res[k]), src[k])
                        else old(res[k])
  {
    hide Combine;
    CombineWord(op, res, o, src, w);
    CombineWord(op, res, o + w, src, w);
    CombineWord(op, res, o + 2 * w, src, w);
    CombineWord(op, res, o + 3 * w, src, w);
  }

  predicate Long(srcs: seq<Bytes>, n: nat) { forall i | 0 <= i < |srcs| :: |srcs[i]| >= n }

  // The fast path: as far as all strings have four more words. `j` is where it ends.
  method FastPath(op: Operator, srcs: seq<Bytes>, res: array<bv8>, minlen0: nat, w: nat) returns (j: nat)
    requires 0 < w <= 8 && srcs != [] && (op == Not ==> |srcs| == 1) && Long(srcs, minlen0) && minlen0 <= res.Length
    requires forall k | 0 <= k < minlen0 :: res[k] == srcs[0][k]
    modifies res
    ensures j <= minlen0 && forall k | 0 <= k < j :: res[k] == Folded(op, srcs, k, |srcs|)
  {
    hide Combine;
    j := 0;
    var minlen := minlen0;
    var four := 4 * w;
    while minlen >= four
      invariant 0 <= minlen && j + minlen == minlen0
      invariant forall k | 0 <= k < j :: res[k] == Folded(op, srcs, k, |srcs|)
      invariant forall k | j <= k < minlen0 :: res[k] == srcs[0][k]
    {
      OneString(op, srcs, j);
      if op == Not {
        CombineFour(op, res, j, [], w);
      } else {
        for i := 1 to |srcs|
          invariant forall k | 0 <= k < j :: res[k] == Folded(op, srcs, k, |srcs|)
          invariant forall k | j <= k < j + four :: res[k] == Folded(op, srcs, k, i)
          invariant forall k | j + four <= k < minlen0 :: res[k] == srcs[0][k]
        {
          CombineFour(op, res, j, srcs[i], w);
        }
      }
      j, minlen := j + four, minlen - four;
    }
  }

  lemma OneString(op: Operator, srcs: seq<Bytes>, j: nat)
    requires srcs != []
    ensures forall k: nat :: Folded(op, srcs, k, 1) == First(op, B.Padded(srcs[0], k))
  {}

  // Once AND has reached 0 or OR has reached 0xff, the other strings change nothing.
  lemma {:induction false} Absorbed(op: Operator, srcs: seq<Bytes>, j: nat, n: nat, m: nat)
    requires 0 < n <= m <= |srcs|
    requires (op == And && Folded(op, srcs, j, n) == 0) || (op == Or && Folded(op, srcs, j, n) == 0xff)
    ensures Folded(op, srcs, j, m) == Folded(op, srcs, j, n)
    decreases m
  {
    if n < m {
      Absorbed(op, srcs, j, n, m - 1);
      var b := B.Padded(srcs[m - 1], j);
      assert 0 & b == 0 && 0xff | b == 0xff;
    }
  }

  lemma OneMore(op: Operator, srcs: seq<Bytes>, j: nat, i: nat)
    requires 0 < i < |srcs|
    ensures Folded(op, srcs, j, i + 1) == Combine(op, Folded(op, srcs, j, i), B.Padded(srcs[i], j))
  {
    hide Combine, B.Padded;
  }

  lemma IsAnd(a: bv8, b: bv8)
    ensures Combine(And, a, b) == a & b
  {}

  lemma IsOr(a: bv8, b: bv8)
    ensures Combine(Or, a, b) == a | b
  {}

  lemma IsXor(a: bv8, b: bv8)
    ensures Combine(Xor, a, b) == a ^ b
  {}

  // One byte of the result, leaving off when the rest can change nothing.
  method SlowByte(op: Operator, srcs: seq<Bytes>, j: nat) returns (output: bv8)
    requires srcs != [] && (op == Not ==> |srcs| == 1)
    ensures output == Folded(op, srcs, j, |srcs|)
  {
    OneString(op, srcs, j);
    output := if |srcs[0]| <= j then 0 else srcs[0][j];
    if op == Not {
      output := !output;
    }
    hide Folded, Combine, First;
    for i := 1 to |srcs|
      invariant output == Folded(op, srcs, j, i)
    {
      var byte := if |srcs[i]| <= j then 0 else srcs[i][j];
      var skip := false;
      OneMore(op, srcs, j, i);
      IsAnd(output, byte);
      IsOr(output, byte);
      IsXor(output, byte);
      match op {
        case And =>
          output := output & byte;
          skip := output == 0;
        case Or =>
          output := output | byte;
          skip := output == 0xff;
        case Xor => output := output ^ byte;
        case Not =>
      }
      if skip {
        Absorbed(op, srcs, j, i + 1, |srcs|);
        break;
      }
    }
  }

  // bitopCommand from the looked-up strings on, a missing key being an empty string; None is the error for NOT of
  // several keys.
  method BitopCommand(op: Operator, srcs: seq<Bytes>, w: nat) returns (ok: bool, out: Bytes)
    requires srcs != [] && 0 < w <= 8
    ensures ok <==> !(op == Not && |srcs| != 1)
    ensures ok ==> IsResult(op, srcs, out)
  {
    out := [];
    if op == Not && |srcs| != 1 {
      return false, [];
    }
    ok := true;
    hide Folded, Combine, First;
    var maxlen: nat, minlen: nat := 0, 0;
    for j := 0 to |srcs|
      invariant maxlen == MaxLength(srcs[..j]) && (j > 0 ==> Long(srcs[..j], minlen)) && minlen <= maxlen
    {
      assert srcs[..j + 1][..j] == srcs[..j];
      if |srcs[j]| > maxlen {
        maxlen := |srcs[j]|;
      }
      if j == 0 || |srcs[j]| < minlen {
        minlen := |srcs[j]|;
      }
    }
    assert srcs[..|srcs|] == srcs;
    if maxlen == 0 {
      return;
    }
    var res := new bv8[maxlen];
    var j := 0;
    if minlen >= 4 * w && |srcs| <= 16 {
      for k := 0 to minlen
        invariant forall i | 0 <= i < k :: res[i] == srcs[0][i]
      {
        res[k] := srcs[0][k];
      }
      j := FastPath(op, srcs, res, minlen, w);
    }
    while j < maxlen
      invariant j <= maxlen && forall k | 0 <= k < j :: res[k] == Folded(op, srcs, k, |srcs|)
    {
      var output := SlowByte(op, srcs, j);
      res[j] := output;
      j := j + 1;
    }
    out := res[..];
  }
}
