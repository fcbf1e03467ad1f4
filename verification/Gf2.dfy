// Polynomials over the field of two elements: a polynomial is the set of the exponents whose coefficient is one.
module Gf2 {
  import opened Repeats

  type Poly = set<nat>

  function Add(p: Poly, q: Poly): Poly { (p - q) + (q - p) }

  // p * x^n
  function Raise(p: Poly, n: nat): Poly { set i | i in p :: i + n }

  // The pairs of exponents of `p` and `q` that add up to `i`, by the first.
  function Pairs(p: Poly, q: Poly, i: nat): set<nat> { set j | j in p && j <= i && i - j in q }

  predicate Odd(n: nat) { n % 2 == 1 }

  // The product: coefficient `i` is one if an odd number of pairs adds up to it.
  function Mul(p: Poly, q: Poly): Poly { set j, k | j in p && k in q && Odd(|Pairs(p, q, j + k)|) :: j + k }

  predicate Below(p: Poly, n: nat) { forall i | i in p :: i < n }

  lemma InMul(p: Poly, q: Poly, i: nat)
    ensures i in Mul(p, q) <==> Odd(|Pairs(p, q, i)|)
  {
    hide Pairs;
    var m := Mul(p, q);
    if Odd(|Pairs(p, q, i)|) {
      var j := APair(p, q, i);
      var k := i - j;
      assert j in p && k in q && Odd(|Pairs(p, q, j + k)|);
      assert j + k in m;
    } else if i in m {
      var j, k :| j in p && k in q && Odd(|Pairs(p, q, j + k)|) && j + k == i;
      assert false;
    }
  }

  lemma APair(p: Poly, q: Poly, i: nat) returns (j: nat)
    requires |Pairs(p, q, i)| > 0
    ensures j in p && j <= i && i - j in q
  {
    assert Pairs(p, q, i) != {};
    j :| j in Pairs(p, q, i);
  }

  // ---------- sums ----------

  lemma AddComm(p: Poly, q: Poly)
    ensures Add(p, q) == Add(q, p)
  {}

  lemma AddAssoc(p: Poly, q: Poly, r: Poly)
    ensures Add(Add(p, q), r) == Add(p, Add(q, r))
  {}

  lemma AddSelf(p: Poly)
    ensures Add(p, p) == {} && Add(p, {}) == p && Add({}, p) == p
  {}

  lemma AddSwap(a: Poly, b: Poly, c: Poly, d: Poly)
    ensures Add(Add(a, b), Add(c, d)) == Add(Add(a, c), Add(b, d))
  {}

  lemma RaiseAdd(p: Poly, q: Poly, n: nat)
    ensures Raise(Add(p, q), n) == Add(Raise(p, n), Raise(q, n))
  {
    forall i
      ensures i in Raise(Add(p, q), n) <==> i in Add(Raise(p, n), Raise(q, n))
    {
      InRaise(p, n, i);
      InRaise(q, n, i);
      InRaise(Add(p, q), n, i);
    }
  }

  lemma InRaise(p: Poly, n: nat, i: nat)
    ensures i in Raise(p, n) <==> i >= n && i - n in p
  {
    if i >= n && i - n in p {
      assert (i - n) + n in Raise(p, n);
    }
  }

  // The size of a sum, up to a multiple of two.
  lemma OddAdd(x: set<nat>, y: set<nat>)
    ensures Odd(|Add(x, y)|) <==> Odd(|x|) != Odd(|y|)
  {
    var both := x * y;
    assert x == (x - y) + both && y == (y - x) + both;
    assert |x| == |x - y| + |both| && |y| == |y - x| + |both|;
    assert |Add(x, y)| == |x - y| + |y - x|;
  }

  lemma PairsAdd(p: Poly, q: Poly, r: Poly, i: nat)
    ensures Pairs(Add(p, q), r, i) == Add(Pairs(p, r, i), Pairs(q, r, i))
  {}

  // (p + q) * r == p * r + q * r
  lemma MulAdd(p: Poly, q: Poly, r: Poly)
    ensures Mul(Add(p, q), r) == Add(Mul(p, r), Mul(q, r))
  {
    forall i: nat
      ensures i in Mul(Add(p, q), r) <==> i in Add(Mul(p, r), Mul(q, r))
    {
      InMul(Add(p, q), r, i);
      InMul(p, r, i);
      InMul(q, r, i);
      PairsAdd(p, q, r, i);
      OddAdd(Pairs(p, r, i), Pairs(q, r, i));
    }
  }

  lemma {:induction false} RaiseSize(x: set<nat>, n: nat)
    ensures |Raise(x, n)| == |x|
    decreases |x|
  {
    if x != {} {
      var a :| a in x;
      RaiseSize(x - {a}, n);
      forall i: nat
        ensures i in Raise(x, n) <==> i in Raise(x - {a}, n) || i == a + n
      {
        InRaise(x, n, i);
        InRaise(x - {a}, n, i);
      }
      InRaise(x - {a}, n, a + n);
      hide Raise;
      assert Raise(x, n) == Raise(x - {a}, n) + {a + n};
    }
  }

  // (p * x^n) * q == (p * q) * x^n
  lemma MulRaise(p: Poly, q: Poly, n: nat)
    ensures Mul(Raise(p, n), q) == Raise(Mul(p, q), n)
  {
    hide Mul, Raise, Pairs;
    forall i: nat
      ensures i in Mul(Raise(p, n), q) <==> i in Raise(Mul(p, q), n)
    {
      InMul(Raise(p, n), q, i);
      InRaise(Mul(p, q), n, i);
      if i >= n {
        InMul(p, q, i - n);
        PairsRaise(p, q, n, i);
        RaiseSize(Pairs(p, q, i - n), n);
      } else {
        PairsBelow(p, q, n, i);
      }
    }
  }

  lemma PairsBelow(p: Poly, q: Poly, n: nat, i: nat)
    requires i < n
    ensures Pairs(Raise(p, n), q, i) == {}
  {
    forall j | j in Pairs(Raise(p, n), q, i)
      ensures false
    {
      InRaise(p, n, j);
    }
  }

  lemma PairsRaise(p: Poly, q: Poly, n: nat, i: nat)
    requires i >= n
    ensures Pairs(Raise(p, n), q, i) == Raise(Pairs(p, q, i - n), n)
  {
    forall j
      ensures j in Pairs(Raise(p, n), q, i) <==> j in Raise(Pairs(p, q, i - n), n)
    {
      InRaise(p, n, j);
      InRaise(Pairs(p, q, i - n), n, j);
    }
  }

  lemma MulOne(q: Poly)
    ensures Mul({0}, q) == q && Mul({}, q) == {}
  {
    hide Mul, Pairs;
    forall i: nat
      ensures i in Mul({0}, q) <==> i in q
      ensures i !in Mul({}, q)
    {
      InMul({0}, q, i);
      InMul({}, q, i);
      PairsOne(q, i);
    }
  }

  lemma PairsOne(q: Poly, i: nat)
    ensures |Pairs({0}, q, i)| == (if i in q then 1 else 0) && |Pairs({}, q, i)| == 0
  {
    assert Pairs({0}, q, i) == if i in q then {0} else {};
    assert Pairs({}, q, i) == {};
  }

  // ---------- division ----------

  // x^n + low
  function Divisor(n: nat, low: Poly): Poly { low + {n} }

  // `r` is what is left of `m` after dividing by `d`.
  ghost predicate Leaves(m: Poly, d: Poly, n: nat, r: Poly)
  {
    Below(r, n) && exists q :: m == Add(Mul(q, d), r)
  }

  // The polynomial with these coefficients, highest first.
  function PolyOf(bits: seq<bool>): Poly { set i | 0 <= i < |bits| && CoefficientAt(bits, i) }

  predicate CoefficientAt(bits: seq<bool>, i: nat)
    requires i < |bits|
  {
    bits[|bits| - 1 - i]
  }

  function Coefficient(bit: bool): Poly { if bit then {0} else {} }

  // Division bit by bit, taking the coefficients from the highest.
  function Remainder(bits: seq<bool>, n: nat, low: Poly): Poly
  {
    if bits == [] then {}
    else
      var s := Add(Raise(Remainder(bits[..|bits| - 1], n, low), 1), Coefficient(bits[|bits| - 1]));
      if n in s then Add(s, Divisor(n, low)) else s
  }

  lemma PolySnoc(bits: seq<bool>, bit: bool)
    ensures PolyOf(bits + [bit]) == Add(Raise(PolyOf(bits), 1), Coefficient(bit))
  {
    var l := bits + [bit];
    forall i: nat
      ensures i in PolyOf(l) <==> i in Add(Raise(PolyOf(bits), 1), Coefficient(bit))
    {
      InRaise(PolyOf(bits), 1, i);
      if 0 < i < |l| {
        assert l[|l| - 1 - i] == bits[|bits| - 1 - (i - 1)];
      }
    }
  }

  // Zeros behind the coefficients multiply by a power of x.
  lemma PolyZeros(bits: seq<bool>, n: nat)
    ensures PolyOf(bits + Repeat(false, n)) == Raise(PolyOf(bits), n)
  {
    var l := bits + Repeat(false, n);
    forall i: nat
      ensures i in PolyOf(l) <==> i in Raise(PolyOf(bits), n)
    {
      InRaise(PolyOf(bits), n, i);
      if i < |l| {
        assert l[|l| - 1 - i] == (i >= n && bits[|bits| - 1 - (i - n)]);
      }
    }
  }

  // Reducing a polynomial that reaches x^n at most: the highest term is replaced by the lower ones of the divisor.
  lemma Reduced(n: nat, d: Poly, top: bool, c: Poly, low: Poly)
    requires n !in d && n !in c && n !in low
    ensures var s := Add(d + if top then {n} else {}, c);
            && (n in s <==> top)
            && Add(Add(d, if top then low else {}), c) == if top then Add(s, Divisor(n, low)) else s
  {}

  lemma {:induction false} RemainderBelow(bits: seq<bool>, n: nat, low: Poly)
    requires n > 0 && Below(low, n)
    ensures Below(Remainder(bits, n, low), n)
  {
    if bits != [] {
      var r := Remainder(bits[..|bits| - 1], n, low);
      RemainderBelow(bits[..|bits| - 1], n, low);
      var s := Add(Raise(r, 1), Coefficient(bits[|bits| - 1]));
      forall i | i in s
        ensures i <= n
      {
        InRaise(r, 1, i);
      }
    }
  }

  // One more coefficient: the quotient gains a zero or a one.
  lemma StepDivides(m: Poly, q: Poly, r: Poly, bit: bool, n: nat, low: Poly)
    requires m == Add(Mul(q, Divisor(n, low)), r)
    ensures var d := Divisor(n, low);
            var (s, m1) := (Add(Raise(r, 1), Coefficient(bit)), Add(Raise(m, 1), Coefficient(bit)));
            && m1 == Add(Mul(Raise(q, 1), d), s)
            && m1 == Add(Mul(Add(Raise(q, 1), {0}), d), Add(s, d))
  {
    var d := Divisor(n, low);
    var (c, s) := (Coefficient(bit), Add(Raise(r, 1), Coefficient(bit)));
    RaiseAdd(Mul(q, d), r, 1);
    MulRaise(q, d, 1);
    var x := Mul(Raise(q, 1), d);
    AddAssoc(x, Raise(r, 1), c);
    MulAdd(Raise(q, 1), {0}, d);
    MulOne(d);
    AddComm(s, d);
    AddAssoc(x, d, Add(d, s));
    AddAssoc(d, d, s);
    AddSelf(d);
    AddSelf(s);
  }

  // There is a quotient.
  lemma {:induction false} Divides(bits: seq<bool>, n: nat, low: Poly) returns (q: Poly)
    ensures PolyOf(bits) == Add(Mul(q, Divisor(n, low)), Remainder(bits, n, low))
  {
    if bits == [] {
      q := {};
      MulOne(Divisor(n, low));
      AddSelf({});
    } else {
      var (front, bit) := (bits[..|bits| - 1], bits[|bits| - 1]);
      var q0 := Divides(front, n, low);
      assert bits == front + [bit];
      PolySnoc(front, bit);
      StepDivides(PolyOf(front), q0, Remainder(front, n, low), bit, n, low);
      hide Mul, Add, Raise, Divisor, PolyOf;
      var s := Add(Raise(Remainder(front, n, low), 1), Coefficient(bit));
      q := if n in s then Add(Raise(q0, 1), {0}) else Raise(q0, 1);
    }
  }

  // ---------- there is only one remainder ----------

  lemma {:induction false} Greatest(p: Poly) returns (m: nat)
    requires p != {}
    ensures m in p && forall i | i in p :: i <= m
    decreases |p|
  {
    var a :| a in p;
    if p == {a} {
      m := a;
    } else {
      var rest := p - {a};
      assert p == rest + {a};
      var b := Greatest(rest);
      m := if a > b then a else b;
      forall i | i in p
        ensures i <= m
      {
        assert i == a || i in rest;
      }
    }
  }

  lemma TopPair(q: Poly, n: nat, low: Poly, m: nat)
    requires Below(low, n) && m in q && forall i | i in q :: i <= m
    ensures |Pairs(q, Divisor(n, low), m + n)| == 1
  {
    assert Pairs(q, Divisor(n, low), m + n) == {m};
  }

  // A multiple of x^n + low that is not zero has an exponent of at least n.
  lemma MultipleHigh(q: Poly, n: nat, low: Poly)
    requires Below(low, n) && Below(Mul(q, Divisor(n, low)), n)
    ensures q == {}
  {
    hide Mul, Pairs, Divisor;
    if q != {} {
      var m := Greatest(q);
      TopPair(q, n, low, m);
      InMul(q, Divisor(n, low), m + n);
    }
  }

  lemma RemainderUnique(m: Poly, n: nat, low: Poly, r: Poly, t: Poly)
    requires Below(low, n) && Leaves(m, Divisor(n, low), n, r) && Leaves(m, Divisor(n, low), n, t)
    ensures r == t
  {
    var d := Divisor(n, low);
    var q :| m == Add(Mul(q, d), r);
    var p :| m == Add(Mul(p, d), t);
    MulAdd(q, p, d);
    hide Mul;
    var (x, y) := (Mul(q, d), Mul(p, d));
    assert Add(x, r) == Add(y, t);
    assert Add(x, y) == Add(r, t) by {
      Cancel(x, r, y, t);
    }
    MultipleHigh(Add(q, p), n, low);
    MulOne(d);
    assert Add(r, t) == {};
    SameIfNoSum(r, t);
  }

  lemma Cancel(x: Poly, r: Poly, y: Poly, t: Poly)
    requires Add(x, r) == Add(y, t)
    ensures Add(x, y) == Add(r, t)
  {
    forall i: nat
      ensures i in Add(x, y) <==> i in Add(r, t)
    {
      assert i in Add(x, r) <==> i in Add(y, t);
    }
  }

  lemma SameIfNoSum(r: Poly, t: Poly)
    requires Add(r, t) == {}
    ensures r == t
  {
    forall i: nat
      ensures i in r <==> i in t
    {
      assert i !in Add(r, t);
    }
  }

  // The bitwise division finds the one polynomial of lower degree that differs from the message by a multiple of the
  // divisor.
  lemma RemainderIs(bits: seq<bool>, n: nat, low: Poly, r: Poly)
    requires n > 0 && Below(low, n)
    ensures Leaves(PolyOf(bits), Divisor(n, low), n, r) <==> r == Remainder(bits, n, low)
  {
    var q := Divides(bits, n, low);
    RemainderBelow(bits, n, low);
    assert Leaves(PolyOf(bits), Divisor(n, low), n, Remainder(bits, n, low));
    if Leaves(PolyOf(bits), Divisor(n, low), n, r) {
      RemainderUnique(PolyOf(bits), n, low, r, Remainder(bits, n, low));
    }
  }
}
