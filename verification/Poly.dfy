/** Polynomials over GF(2) as sets of exponents, and the field GF(2)[x] / (x^128 + x^7 + x^2 + x + 1). */
module Poly {

  import opened Bits

  /** Every exponent is below n. */
  predicate Below(a: Bits, n: nat) {
    forall i :: i in a ==> i < n
  }

  /** x^n a. */
  function Shift(a: Bits, n: nat): (r: Bits)
    ensures forall j: nat :: j in r <==> j >= n && j - n in a
  {
    var r := set i | i in a :: i + n;
    assert forall j: nat | j >= n && j - n in a :: j in r by {
      forall j: nat | j >= n && j - n in a ensures j in r {
        assert (j - n) + n == j;
      }
    }
    r
  }

  lemma ShiftSum(a: Bits, b: Bits, n: nat)
    ensures Shift(Sum(a, b), n) == Sum(Shift(a, n), Shift(b, n))
  {
  }

  lemma ShiftShift(a: Bits, m: nat, n: nat)
    ensures Shift(Shift(a, m), n) == Shift(a, m + n)
  {
  }

  lemma ShiftZero(n: nat)
    ensures Shift({}, n) == {}
  {
  }

  /** a if exponent i occurs in b, else 0. */
  function Term(a: Bits, b: Bits, i: nat): Bits {
    if i in b then Shift(a, i) else {}
  }

  /** a times the part of b below x^n. */
  function MulTo(a: Bits, b: Bits, n: nat): Bits {
    if n == 0 then {} else Sum(MulTo(a, b, n - 1), Term(a, b, n - 1))
  }

  lemma {:induction false} MulBelow(a: Bits, b: Bits, m: nat, n: nat)
    requires Below(a, m)
    ensures Below(MulTo(a, b, n), m + n)
  {
    if n > 0 {
      MulBelow(a, b, m, n - 1);
    }
  }

  /** Nothing above b's degree matters. */
  lemma {:induction false} MulExtend(a: Bits, b: Bits, m: nat, n: nat)
    requires Below(b, m) && m <= n
    ensures MulTo(a, b, n) == MulTo(a, b, m)
  {
    if m < n {
      MulExtend(a, b, m, n - 1);
      SumZero(MulTo(a, b, n - 1));
    }
  }

  lemma {:induction false} MulSumLeft(a: Bits, a': Bits, b: Bits, n: nat)
    ensures MulTo(Sum(a, a'), b, n) == Sum(MulTo(a, b, n), MulTo(a', b, n))
  {
    if n > 0 {
      MulSumLeft(a, a', b, n - 1);
      ShiftSum(a, a', n - 1);
      SumZero({});
      SumSwap(MulTo(a, b, n - 1), MulTo(a', b, n - 1), Term(a, b, n - 1), Term(a', b, n - 1));
    } else {
      SumZero({});
    }
  }

  lemma TermSumRight(a: Bits, b: Bits, b': Bits, i: nat)
    ensures Term(a, Sum(b, b'), i) == Sum(Term(a, b, i), Term(a, b', i))
  {
    SumZero(Shift(a, i));
    SumZero({});
  }

  lemma {:induction false} MulSumRight(a: Bits, b: Bits, b': Bits, n: nat)
    ensures MulTo(a, Sum(b, b'), n) == Sum(MulTo(a, b, n), MulTo(a, b', n))
  {
    if n > 0 {
      MulSumRight(a, b, b', n - 1);
      TermSumRight(a, b, b', n - 1);
      SumSwap(MulTo(a, b, n - 1), MulTo(a, b', n - 1), Term(a, b, n - 1), Term(a, b', n - 1));
    } else {
      SumZero({});
    }
  }

  lemma TermShift(a: Bits, b: Bits, k: nat, i: nat)
    ensures Term(Shift(a, k), b, i) == Shift(Term(a, b, i), k) == Term(a, Shift(b, k), i + k)
  {
    ShiftZero(k);
    ShiftShift(a, k, i);
    ShiftShift(a, i, k);
  }

  lemma {:induction false} MulShiftLeft(a: Bits, k: nat, b: Bits, n: nat)
    ensures MulTo(Shift(a, k), b, n) == Shift(MulTo(a, b, n), k)
  {
    if n == 0 {
      ShiftZero(k);
    } else {
      MulShiftLeft(a, k, b, n - 1);
      TermShift(a, b, k, n - 1);
      ShiftSum(MulTo(a, b, n - 1), Term(a, b, n - 1), k);
    }
  }

  lemma {:induction false} MulShiftRight(a: Bits, b: Bits, k: nat, n: nat)
    ensures MulTo(a, Shift(b, k), n + k) == Shift(MulTo(a, b, n), k)
  {
    if n == 0 {
      ShiftZero(k);
      MulNothing(a, Shift(b, k), k);
    } else {
      MulShiftRight(a, b, k, n - 1);
      TermShift(a, b, k, n - 1);
      ShiftSum(MulTo(a, b, n - 1), Term(a, b, n - 1), k);
    }
  }

  /** No exponent of b is below n. */
  lemma {:induction false} MulNothing(a: Bits, b: Bits, n: nat)
    requires forall i :: i in b ==> i >= n
    ensures MulTo(a, b, n) == {}
  {
    if n > 0 {
      MulNothing(a, b, n - 1);
      SumZero({});
    }
  }

  /** x^k times a. */
  lemma {:induction false} MulMonomial(k: nat, a: Bits, m: nat)
    requires Below(a, m)
    ensures MulTo({k}, a, m) == Shift(a, k)
  {
    var lower := set i | i in a && i < m - 1;
    if m > 0 {
      MulPrefix({k}, a, lower, m - 1);
      MulMonomial(k, lower, m - 1);
      assert Shift(a, k) == Sum(Shift(lower, k), Term({k}, a, m - 1));
    }
  }

  lemma {:induction false} MulPrefix(a: Bits, b: Bits, b': Bits, n: nat)
    requires forall i: nat :: i < n ==> (i in b <==> i in b')
    ensures MulTo(a, b, n) == MulTo(a, b', n)
  {
    if n > 0 {
      MulPrefix(a, b, b', n - 1);
    }
  }

  lemma {:induction false} MulNone(b: Bits, n: nat)
    ensures MulTo({}, b, n) == {}
  {
    if n > 0 {
      MulNone(b, n - 1);
      ShiftZero(n - 1);
      SumZero({});
    }
  }

  lemma {:induction false} MulCommutes(a: Bits, m: nat, b: Bits, n: nat)
    requires Below(a, m) && Below(b, n)
    ensures MulTo(a, b, n) == MulTo(b, a, m)
  {
    if n == 0 {
      assert b == {};
      MulNone(a, m);
    } else {
      var lower := set i | i in b && i < n - 1;
      MulPrefix(a, b, lower, n - 1);
      MulCommutes(a, m, lower, n - 1);
      if n - 1 in b {
        assert b == Sum(lower, {n - 1});
        MulSumLeft(lower, {n - 1}, a, m);
        MulMonomial(n - 1, a, m);
      } else {
        assert b == lower;
        SumZero(MulTo(a, b, n - 1));
      }
    }
  }

  lemma {:induction false} MulAssociates(a: Bits, b: Bits, m: nat, c: Bits, n: nat)
    requires Below(b, m)
    ensures MulTo(MulTo(a, b, m), c, n) == MulTo(a, MulTo(b, c, n), m + n)
  {
    if n == 0 {
      MulNothing(a, {}, m);
    } else {
      var bc, t := MulTo(b, c, n - 1), Term(b, c, n - 1);
      MulAssociates(a, b, m, c, n - 1);
      MulBelow(b, c, m, n - 1);
      MulSumRight(a, bc, t, m + n);
      MulExtend(a, bc, m + n - 1, m + n);
      if n - 1 in c {
        MulShiftRight(a, b, n - 1, m);
        assert Below(t, m + n - 1);
        MulExtend(a, t, m + n - 1, m + n);
      } else {
        MulNothing(a, {}, m + n);
      }
    }
  }

  // ---- modulo F = x^128 + x^7 + x^2 + x + 1 ----

  /** h (x^7 + x^2 + x + 1). */
  function Taps(h: Bits): Bits {
    Sum(Sum(h, Shift(h, 1)), Sum(Shift(h, 2), Shift(h, 7)))
  }

  /** h F. */
  function TimesF(h: Bits): Bits {
    Sum(Shift(h, 128), Taps(h))
  }

  ghost predicate Congruent(p: Bits, q: Bits) {
    exists h :: Sum(p, q) == TimesF(h)
  }

  lemma TimesFSum(g: Bits, h: Bits)
    ensures TimesF(Sum(g, h)) == Sum(TimesF(g), TimesF(h))
  {
    ShiftSum(g, h, 128);
    ShiftSum(g, h, 1);
    ShiftSum(g, h, 2);
    ShiftSum(g, h, 7);
    SumSwap(g, h, Shift(g, 1), Shift(h, 1));
    SumSwap(Shift(g, 2), Shift(h, 2), Shift(g, 7), Shift(h, 7));
    SumSwap(Sum(g, Shift(g, 1)), Sum(h, Shift(h, 1)), Sum(Shift(g, 2), Shift(g, 7)), Sum(Shift(h, 2), Shift(h, 7)));
    SumSwap(Shift(g, 128), Shift(h, 128), Taps(g), Taps(h));
  }

  lemma TimesFMul(h: Bits, c: Bits, n: nat)
    ensures MulTo(TimesF(h), c, n) == TimesF(MulTo(h, c, n))
  {
    MulSumLeft(Shift(h, 128), Taps(h), c, n);
    MulSumLeft(Sum(h, Shift(h, 1)), Sum(Shift(h, 2), Shift(h, 7)), c, n);
    MulSumLeft(h, Shift(h, 1), c, n);
    MulSumLeft(Shift(h, 2), Shift(h, 7), c, n);
    MulShiftLeft(h, 128, c, n);
    MulShiftLeft(h, 1, c, n);
    MulShiftLeft(h, 2, c, n);
    MulShiftLeft(h, 7, c, n);
  }

  lemma {:induction false} Greatest(h: Bits) returns (t: nat)
    requires h != {}
    ensures t in h && forall i :: i in h ==> i <= t
    decreases h
  {
    var s :| s in h;
    var above := set i | i in h && i > s;
    assert s !in above && forall i :: i in h && i > s ==> i in above;
    t := s;
    if above != {} {
      t := Greatest(above);
    }
  }

  /** A nonzero multiple of F has degree 128 at least. */
  lemma TimesFLarge(h: Bits)
    requires Below(TimesF(h), 128)
    ensures h == {}
  {
    if h != {} {
      var t := Greatest(h);
      TopTerm(h, t);
    }
  }

  lemma TopTerm(h: Bits, t: nat)
    requires t in h && forall i :: i in h ==> i <= t
    ensures t + 128 in TimesF(h)
  {
    assert t + 128 in Shift(h, 128);
    assert t + 128 !in Taps(h);
  }

  /** A remainder modulo F is unique. */
  lemma RemainderUnique(p: Bits, q: Bits)
    requires Congruent(p, q) && Below(p, 128) && Below(q, 128)
    ensures p == q
  {
    var h :| Sum(p, q) == TimesF(h);
    TimesFLarge(h);
    SumIsZero(p, q);
  }

  lemma SumIsZero(p: Bits, q: Bits)
    requires Sum(p, q) == TimesF({})
    ensures p == q
  {
    ShiftZero(128);
    ShiftZero(1);
    ShiftZero(2);
    ShiftZero(7);
    SumZero({});
    forall i: nat
      ensures i in p <==> i in q
    {
      assert i !in Sum(p, q);
    }
  }

  lemma CongruentSame(p: Bits)
    ensures Congruent(p, p)
  {
    ShiftZero(128);
    ShiftZero(1);
    ShiftZero(2);
    ShiftZero(7);
    SumZero({});
    SumZero(p);
    assert Sum(p, p) == TimesF({});
  }

  lemma CongruentSwap(p: Bits, q: Bits)
    requires Congruent(p, q)
    ensures Congruent(q, p)
  {
    var h :| Sum(p, q) == TimesF(h);
    SumComm(p, q);
    assert Sum(q, p) == TimesF(h);
  }

  lemma CongruentSum(p: Bits, q: Bits, p': Bits, q': Bits)
    requires Congruent(p, q) && Congruent(p', q')
    ensures Congruent(Sum(p, p'), Sum(q, q'))
  {
    var h :| Sum(p, q) == TimesF(h);
    var h' :| Sum(p', q') == TimesF(h');
    TimesFSum(h, h');
    SumSwap(p, p', q, q');
    assert Sum(Sum(p, p'), Sum(q, q')) == TimesF(Sum(h, h'));
  }

  lemma CongruentTransitive(p: Bits, q: Bits, r: Bits)
    requires Congruent(p, q) && Congruent(q, r)
    ensures Congruent(p, r)
  {
    var h :| Sum(p, q) == TimesF(h);
    var h' :| Sum(q, r) == TimesF(h');
    TimesFSum(h, h');
    SumChain(p, q, r);
    assert Sum(p, r) == TimesF(Sum(h, h'));
  }

  lemma SumChain(p: Bits, q: Bits, r: Bits)
    ensures Sum(Sum(p, q), Sum(q, r)) == Sum(p, r)
  {
  }

  lemma CongruentMul(p: Bits, q: Bits, c: Bits, n: nat)
    requires Congruent(p, q)
    ensures Congruent(MulTo(p, c, n), MulTo(q, c, n))
  {
    var h :| Sum(p, q) == TimesF(h);
    MulSumLeft(p, q, c, n);
    TimesFMul(h, c, n);
    assert Sum(MulTo(p, c, n), MulTo(q, c, n)) == TimesF(MulTo(h, c, n));
  }
}
