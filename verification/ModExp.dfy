/** Modular exponentiation by square and multiply (UInt_T::mod_exp of
    emp-tool/circuits/unsigned_int.h): products are taken modulo 2^N before they are reduced. */
module ModExp {

  import opened Powers
  import opened Numeric
  import opened Kernels
  import opened Integers

  /** What the divider leaves: a zero divisor leaves the dividend. */
  function Rem(a: nat, q: nat): nat {
    if q == 0 then a else a % q
  }

  /** (x * y) % q on n-bit numbers. */
  function MulMod(n: nat, x: nat, y: nat, q: nat): nat {
    Rem(Low(x * y, n), q)
  }

  /** `base` and `res` after i bits of the exponent. */
  function BaseAt(n: nat, b: nat, q: nat, i: nat): nat {
    if i == 0 then b else MulMod(n, BaseAt(n, b, q, i - 1), BaseAt(n, b, q, i - 1), q)
  }

  function ResAt(n: nat, b: nat, p: Bools, q: nat, i: nat): nat
    requires i <= |p|
  {
    if i == 0 then 1
    else if p[i - 1] then MulMod(n, ResAt(n, b, p, q, i - 1), BaseAt(n, b, q, i - 1), q)
    else ResAt(n, b, p, q, i - 1)
  }

  method One(n: nat) returns (r: Bools)
    requires n >= 1
    ensures |r| == n && Val(r) == 1
  {
    var zeros := seq(n, _ => false);
    r := zeros[0 := true];
    NumZeros(zeros, n);
    NumSet(zeros, 0, true, n);
  }

  method MulModBits(x: Bools, y: Bools, q: Bools) returns (r: Bools)
    requires |x| == |y| == |q| >= 1
    ensures |r| == |x| && Val(r) == MulMod(|x|, Val(x), Val(y), Val(q))
  {
    var prod := Mul(x, y);
    var quot;
    quot, r := DivMod(prod, q);
  }

  method ModExp(x: Bools, p: Bools, q: Bools) returns (res: Bools)
    requires |x| == |q| >= 1
    ensures |res| == |x| && Val(res) == ResAt(|x|, Val(x), p, Val(q), |p|)
  {
    var base := x;
    res := One(|x|);
    for i := 0 to |p|
      invariant |res| == |base| == |x|
      invariant Val(base) == BaseAt(|x|, Val(x), Val(q), i)
      invariant Val(res) == ResAt(|x|, Val(x), p, Val(q), i)
    {
      var tmp := MulModBits(res, base, q);
      res := Select(res, p[i], tmp);
      base := MulModBits(base, base, q);
    }
  }

  // ---- what it computes ----

  function Power(b: nat, e: nat): nat {
    if e == 0 then 1 else b * Power(b, e - 1)
  }

  lemma {:induction false} PowerSum(b: nat, e: nat, f: nat)
    ensures Power(b, e + f) == Power(b, e) * Power(b, f)
  {
    if f > 0 {
      PowerSum(b, e, f - 1);
      calc {
        Power(b, e + f);
        b * (Power(b, e) * Power(b, f - 1));
        Power(b, e) * (b * Power(b, f - 1));
        Power(b, e) * Power(b, f);
      }
    } else {
      assert Power(b, 0) == 1;
    }
  }

  function Multiple(k: int, m: int): int {
    k * m
  }

  ghost predicate Congruent(a: int, b: int, m: int) {
    exists k: int :: a == b + Multiple(k, m)
  }

  lemma CongruentBy(a: int, b: int, m: int, k: int)
    requires a == b + k * m
    ensures Congruent(a, b, m)
  {
    assert a == b + Multiple(k, m);
  }

  lemma CongruentProduct(a: int, a': int, b: int, b': int, c: int, m: int)
    requires Congruent(a, a', m) && Congruent(b, b', m) && Congruent(c, a * b, m)
    ensures Congruent(c, a' * b', m)
  {
    var k: int :| a == a' + Multiple(k, m);
    var l: int :| b == b' + Multiple(l, m);
    var j: int :| c == a * b + Multiple(j, m);
    ProductExpands(a', k, b', l, m);
    CongruentBy(c, a' * b', m, a' * l + k * b' + k * l * m + j);
  }

  lemma ProductExpands(a: int, k: int, b: int, l: int, m: int)
    ensures (a + k * m) * (b + l * m) == a * b + (a * l + k * b + k * l * m) * m
  {
  }

  /** The modulus that counts: 2^N itself when q is 0. */
  function Modulus(n: nat, q: nat): nat {
    if q == 0 then Pow2(n) else q
  }

  function Max(a: int, b: int): int {
    if a > b then a else b
  }

  /** No product the loop can form loses anything that matters modulo q. */
  predicate NoLoss(n: nat, b: nat, q: nat) {
    q == 0 || Pow2(n) % q == 0 || Max(b, q - 1) * Max(b, q - 1) < Pow2(n)
  }

  lemma RemainderCongruent(a: nat, m: nat)
    requires m >= 1
    ensures a % m < m && Congruent(a % m, a, m)
  {
    var q, r := a / m, a % m;
    assert a == m * q + r;
    Negated(q, m);
    CongruentBy(r, a, m, -q);
  }

  lemma Negated(k: int, m: int)
    ensures (-k) * m == -(k * m)
  {
  }

  /** A congruence modulo m holds modulo every divisor of m. */
  lemma CongruentDivisor(a: int, b: int, m: nat, q: nat)
    requires q >= 1 && m % q == 0 && Congruent(a, b, m)
    ensures Congruent(a, b, q)
  {
    var k: int :| a == b + Multiple(k, m);
    var t := m / q;
    assert m == q * t;
    assert k * (q * t) == (k * t) * q;
    CongruentBy(a, b, q, k * t);
  }

  lemma CongruentTransitive(a: int, b: int, c: int, m: int)
    requires Congruent(a, b, m) && Congruent(b, c, m)
    ensures Congruent(a, c, m)
  {
    var k: int :| a == b + Multiple(k, m);
    var l: int :| b == c + Multiple(l, m);
    Times(k, -l, m);
    Negated(l, m);
    CongruentBy(a, c, m, k + l);
  }

  lemma LowCongruent(a: nat, n: nat)
    ensures Congruent(Low(a, n), a, Pow2(n))
  {
    LowIsRemainder(a, n);
    RemainderCongruent(a, Pow2(n));
  }

  lemma MulModSmall(n: nat, x: nat, y: nat, q: nat)
    requires q >= 1 && x * y < Pow2(n)
    ensures MulMod(n, x, y, q) < q && Congruent(MulMod(n, x, y, q), x * y, q)
  {
    LowOfSmall(x * y, n);
    RemainderCongruent(x * y, q);
  }

  lemma MulModDivides(n: nat, x: nat, y: nat, q: nat)
    requires q >= 1 && Pow2(n) % q == 0
    ensures MulMod(n, x, y, q) < q && Congruent(MulMod(n, x, y, q), x * y, q)
  {
    var a := x * y;
    var l := Low(a, n);
    LowCongruent(a, n);
    CongruentDivisor(l, a, Pow2(n), q);
    RemainderCongruent(l, q);
    CongruentTransitive(l % q, l, a, q);
  }

  /** Every value the loop holds is below the modulus, or still small enough to multiply. */
  ghost predicate InRange(n: nat, b: nat, q: nat, v: nat) {
    q == 0 || Pow2(n) % q == 0 || v <= Max(b, q - 1)
  }

  lemma MulModStep(n: nat, b: nat, q: nat, x: nat, y: nat)
    requires NoLoss(n, b, q) && InRange(n, b, q, x) && InRange(n, b, q, y)
    ensures MulMod(n, x, y, q) < Modulus(n, q)
    ensures Congruent(MulMod(n, x, y, q), x * y, Modulus(n, q)) && InRange(n, b, q, MulMod(n, x, y, q))
  {
    if q == 0 {
      LowCongruent(x * y, n);
    } else if Pow2(n) % q == 0 {
      MulModDivides(n, x, y, q);
    } else {
      var c := Max(b, q - 1);
      Bounded(x, y, c);
      MulModSmall(n, x, y, q);
    }
  }

  lemma Bounded(x: nat, y: nat, c: nat)
    requires x <= c && y <= c
    ensures x * y <= c * c
  {
    assert (c - x) * y >= 0 && c * (c - y) >= 0;
    assert (c - x) * y == c * y - x * y;
    assert c * (c - y) == c * c - c * y;
  }

  lemma {:induction false} BaseIs(n: nat, b: nat, q: nat, i: nat)
    requires NoLoss(n, b, q)
    ensures Congruent(BaseAt(n, b, q, i), Power(b, Pow2(i)), Modulus(n, q)) && InRange(n, b, q, BaseAt(n, b, q, i))
  {
    var m := Modulus(n, q);
    if i == 0 {
      assert Power(b, 1) == b * Power(b, 0) == b;
      CongruentBy(b, b, m, 0);
    } else {
      var v, e := BaseAt(n, b, q, i - 1), Pow2(i - 1);
      BaseIs(n, b, q, i - 1);
      MulModStep(n, b, q, v, v);
      CongruentProduct(v, Power(b, e), v, Power(b, e), MulMod(n, v, v, q), m);
      PowerSum(b, e, e);
    }
  }

  lemma {:induction false} ResIs(n: nat, b: nat, p: Bools, q: nat, i: nat)
    requires i <= |p| && n >= 1 && NoLoss(n, b, q)
    ensures Congruent(ResAt(n, b, p, q, i), Power(b, Num(p, i)), Modulus(n, q)) &&
            InRange(n, b, q, ResAt(n, b, p, q, i))
    ensures if Num(p, i) == 0 then ResAt(n, b, p, q, i) == 1 else ResAt(n, b, p, q, i) < Modulus(n, q)
  {
    var m := Modulus(n, q);
    if i == 0 {
      CongruentBy(1, 1, m, 0);
      if q == 1 {
        assert Pow2(n) % 1 == 0;
      }
    } else {
      ResIs(n, b, p, q, i - 1);
      if p[i - 1] {
        var r, v, e := ResAt(n, b, p, q, i - 1), BaseAt(n, b, q, i - 1), Num(p, i - 1);
        BaseIs(n, b, q, i - 1);
        MulModStep(n, b, q, r, v);
        CongruentProduct(r, Power(b, e), v, Power(b, Pow2(i - 1)), MulMod(n, r, v, q), m);
        PowerSum(b, e, Pow2(i - 1));
      }
    }
  }

  /** When nothing is lost, mod_exp is exponentiation modulo q, and modulo 2^N for q = 0; exponent 0
      gives 1 even modulo 1. */
  lemma ModExpIs(n: nat, b: nat, p: Bools, q: nat)
    requires n >= 1 && NoLoss(n, b, q)
    ensures ResAt(n, b, p, q, |p|) == if Val(p) == 0 then 1 else Power(b, Val(p)) % Modulus(n, q)
  {
    ResIs(n, b, p, q, |p|);
    if Val(p) != 0 {
      var a, r, m := Power(b, Val(p)), ResAt(n, b, p, q, |p|), Modulus(n, q);
      var k: int :| r == a + Multiple(k, m);
      Negated(k, m);
      RemainderUnique(a, m, -k, r);
    }
  }

  /** In particular for a base and a modulus of half the width. */
  lemma HalfWidthModExp(n: nat, b: nat, p: Bools, q: nat)
    requires n >= 1 && b < Pow2(n / 2) && 1 < q <= Pow2(n / 2)
    ensures ResAt(n, b, p, q, |p|) == Power(b, Val(p)) % q
  {
    var h, c := Pow2(n / 2), Max(b, q - 1);
    Pow2Sum(n / 2, n / 2);
    Pow2Monotone(n / 2 + n / 2, n);
    Bounded(c, c, h - 1);
    assert (h - 1) * (h - 1) < h * h;
    ModExpIs(n, b, p, q);
    if Val(p) == 0 {
      RemainderUnique(1, q, 0, 1);
    }
  }

  /** Beyond it fails: 4^2 mod 5 is 1, but in four bits 4 * 4 is 0. */
  lemma ModExpLosesBits()
    ensures !NoLoss(4, 4, 5)
    ensures ResAt(4, 4, [false, true], 5, 2) == 0 && Power(4, Val([false, true])) % 5 == 1
  {
    var p := [false, true];
    assert Pow2(4) == 16;
    LowIsRemainder(16, 4);
    assert MulMod(4, 4, 4, 5) == 0;
    LowIsRemainder(0, 4);
    assert BaseAt(4, 4, 5, 1) == MulMod(4, BaseAt(4, 4, 5, 0), BaseAt(4, 4, 5, 0), 5) == 0;
    assert ResAt(4, 4, p, 5, 1) == ResAt(4, 4, p, 5, 0) == 1;
    assert ResAt(4, 4, p, 5, 2) == MulMod(4, 1, 0, 5);
    assert Num(p, 2) == Num(p, 1) + Pow2(1) && Num(p, 1) == Num(p, 0) == 0;
    assert Power(4, 2) == 4 * Power(4, 1) && Power(4, 1) == 4 * Power(4, 0);
  }

  // ---- for which moduli it is right ----

  /** What mod_exp should return, with exponent 0 giving 1 even modulo 1. */
  function Expected(n: nat, b: nat, p: Bools, q: nat): nat {
    if Val(p) == 0 then 1 else Power(b, Val(p)) % Modulus(n, q)
  }

  /** A base whose square passes 2^n by less than 2^n. */
  function Overflowing(n: nat): (b: nat)
    requires n >= 2
    ensures b < Pow2(n) && Pow2(n) <= b * b < 2 * Pow2(n)
  {
    if n == 2 then
      assert Pow2(2) == 4;
      2
    else if n == 3 then
      assert Pow2(3) == 8;
      3
    else
      var c := Overflowing(n - 2);
      assert Pow2(n) == 4 * Pow2(n - 2);
      assert (2 * c) * (2 * c) == 4 * (c * c);
      2 * c
  }

  /** If taking m away does not change the remainder by q, then q divides m. */
  lemma SameRemainder(a: nat, m: nat, q: nat)
    requires q >= 1 && m <= a && a % q == (a - m) % q
    ensures m % q == 0
  {
    var k, l, r := a / q, (a - m) / q, a % q;
    assert a == q * k + r && a - m == q * l + r;
    Times(k, l, q);
    RemainderUnique(m, q, k - l, 0);
  }

  /** Squaring that base loses exactly 2^n. */
  lemma SquareLoses(n: nat, q: nat)
    requires n >= 2 && q >= 1
    ensures ResAt(n, Overflowing(n), [false, true], q, 2) == (Overflowing(n) * Overflowing(n) - Pow2(n)) % q
  {
    var b, p := Overflowing(n), [false, true];
    var a, v := b * b - Pow2(n), (b * b - Pow2(n)) % q;
    LowUnique(b * b, n, 1, a);
    assert BaseAt(n, b, q, 0) == b;
    assert BaseAt(n, b, q, 1) == v;
    assert ResAt(n, b, p, q, 1) == ResAt(n, b, p, q, 0) == 1;
    assert ResAt(n, b, p, q, 2) == MulMod(n, 1, v, q);
    RemainderBelow(a, q);
    LowOfSmall(v, n);
    RemainderUnique(v, q, 0, v);
  }

  lemma RemainderBelow(a: nat, q: nat)
    requires q >= 1
    ensures a % q <= a && a % q < q
  {
    assert a == q * (a / q) + a % q;
    assert q * (a / q) >= 0;
  }

  lemma SquareOf(b: nat)
    ensures Val([false, true]) == 2 && Power(b, 2) == b * b
  {
    var p := [false, true];
    assert Num(p, 2) == Num(p, 1) + Pow2(1) && Num(p, 1) == Num(p, 0) == 0;
    assert Power(b, 2) == b * Power(b, 1) && Power(b, 1) == b * Power(b, 0);
  }

  /** If the square of that base comes out right, q divides 2^n. */
  lemma SquareRight(n: nat, q: nat)
    requires n >= 1 && 1 <= q < Pow2(n)
    requires n >= 2 ==> ResAt(n, Overflowing(n), [false, true], q, 2) == Power(Overflowing(n), 2) % q
    ensures Pow2(n) % q == 0
  {
    if n == 1 {
      assert Pow2(1) == 2 && q == 1;
    } else {
      var b := Overflowing(n);
      SquareOf(b);
      SquareLoses(n, q);
      SameRemainder(b * b, Pow2(n), q);
    }
  }

  /** mod_exp is right for every base and every exponent of every width. */
  ghost predicate AlwaysExpected(n: nat, q: nat) {
    forall b: nat, p: Bools :: b < Pow2(n) ==> ResAt(n, b, p, q, |p|) == Expected(n, b, p, q)
  }

  /** base^p mod q to the letter. */
  ghost predicate AlwaysPower(n: nat, q: nat)
    requires q >= 1
  {
    forall b: nat, p: Bools :: b < Pow2(n) ==> ResAt(n, b, p, q, |p|) == Power(b, Val(p)) % q
  }

  /** mod_exp is right for every base and every exponent if and only if q is 0 or divides 2^n. */
  lemma ModExpExact(n: nat, q: nat)
    requires n >= 1 && q < Pow2(n)
    ensures AlwaysExpected(n, q) <==> q == 0 || Pow2(n) % q == 0
  {
    if q == 0 || Pow2(n) % q == 0 {
      forall b: nat, p: Bools | b < Pow2(n)
        ensures ResAt(n, b, p, q, |p|) == Expected(n, b, p, q)
      {
        ModExpIs(n, b, p, q);
      }
    } else if AlwaysExpected(n, q) {
      if n >= 2 {
        var b, p := Overflowing(n), [false, true];
        assert ResAt(n, b, p, q, |p|) == Expected(n, b, p, q);
        SquareOf(b);
      }
      SquareRight(n, q);
    }
  }

  lemma ExpectedIsPower(n: nat, b: nat, p: Bools, q: nat)
    requires q > 1
    ensures Expected(n, b, p, q) == Power(b, Val(p)) % q
  {
    if Val(p) == 0 {
      RemainderUnique(1, q, 0, 1);
    }
  }

  /** The promise base^p mod q for a nonzero modulus is kept for every base and every exponent if and
      only if q divides 2^n and is not 1. */
  lemma ModExpPromise(n: nat, q: nat)
    requires n >= 1 && 1 <= q < Pow2(n)
    ensures AlwaysPower(n, q) <==> q > 1 && Pow2(n) % q == 0
  {
    if q == 1 {
      ModuloOne(n);
    } else {
      ModExpExact(n, q);
      forall b: nat, p: Bools
        ensures Expected(n, b, p, q) == Power(b, Val(p)) % q
      {
        ExpectedIsPower(n, b, p, q);
      }
    }
  }

  /** Modulo 1 the empty exponent comes out as 1. */
  lemma ModuloOne(n: nat)
    ensures !AlwaysPower(n, 1)
  {
    var p: Bools := [];
    assert ResAt(n, 0, p, 1, |p|) != Power(0, Val(p)) % 1;
  }
}
