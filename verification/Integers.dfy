/** Integer values over the kernels: emp-tool/circuits/unsigned_int.h and
    emp-tool/circuits/signed_int.h. A value is the sequence of its wires; operators return fresh
    ones. */
module Integers {

  import opened Wrappers
  import opened Powers
  import opened Numeric
  import opened Kernels

  // ---- operators on values ----

  method Wires(s: Bools) returns (a: array<bool>)
    ensures fresh(a) && a[..] == s
  {
    a := new bool[|s|];
    for i := 0 to |s|
      invariant forall j :: 0 <= j < i ==> a[j] == s[j]
    {
      a[i] := s[i];
    }
  }

  method Sub(x: Bools, y: Bools) returns (r: Bools)
    requires |x| == |y| >= 1
    ensures |r| == |x| && Val(r) == Low(Val(x) - Val(y), |x|)
  {
    var n := |x|;
    var a := Wires(x);
    var b := Wires(y);
    var d := new bool[n];
    ghost var u, v := Piece(a, 0, n), Piece(b, 0, n);
    assert u == x && v == y;
    var _, _ := SubFull(d, 0, false, a, 0, b, 0, None, n);
    r := d[..];
    assert r == Piece(d, 0, n) == DiffBits(x, y, false);
    SubValue(x, y, false, n);
    LowOffByOne(Val(x) - Val(y), n, Val(r));
  }

  /** 0 - x. */
  method Negate(x: Bools) returns (r: Bools)
    requires |x| >= 1
    ensures |r| == |x| && Val(r) == Low(0 - Val(x), |x|)
  {
    var zeros := seq(|x|, _ => false);
    NumZeros(zeros, |x|);
    r := Sub(zeros, x);
  }

  /** sel ? t : f. */
  method Select(f: Bools, sel: bool, t: Bools) returns (r: Bools)
    requires |f| == |t|
    ensures r == if sel then t else f
  {
    r := [];
    for i := 0 to |f|
      invariant |r| == i
      invariant forall j :: 0 <= j < i ==> r[j] == if sel then t[j] else f[j]
    {
      r := r + [Mux(sel, t[i], f[i])];
    }
  }

  method Mul(x: Bools, y: Bools) returns (r: Bools)
    requires |x| == |y|
    ensures |r| == |x| && Val(r) == Low(Val(x) * Val(y), |x|)
  {
    var a := Wires(x);
    var b := Wires(y);
    var d := new bool[|x|];
    var _ := MulFull(d, a, b);
    r := d[..];
  }

  method DivMod(x: Bools, y: Bools) returns (q: Bools, r: Bools)
    requires |x| == |y| >= 1
    ensures |q| == |r| == |x| && Divided(Val(x), Val(y), Val(q), Val(r), |x|)
  {
    var a := Wires(x);
    var b := Wires(y);
    var quot, rem, _ := DivFull(a, b);
    q, r := quot[..], rem[..];
  }

  // ---- two's complement ----

  predicate Negative(x: Bools)
    requires |x| >= 1
  {
    x[|x| - 1]
  }

  function Signed(x: Bools): int
    requires |x| >= 1
  {
    Val(x) - Weight(Negative(x), |x|)
  }

  lemma SignedRange(x: Bools)
    requires |x| >= 1
    ensures 0 - Pow2(|x| - 1) <= Signed(x) < Pow2(|x| - 1)
    ensures Signed(x) < 0 <==> Negative(x)
  {
    assert Pow2(|x|) == 2 * Pow2(|x| - 1);
  }

  /** A signed value is exactly v iff its bits are those of v and v fits. */
  lemma SignedIs(x: Bools, v: int)
    requires |x| >= 1 && Val(x) == Low(v, |x|)
    ensures Signed(x) == v <==> 0 - Pow2(|x| - 1) <= v < Pow2(|x| - 1)
  {
    var n := |x|;
    SignedRange(x);
    assert Pow2(n) == 2 * Pow2(n - 1);
    if 0 - Pow2(n - 1) <= v < Pow2(n - 1) {
      var u := if v < 0 then v + Pow2(n) else v;
      LowOffByOne(v, n, u);
    }
  }

  function Abs(a: int): nat {
    if a < 0 then -a else a
  }

  /** C's division and remainder: truncation toward zero, the remainder with the dividend's sign. */
  function TruncDiv(a: int, b: int): int
    requires b != 0
  {
    if (a < 0) != (b < 0) then -(Abs(a) / Abs(b)) else Abs(a) / Abs(b)
  }

  function TruncMod(a: int, b: int): int
    requires b != 0
  {
    if a < 0 then -(Abs(a) % Abs(b)) else Abs(a) % Abs(b)
  }

  /** Signed comparison. */
  method SignedLess(x: Bools, y: Bools) returns (r: bool)
    requires |x| == |y| >= 1
    ensures r <==> Signed(x) < Signed(y)
  {
    var a := Wires(x);
    var b := Wires(y);
    var ub, _ := LessThan(a, b);
    var sa, sb := x[|x| - 1], y[|y| - 1];
    r := Mux(sa != sb, sa, ub);
    SignedRange(x);
    SignedRange(y);
  }

  /** select(sign, -x): the magnitude, as an unsigned number. */
  method Magnitude(x: Bools) returns (r: Bools)
    requires |x| >= 1
    ensures |r| == |x| && Val(r) == Abs(Signed(x))
  {
    var neg := Negate(x);
    r := Select(x, x[|x| - 1], neg);
    SignedRange(x);
    if Negative(x) {
      LowOffByOne(0 - Val(x), |x|, Pow2(|x|) - Val(x));
    }
  }

  /** select(s, -u): u with a sign, modulo 2^N. */
  method WithSign(u: Bools, s: bool) returns (r: Bools)
    requires |u| >= 1
    ensures |r| == |u| && Val(r) == Low(if s then 0 - Val(u) else Val(u), |u|)
  {
    var neg := Negate(u);
    r := Select(u, s, neg);
    LowOfSmall(Val(u), |u|);
  }

  /** The quotient of magnitudes with the sign put back: truncation toward zero, modulo 2^N; a zero
      divisor gives -1, or 1 for a negative dividend. */
  method SignedDiv(x: Bools, y: Bools) returns (r: Bools)
    requires |x| == |y| >= 1
    ensures |r| == |x|
    ensures Signed(y) != 0 ==> Val(r) == Low(TruncDiv(Signed(x), Signed(y)), |x|)
    ensures Signed(y) == 0 ==> Val(r) == Low(if Signed(x) < 0 then 1 else -1, |x|)
  {
    var sa, sb := x[|x| - 1], y[|y| - 1];
    var ua := Magnitude(x);
    var ub := Magnitude(y);
    var uq, _ := DivMod(ua, ub);
    r := WithSign(uq, sa != sb);
    SignedRange(x);
    SignedRange(y);
    if Signed(y) == 0 {
      Saturated(|x|, sa);
    }
  }

  lemma Saturated(n: nat, s: bool)
    requires n >= 1
    ensures Low(if s then 1 - Pow2(n) else Pow2(n) - 1, n) == Low(if s then 1 else -1, n)
  {
    if s {
      LowOffByOne(1 - Pow2(n), n, 1);
      LowOffByOne(1, n, 1);
    } else {
      LowOffByOne(Pow2(n) - 1, n, Pow2(n) - 1);
      LowOffByOne(-1, n, Pow2(n) - 1);
    }
  }

  /** The remainder of magnitudes with the dividend's sign: exact, and the dividend itself for a zero
      divisor. */
  method SignedMod(x: Bools, y: Bools) returns (r: Bools)
    requires |x| == |y| >= 1
    ensures |r| == |x|
    ensures Signed(r) == if Signed(y) == 0 then Signed(x) else TruncMod(Signed(x), Signed(y))
  {
    var sa := x[|x| - 1];
    var ua := Magnitude(x);
    var ub := Magnitude(y);
    var _, ur := DivMod(ua, ub);
    r := WithSign(ur, sa);
    ghost var v := if sa then 0 - Val(ur) else Val(ur);
    SignedRange(x);
    SignedRange(y);
    assert v == if Signed(y) == 0 then Signed(x) else TruncMod(Signed(x), Signed(y));
    assert 0 - Pow2(|x| - 1) <= v < Pow2(|x| - 1) by {
      if Signed(y) != 0 {
        RemainderFits(Signed(x), Signed(y), Pow2(|x| - 1));
      }
    }
    SignedIs(r, v);
  }

  lemma RemainderFits(a: int, b: int, h: nat)
    requires 0 - h <= b < h && b != 0
    ensures 0 - h <= TruncMod(a, b) < h
  {
  }

  /** The quotient is exact as a signed number unless the most negative number is divided by -1, and
      then it is not. */
  lemma SignedDivExact(x: Bools, y: Bools, r: Bools)
    requires |x| == |y| == |r| >= 1 && Signed(y) != 0
    requires Val(r) == Low(TruncDiv(Signed(x), Signed(y)), |x|)
    ensures Signed(r) == TruncDiv(Signed(x), Signed(y)) <==> !(Signed(x) == 0 - Pow2(|x| - 1) && Signed(y) == -1)
  {
    SignedRange(x);
    SignedRange(y);
    var a, b, h := Signed(x), Signed(y), Pow2(|x| - 1);
    SignedIs(r, TruncDiv(a, b));
    TruncFits(a, b, h);
  }

  lemma TruncFits(a: int, b: int, h: nat)
    requires 0 - h <= a < h && b != 0
    ensures 0 - h <= TruncDiv(a, b) < h <==> !(a == 0 - h && b == -1)
  {
    var x, y := Abs(a), Abs(b);
    var q := x / y;
    QuotientFits(x, y);
    FitsWithSign(a, b, h, x, y, q);
  }

  lemma FitsWithSign(a: int, b: int, h: nat, x: nat, y: nat, q: nat)
    requires 0 - h <= a < h && b != 0 && x == Abs(a) && y == Abs(b)
    requires q <= x && (y >= 2 && x >= 1 ==> q < x) && (y == 1 ==> q == x)
    ensures 0 - h <= (if (a < 0) != (b < 0) then 0 - q else q) < h <==> !(a == 0 - h && b == -1)
  {
  }

  lemma QuotientFits(a: nat, b: nat)
    requires b >= 1
    ensures a / b <= a && (b >= 2 && a >= 1 ==> a / b < a) && (b == 1 ==> a / b == a)
  {
    var q := a / b;
    assert a == b * q + a % b;
    if q >= 1 && b >= 2 {
      AtLeastOnce(b - 1, q);
      Times(b, 1, q);
    }
  }
}
