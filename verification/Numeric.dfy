/** Binary numbers, least significant bit first, and the carry chains of
    emp-tool/circuits/numeric_kernels.h as functions on bit strings. */
module Numeric {

  import opened Powers

  type Bools = seq<bool>

  /** The weight of bit b at position n. */
  function Weight(b: bool, n: nat): nat {
    if b then Pow2(n) else 0
  }

  /** The number in the n low bits of s. */
  function Num(s: Bools, n: nat): (r: nat)
    requires n <= |s|
    ensures r < Pow2(n)
  {
    if n == 0 then 0 else Num(s, n - 1) + Weight(s[n - 1], n - 1)
  }

  function Val(s: Bools): (r: nat)
    ensures r < Pow2(|s|)
  {
    Num(s, |s|)
  }

  lemma {:induction false} NumAgree(s: Bools, t: Bools, n: nat)
    requires n <= |s| && n <= |t| && forall i :: 0 <= i < n ==> s[i] == t[i]
    ensures Num(s, n) == Num(t, n)
  {
    if n > 0 {
      NumAgree(s, t, n - 1);
    }
  }

  /** A number is its low i bits plus 2^i times the rest. */
  lemma {:induction false} NumSplit(s: Bools, i: nat, n: nat)
    requires i <= n <= |s|
    ensures Num(s, n) == Num(s, i) + Pow2(i) * Num(s[i..], n - i)
  {
    if i < n {
      NumSplit(s, i, n - 1);
      Pow2Sum(i, n - 1 - i);
      var hi, w := s[i..], Weight(s[n - 1], n - 1 - i);
      assert Num(hi, n - i) == Num(hi, n - 1 - i) + w;
      Distribute(Pow2(i), Num(hi, n - 1 - i), w);
      assert Pow2(i) * w == Weight(s[n - 1], n - 1);
    } else {
      assert Num(s[i..], 0) == 0;
    }
  }

  lemma Distribute(a: int, b: int, c: int)
    ensures a * (b + c) == a * b + a * c
  {
  }

  // ---- addition ----

  /** The carry into position i of x + y + c: the one-AND form of the majority. */
  function CarryAt(x: Bools, y: Bools, c: bool, i: nat): bool
    requires i <= |x| && i <= |y|
  {
    if i == 0 then c
    else
      var carry := CarryAt(x, y, c, i - 1);
      carry != ((x[i - 1] != carry) && (y[i - 1] != carry))
  }

  function SumBit(x: Bools, y: Bools, c: bool, i: nat): bool
    requires i < |x| && i < |y|
  {
    x[i] != (y[i] != CarryAt(x, y, c, i))
  }

  function SumBits(x: Bools, y: Bools, c: bool): Bools
    requires |x| == |y|
  {
    seq(|x|, i requires 0 <= i < |x| => SumBit(x, y, c, i))
  }

  lemma SumBitsExact(z: Bools, x: Bools, y: Bools, c: bool)
    requires |z| == |x| == |y| && forall i :: 0 <= i < |z| ==> z[i] == SumBit(x, y, c, i)
    ensures z == SumBits(x, y, c)
  {
  }

  lemma {:induction false} AddValue(x: Bools, y: Bools, c: bool, n: nat)
    requires n <= |x| == |y|
    ensures Num(SumBits(x, y, c), n) + Weight(CarryAt(x, y, c, n), n) == Num(x, n) + Num(y, n) + Weight(c, 0)
  {
    if n > 0 {
      AddValue(x, y, c, n - 1);
      assert Pow2(n) == 2 * Pow2(n - 1);
    }
  }

  // ---- subtraction ----

  function BorrowAt(x: Bools, y: Bools, c: bool, i: nat): bool
    requires i <= |x| && i <= |y|
  {
    if i == 0 then c
    else
      var borrow := BorrowAt(x, y, c, i - 1);
      borrow != ((x[i - 1] != y[i - 1]) && (borrow != y[i - 1]))
  }

  function DiffBit(x: Bools, y: Bools, c: bool, i: nat): bool
    requires i < |x| && i < |y|
  {
    (x[i] != y[i]) != BorrowAt(x, y, c, i)
  }

  function DiffBits(x: Bools, y: Bools, c: bool): Bools
    requires |x| == |y|
  {
    seq(|x|, i requires 0 <= i < |x| => DiffBit(x, y, c, i))
  }

  lemma DiffBitsExact(z: Bools, x: Bools, y: Bools, c: bool)
    requires |z| == |x| == |y| && forall i :: 0 <= i < |z| ==> z[i] == DiffBit(x, y, c, i)
    ensures z == DiffBits(x, y, c)
  {
  }

  lemma {:induction false} SubValue(x: Bools, y: Bools, c: bool, n: nat)
    requires n <= |x| == |y|
    ensures Num(DiffBits(x, y, c), n) == Num(x, n) - Num(y, n) - Weight(c, 0) + Weight(BorrowAt(x, y, c, n), n)
  {
    if n > 0 {
      SubValue(x, y, c, n - 1);
      assert Pow2(n) == 2 * Pow2(n - 1);
    }
  }

  // ---- multiplication ----

  lemma {:induction false} MaskedNum(x: Bools, b: bool, t: Bools, n: nat)
    requires n <= |x| && n <= |t| && forall j :: 0 <= j < n ==> t[j] == (x[j] && b)
    ensures Num(t, n) == if b then Num(x, n) else 0
  {
    if n > 0 {
      MaskedNum(x, b, t, n - 1);
    }
  }

  /** Replacing the bits from i on replaces the high part of the number. */
  lemma NumReplace(s: Bools, s': Bools, i: nat)
    requires i <= |s| == |s'| && s'[..i] == s[..i]
    ensures Num(s, |s|) == Num(s, i) + Pow2(i) * Num(s[i..], |s| - i)
    ensures Num(s', |s|) == Num(s, i) + Pow2(i) * Num(s'[i..], |s| - i)
  {
    NumSplit(s, i, |s|);
    NumSplit(s', i, |s|);
    forall j | 0 <= j < i
      ensures s[j] == s'[j]
    {
      assert s[j] == s[..i][j] && s'[j] == s'[..i][j];
    }
    NumAgree(s, s', i);
  }

  /** Shift-add step in integers: a low part, an addition at weight p with the carry c dropped,
      and the bits of x that fall off the top. */
  lemma ShiftAdd(a: int, sum: int, sum': int, t: int, c: int, p: int, q: int, x: int, xl: int, h: int, y: int, k: int,
                 b: int)
    requires sum' + c * q == sum + t && t == b * xl && x == xl + q * h
    requires a + p * sum + k * (p * q) == x * y
    ensures a + p * sum' + (k + c + b * h) * (p * q) == x * (y + b * p)
  {
    assert p * sum' + c * (p * q) == p * sum + p * t by {
      assert p * (sum' + c * q) == p * (sum + t);
    }
    assert x * (y + b * p) == x * y + b * p * x;
    assert b * p * x == p * t + b * h * (p * q) by {
      assert b * p * (xl + q * h) == p * (b * xl) + b * h * (p * q);
    }
    assert (k + c + b * h) * (p * q) == k * (p * q) + c * (p * q) + b * h * (p * q);
  }

  /** One row of the multiplier: if s is x times the i low bits of y, modulo 2^N, then so is s'
      with one bit more. */
  lemma MulStep(x: Bools, y: Bools, s: Bools, s': Bools, t: Bools, i: nat, k: int) returns (k': int)
    requires |x| == |y| == |s| == |s'| && i < |x|
    requires |t| == |x| - i && forall j :: 0 <= j < |t| ==> t[j] == (x[j] && y[i])
    requires s'[..i] == s[..i] && s'[i..] == SumBits(s[i..], t, false)
    requires Val(s) + k * Pow2(|x|) == Val(x) * Num(y, i)
    ensures Val(s') + k' * Pow2(|x|) == Val(x) * Num(y, i + 1)
  {
    var n, m := |x|, |x| - i;
    NumReplace(s, s', i);
    AddValue(s[i..], t, false, m);
    MaskedNum(x, y[i], t, m);
    NumSplit(x, m, n);
    Pow2Sum(i, m);
    var c := if CarryAt(s[i..], t, false, m) then 1 else 0;
    var b := if y[i] then 1 else 0;
    var h := Num(x[m..], i);
    k' := k + c + b * h;
    ShiftAdd(Num(s, i), Num(s[i..], m), Num(s'[i..], m), Num(t, m), c, Pow2(i), Pow2(m), Val(x), Num(x, m), h,
             Num(y, i), k, b);
  }

  // ---- division ----

  lemma {:induction false} NumMonotone(s: Bools, m: nat, n: nat)
    requires m <= n <= |s|
    ensures Num(s, m) <= Num(s, n)
  {
    if m < n {
      NumMonotone(s, m, n - 1);
    }
  }

  /** Some bit from m on is set. */
  predicate Exceeds(s: Bools, m: nat)
    requires m <= |s|
  {
    Val(s) != Num(s, m)
  }

  lemma ExceedsStep(s: Bools, m: nat)
    requires m < |s|
    ensures Exceeds(s, m) == (Exceeds(s, m + 1) || s[m])
  {
    NumMonotone(s, m + 1, |s|);
  }

  lemma {:induction false} HighBitsCount(s: Bools, m: nat, n: nat)
    requires m <= n <= |s| && Num(s, n) != Num(s, m)
    ensures Num(s, n) >= Pow2(m)
  {
    if s[n - 1] {
      Pow2Monotone(m, n - 1);
    } else {
      HighBitsCount(s, m, n - 1);
    }
  }

  lemma ExceedsBound(s: Bools, m: nat)
    requires m <= |s|
    ensures Exceeds(s, m) <==> Val(s) >= Pow2(m)
  {
    if Exceeds(s, m) {
      HighBitsCount(s, m, |s|);
    }
  }

  /** Setting a clear bit adds its weight. */
  lemma {:induction false} NumSet(s: Bools, i: nat, b: bool, n: nat)
    requires i < |s| && n <= |s| && !s[i]
    ensures Num(s[i := b], n) == Num(s, n) + if i < n then Weight(b, i) else 0
  {
    if n > 0 {
      NumSet(s, i, b, n - 1);
    }
  }

  lemma {:induction false} NumOnes(s: Bools, n: nat)
    requires n <= |s| && forall j :: 0 <= j < n ==> s[j]
    ensures Num(s, n) == Pow2(n) - 1
  {
    if n > 0 {
      NumOnes(s, n - 1);
    }
  }

  lemma {:induction false} NumZeros(s: Bools, n: nat)
    requires n <= |s| && forall j :: 0 <= j < n ==> !s[j]
    ensures Num(s, n) == 0
  {
    if n > 0 {
      NumZeros(s, n - 1);
    }
  }

  /** Trial subtraction at weight 2^i: the borrow, or an overflowing divisor, says whether
      y 2^i exceeds r. */
  lemma TrialBorrow(r: Bools, y: Bools, i: nat)
    requires |r| == |y| && i < |r|
    ensures
      var m := |r| - i;
      (BorrowAt(r[i..], y[..m], false, m) || Exceeds(y, m)) <==> Num(r[i..], m) < Val(y)
  {
    var m := |r| - i;
    SubValue(r[i..], y[..m], false, m);
    NumAgree(y, y[..m], m);
    ExceedsBound(y, m);
  }

  /** One step of restoring division, with b the restore decision: what remains is r itself, below
      y 2^i, or r minus y 2^i. */
  lemma DivStep(r: Bools, r': Bools, y: Bools, i: nat, b: bool)
    requires |r| == |r'| == |y| && i < |r|
    requires b == (BorrowAt(r[i..], y[..|r| - i], false, |r| - i) || Exceeds(y, |r| - i))
    requires r'[..i] == r[..i] && r'[i..] == if b then r[i..] else DiffBits(r[i..], y[..|r| - i], false)
    ensures b <==> Val(r) < Val(y) * Pow2(i)
    ensures Val(r') == if b then Val(r) else Val(r) - Val(y) * Pow2(i)
  {
    var m := |r| - i;
    TrialBorrow(r, y, i);
    NumReplace(r, r', i);
    var hi, hi' := Num(r[i..], m), Num(r'[i..], m);
    if !b {
      TrialDifference(r[i..], y);
      assert hi' == hi - Val(y);
    }
    Compare(Num(r, i), hi, hi', Val(y), Pow2(i));
  }

  lemma TrialDifference(z: Bools, y: Bools)
    requires |z| <= |y| && !Exceeds(y, |z|) && !BorrowAt(z, y[..|z|], false, |z|)
    ensures Num(DiffBits(z, y[..|z|], false), |z|) == Num(z, |z|) - Val(y)
  {
    SubValue(z, y[..|z|], false, |z|);
    NumAgree(y, y[..|z|], |z|);
  }

  lemma Compare(lo: nat, hi: nat, hi': nat, y: nat, p: nat)
    requires lo < p
    ensures hi < y <==> lo + p * hi < y * p
    ensures hi' == hi - y ==> lo + p * hi' == lo + p * hi - y * p
  {
    Times(y, hi, p);
    Times(hi, y, p);
    if hi < y {
      AtLeastOnce(y - hi, p);
    } else {
      assert (hi - y) * p >= 0;
    }
  }
}
