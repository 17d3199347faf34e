/** The arithmetic kernels (emp-tool/circuits/numeric_kernels.h) run in the clear: wires are bools,
    and `ands` counts the AND gates a kernel emits. Kernels take pieces of arrays, given by their
    first index, and may work in place. */
module Kernels {

  import opened Wrappers
  import opened Powers
  import opened Numeric

  /** n wires of a, from index p on. */
  ghost function Piece(a: array<bool>, p: nat, n: nat): (s: Bools)
    requires p + n <= a.Length
    reads a
    ensures |s| == n && forall i :: 0 <= i < n ==> s[i] == a[p + i]
  {
    a[p..p + n]
  }

  lemma TailIs(s: Bools, i: nat, m: nat)
    requires |s| == i + m
    ensures s[i..] == s[i..i + m]
  {
  }

  /** A piece may be overwritten by one at the same place, and by no other. */
  predicate MayAlias(dest: array<bool>, d: nat, a: array<bool>, p: nat) {
    dest == a ==> d == p
  }

  function OrGate(a: bool, b: bool): (r: bool)
    ensures r == (a || b)
  {
    (a != b) != (a && b)
  }

  function Mux(sel: bool, t: bool, f: bool): (r: bool)
    ensures r == if sel then t else f
  {
    f != (sel && (t != f))
  }

  /** s holds the bits of x from bit n on, with bit 0 at index p. */
  ghost predicate Holds(s: Bools, p: nat, x: Bools, n: nat) {
    p + |x| <= |s| && forall k :: p + n <= k < p + |x| ==> s[k] == x[k - p]
  }

  /** The full-adder loop over the n low bits; x and y are the operands' bits. */
  method AddChain(dest: array<bool>, d: nat, op1: array<bool>, p: nat, op2: array<bool>, q: nat, carryIn: bool, n: nat,
                  ghost x: Bools, ghost y: Bools)
    returns (carry: bool, ands: nat)
    requires n <= |x| == |y| && d + |x| <= dest.Length && p + |x| <= op1.Length && q + |x| <= op2.Length
    requires MayAlias(dest, d, op1, p) && MayAlias(dest, d, op2, q)
    requires Holds(op1[..], p, x, 0) && Holds(op2[..], q, y, 0)
    modifies dest
    ensures carry == CarryAt(x, y, carryIn, n) && ands == n
    ensures forall k :: d <= k < d + n ==> dest[k] == SumBit(x, y, carryIn, k - d)
    ensures Holds(op1[..], p, x, n) && Holds(op2[..], q, y, n)
    ensures forall j :: 0 <= j < dest.Length && !(d <= j < d + n) ==> dest[j] == old(dest[j])
  {
    carry, ands := carryIn, 0;
    for i := 0 to n
      invariant ands == i && carry == CarryAt(x, y, carryIn, i)
      invariant forall k :: d <= k < d + i ==> dest[k] == SumBit(x, y, carryIn, k - d)
      invariant Holds(op1[..], p, x, i) && Holds(op2[..], q, y, i)
      invariant forall j :: 0 <= j < dest.Length && !(d <= j < d + i) ==> dest[j] == old(dest[j])
    {
      assert op1[p + i] == x[i] && op2[q + i] == y[i];
      var axc := op1[p + i] != carry;
      var bxc := op2[q + i] != carry;
      dest[d + i] := op1[p + i] != bxc;
      var t := axc && bxc;
      ands := ands + 1;
      carry := carry != t;
    }
  }

  /** dest <- op1 + op2 + carryIn. With `keep` the carry comes out; otherwise it is dropped and the
      top bit costs no AND. */
  method AddFull(dest: array<bool>, d: nat, keep: bool, op1: array<bool>, p: nat, op2: array<bool>, q: nat,
                 carryIn: Option<bool>, size: nat)
    returns (carryOut: bool, ands: nat)
    requires d + size <= dest.Length && p + size <= op1.Length && q + size <= op2.Length
    requires MayAlias(dest, d, op1, p) && MayAlias(dest, d, op2, q)
    modifies dest
    ensures Piece(dest, d, size) == SumBits(old(Piece(op1, p, size)), old(Piece(op2, q, size)), carryIn == Some(true))
    ensures keep && (size > 0 || carryIn.Some?) ==>
      carryOut == CarryAt(old(Piece(op1, p, size)), old(Piece(op2, q, size)), carryIn == Some(true), size)
    ensures forall i :: 0 <= i < dest.Length && !(d <= i < d + size) ==> dest[i] == old(dest[i])
    ensures ands == if keep || size == 0 then size else size - 1
  {
    ands, carryOut := 0, *;
    if size == 0 {
      if carryIn.Some? && keep {
        carryOut := carryIn.value;
      }
      return;
    }
    ghost var x, y := Piece(op1, p, size), Piece(op2, q, size);
    var c := if carryIn.Some? then carryIn.value else false;
    if keep {
      carryOut, ands := AddChain(dest, d, op1, p, op2, q, c, size, x, y);
    } else {
      var carry;
      carry, ands := AddChain(dest, d, op1, p, op2, q, c, size - 1, x, y);
      var i := size - 1;
      assert op1[p + i] == x[i] && op2[q + i] == y[i];
      dest[d + i] := (carry != op2[q + i]) != op1[p + i];
    }
    ghost var z := Piece(dest, d, size);
    SumBitsExact(z, x, y, c);
  }

  /** The full-subtractor loop over the n low bits; x and y are the operands' bits. */
  method SubChain(dest: array<bool>, d: nat, op1: array<bool>, p: nat, op2: array<bool>, q: nat, borrowIn: bool, n: nat,
                  ghost x: Bools, ghost y: Bools)
    returns (borrow: bool, ands: nat)
    requires n <= |x| == |y| && d + |x| <= dest.Length && p + |x| <= op1.Length && q + |x| <= op2.Length
    requires MayAlias(dest, d, op1, p) && MayAlias(dest, d, op2, q)
    requires Holds(op1[..], p, x, 0) && Holds(op2[..], q, y, 0)
    modifies dest
    ensures borrow == BorrowAt(x, y, borrowIn, n) && ands == n
    ensures forall k :: d <= k < d + n ==> dest[k] == DiffBit(x, y, borrowIn, k - d)
    ensures Holds(op1[..], p, x, n) && Holds(op2[..], q, y, n)
    ensures forall j :: 0 <= j < dest.Length && !(d <= j < d + n) ==> dest[j] == old(dest[j])
  {
    borrow, ands := borrowIn, 0;
    for i := 0 to n
      invariant ands == i && borrow == BorrowAt(x, y, borrowIn, i)
      invariant forall k :: d <= k < d + i ==> dest[k] == DiffBit(x, y, borrowIn, k - d)
      invariant Holds(op1[..], p, x, i) && Holds(op2[..], q, y, i)
      invariant forall j :: 0 <= j < dest.Length && !(d <= j < d + i) ==> dest[j] == old(dest[j])
    {
      assert op1[p + i] == x[i] && op2[q + i] == y[i];
      var bxa := op1[p + i] != op2[q + i];
      var bxc := borrow != op2[q + i];
      dest[d + i] := bxa != borrow;
      var t := bxa && bxc;
      ands := ands + 1;
      borrow := borrow != t;
    }
  }

  /** dest <- op1 - op2 - borrowIn, likewise. */
  method SubFull(dest: array<bool>, d: nat, keep: bool, op1: array<bool>, p: nat, op2: array<bool>, q: nat,
                 borrowIn: Option<bool>, size: nat)
    returns (borrowOut: bool, ands: nat)
    requires d + size <= dest.Length && p + size <= op1.Length && q + size <= op2.Length
    requires MayAlias(dest, d, op1, p) && MayAlias(dest, d, op2, q)
    modifies dest
    ensures Piece(dest, d, size) == DiffBits(old(Piece(op1, p, size)), old(Piece(op2, q, size)), borrowIn == Some(true))
    ensures keep && (size > 0 || borrowIn.Some?) ==>
      borrowOut == BorrowAt(old(Piece(op1, p, size)), old(Piece(op2, q, size)), borrowIn == Some(true), size)
    ensures forall i :: 0 <= i < dest.Length && !(d <= i < d + size) ==> dest[i] == old(dest[i])
    ensures ands == if keep || size == 0 then size else size - 1
  {
    ands, borrowOut := 0, *;
    if size == 0 {
      if borrowIn.Some? && keep {
        borrowOut := borrowIn.value;
      }
      return;
    }
    ghost var x, y := Piece(op1, p, size), Piece(op2, q, size);
    var c := if borrowIn.Some? then borrowIn.value else false;
    if keep {
      borrowOut, ands := SubChain(dest, d, op1, p, op2, q, c, size, x, y);
    } else {
      var borrow;
      borrow, ands := SubChain(dest, d, op1, p, op2, q, c, size - 1, x, y);
      var i := size - 1;
      assert op1[p + i] == x[i] && op2[q + i] == y[i];
      dest[d + i] := (op1[p + i] != op2[q + i]) != borrow;
    }
    ghost var z := Piece(dest, d, size);
    DiffBitsExact(z, x, y, c);
  }

  /** dest <- cond ? tsrc : fsrc, bit by bit. */
  method IfThenElse(dest: array<bool>, d: nat, tsrc: array<bool>, p: nat, fsrc: array<bool>, q: nat, size: nat,
                    cond: bool) returns (ands: nat)
    requires d + size <= dest.Length && p + size <= tsrc.Length && q + size <= fsrc.Length
    requires MayAlias(dest, d, tsrc, p) && MayAlias(dest, d, fsrc, q)
    modifies dest
    ensures Piece(dest, d, size) == old(if cond then Piece(tsrc, p, size) else Piece(fsrc, q, size))
    ensures forall i :: 0 <= i < dest.Length && !(d <= i < d + size) ==> dest[i] == old(dest[i])
    ensures ands == size
  {
    ghost var x, y := Piece(tsrc, p, size), Piece(fsrc, q, size);
    var i := 0;
    ands := 0;
    while i < size
      invariant 0 <= i <= size && ands == i
      invariant forall k :: d <= k < d + i ==> dest[k] == if cond then x[k - d] else y[k - d]
      invariant Holds(tsrc[..], p, x, i) && Holds(fsrc[..], q, y, i)
      invariant forall j :: 0 <= j < dest.Length && !(d <= j < d + i) ==> dest[j] == old(dest[j])
    {
      var differ := tsrc[p + i] != fsrc[q + i];
      var a := cond && differ;
      ands := ands + 1;
      dest[d + i] := a != fsrc[q + i];
      i := i + 1;
    }
    ghost var z := Piece(dest, d, size);
    assert z == if cond then x else y;
  }

  /** s is x times the i low bits of y, up to k times 2^N. */
  ghost predicate Product(x: Bools, y: Bools, s: Bools, i: nat, k: int)
    requires i <= |y|
  {
    Val(s) + k * Pow2(|x|) == Val(x) * Num(y, i)
  }

  /** One row of the multiplier: adds op1, masked by bit i of op2, into sum at bit i. */
  method MulRow(sum: array<bool>, tmp: array<bool>, op1: array<bool>, op2: array<bool>, i: nat,
                ghost k: int) returns (ands: nat, ghost k': int)
    requires i < op1.Length == op2.Length == sum.Length == tmp.Length
    requires sum != tmp && sum != op1 && sum != op2 && tmp != op1 && tmp != op2
    requires Product(op1[..], op2[..], sum[..], i, k)
    modifies sum, tmp
    ensures Product(op1[..], op2[..], sum[..], i + 1, k')
    ensures ands == 2 * (op1.Length - i) - 1
  {
    var m := op1.Length - i;
    ghost var x, y, s := op1[..], op2[..], sum[..];
    var masks := MaskRow(tmp, op1, op2[i], m);
    ghost var t := Piece(tmp, 0, m);
    var _, adds := AddFull(sum, i, false, sum, i, tmp, 0, None, m);
    ghost var s' := sum[..];
    TailIs(s, i, m);
    TailIs(s', i, m);
    k' := MulStep(x, y, s, s', t, i, k);
    ands := masks + adds;
  }

  method MaskRow(tmp: array<bool>, op1: array<bool>, b: bool, m: nat) returns (ands: nat)
    requires m <= op1.Length == tmp.Length && tmp != op1
    modifies tmp
    ensures forall j :: 0 <= j < m ==> Piece(tmp, 0, m)[j] == (op1[..][j] && b)
    ensures ands == m
  {
    ands := 0;
    for k := 0 to m
      invariant ands == k
      invariant forall j :: 0 <= j < k ==> tmp[j] == (op1[j] && b)
    {
      tmp[k] := op1[k] && b;
      ands := ands + 1;
    }
  }

  /** ANDs of the first i rows of the multiplier. */
  function RowAnds(n: nat, i: nat): nat
    requires i <= n
  {
    if i == 0 then 0 else RowAnds(n, i - 1) + 2 * (n - (i - 1)) - 1
  }

  lemma {:induction false} RowAndsSquare(n: nat, i: nat)
    requires i <= n
    ensures RowAnds(n, i) == i * (2 * n - i)
  {
    if i > 0 {
      RowAndsSquare(n, i - 1);
      assert (i - 1) * (2 * n - (i - 1)) + 2 * (n - (i - 1)) - 1 == i * (2 * n - i);
    }
  }

  /** dest <- op1 op2 mod 2^N, at the price of exactly N^2 ANDs. */
  method MulFull(dest: array<bool>, op1: array<bool>, op2: array<bool>) returns (ands: nat)
    requires dest.Length == op1.Length == op2.Length
    modifies dest
    ensures Val(dest[..]) == Low(old(Val(op1[..])) * old(Val(op2[..])), dest.Length)
    ensures ands == dest.Length * dest.Length
  {
    var n := dest.Length;
    var sum, tmp := new bool[n] (_ => false), new bool[n];
    ghost var x, y := op1[..], op2[..];
    ghost var k := 0;
    NumZeros(sum[..], n);
    ands := 0;
    for i := 0 to n
      invariant op1[..] == x && op2[..] == y && fresh(sum) && fresh(tmp)
      invariant Product(x, y, sum[..], i, k)
      invariant ands == RowAnds(n, i)
    {
      var row;
      row, k := MulRow(sum, tmp, op1, op2, i, k);
      ands := ands + row;
    }
    RowAndsSquare(n, n);
    assert Product(x, y, sum[..], n, k);
    ProductIs(x, y, sum[..], k);
    CopyAll(dest, sum);
  }

  lemma ProductIs(x: Bools, y: Bools, s: Bools, k: int)
    requires |x| == |y| == |s| && Product(x, y, s, |y|, k)
    ensures Val(s) == Low(Val(x) * Val(y), |x|)
  {
    LowUnique(Val(x) * Val(y), |x|, k, Val(s));
  }

  method CopyAll(dest: array<bool>, src: array<bool>)
    requires dest.Length == src.Length
    modifies dest
    ensures dest[..] == old(src[..])
  {
    for i := 0 to dest.Length
      invariant forall j :: 0 <= j < i ==> dest[j] == old(src[j])
      invariant forall j :: i <= j < src.Length ==> src[j] == old(src[j])
    {
      dest[i] := src[i];
    }
  }

  /** overflow[i] tells whether the divisor needs more than N - i bits. */
  method OverflowBits(op2: array<bool>) returns (overflow: array<bool>, ands: nat)
    requires op2.Length >= 1
    ensures fresh(overflow) && overflow.Length == op2.Length
    ensures forall i :: 0 <= i < op2.Length ==> overflow[i] == Exceeds(op2[..], op2.Length - i)
    ensures ands == op2.Length - 1
  {
    var n := op2.Length;
    overflow := new bool[n];
    overflow[0] := false;
    ands := 0;
    for i := 1 to n
      invariant ands == i - 1
      invariant forall j :: 0 <= j < i ==> overflow[j] == Exceeds(op2[..], n - j)
    {
      ExceedsStep(op2[..], n - i);
      overflow[i] := OrGate(overflow[i - 1], op2[n - i]);
      ands := ands + 1;
    }
  }

  /** One restoring step: subtracts op2 2^i from rem unless that would go below zero. */
  method DivRow(rem: array<bool>, tmp: array<bool>, op2: array<bool>, i: nat, overflow: bool)
    returns (b: bool, ands: nat)
    requires i < rem.Length == tmp.Length == op2.Length && rem != tmp && rem != op2 && tmp != op2
    requires overflow == Exceeds(op2[..], op2.Length - i)
    modifies rem, tmp
    ensures b <==> old(Val(rem[..])) < Val(op2[..]) * Pow2(i)
    ensures Val(rem[..]) == if b then old(Val(rem[..])) else old(Val(rem[..])) - Val(op2[..]) * Pow2(i)
    ensures ands == 2 * (rem.Length - i) + 1
  {
    var m := rem.Length - i;
    ghost var r, y, z, yl := rem[..], op2[..], Piece(rem, i, m), Piece(op2, 0, m);
    TailIs(r, i, m);
    assert r[i..] == z && y[..m] == yl;
    var subs, muxes;
    b, subs := SubFull(tmp, 0, true, rem, i, op2, 0, None, m);
    b := OrGate(b, overflow);
    assert b == (BorrowAt(z, yl, false, m) || Exceeds(y, m));
    assert rem[..] == r;
    muxes := IfThenElse(rem, i, rem, i, tmp, 0, m, b);
    ghost var r', z' := rem[..], Piece(rem, i, m);
    assert z' == if b then z else DiffBits(z, yl, false);
    assert |r'| == i + m && r'[i..i + m] == z';
    TailIs(r', i, m);
    assert r'[..i] == r[..i];
    DivStep(r, r', y, i, b);
    ands := subs + 1 + muxes;
  }

  /** What restoring division has established when bits below i are still open. */
  ghost predicate Dividing(x: nat, y: nat, rem: nat, quot: Bools, i: nat)
    requires i <= |quot|
  {
    && x == y * Val(quot) + rem
    && (forall j :: 0 <= j < i ==> !quot[j])
    && (if y > 0 then rem < y * Pow2(i) else forall j :: i <= j < |quot| ==> quot[j])
  }

  lemma DividingStart(x: nat, y: nat, quot: Bools)
    requires x < Pow2(|quot|) && forall j :: 0 <= j < |quot| ==> !quot[j]
    ensures Dividing(x, y, x, quot, |quot|)
  {
    NumZeros(quot, |quot|);
    if y > 0 {
      AtLeastOnce(y, Pow2(|quot|));
    }
  }

  lemma DividingStep(x: nat, y: nat, rem: nat, rem': nat, quot: Bools, i: nat, b: bool)
    requires i < |quot| && Dividing(x, y, rem, quot, i + 1)
    requires b <==> rem < y * Pow2(i)
    requires rem' == if b then rem else rem - y * Pow2(i)
    ensures Dividing(x, y, rem', quot[i := !b], i)
  {
    NumSet(quot, i, !b, |quot|);
    Distribute(y, Val(quot), Weight(!b, i));
    Double(y, Pow2(i));
  }

  /** Quotient q and remainder r of x by y in n bits; a zero divisor saturates. */
  ghost predicate Divided(x: nat, y: nat, q: nat, r: nat, n: nat) {
    if y == 0 then q == Pow2(n) - 1 && r == x else q == x / y && r == x % y
  }

  lemma DividingEnd(x: nat, y: nat, rem: nat, quot: Bools)
    requires Dividing(x, y, rem, quot, 0)
    ensures Divided(x, y, Val(quot), rem, |quot|)
  {
    if y == 0 {
      NumOnes(quot, |quot|);
    } else {
      assert rem < y && x == Val(quot) * y + rem;
      RemainderUnique(x, y, Val(quot), rem);
    }
  }

  /** ANDs of d restoring steps, the widest last. */
  function StepAnds(d: nat): nat {
    if d == 0 then 0 else StepAnds(d - 1) + 2 * d + 1
  }

  lemma {:induction false} StepAndsSquare(d: nat)
    ensures StepAnds(d) == d * d + 2 * d
  {
    if d > 0 {
      StepAndsSquare(d - 1);
      assert (d - 1) * (d - 1) + 2 * (d - 1) + 2 * d + 1 == d * d + 2 * d;
    }
  }

  /** The restoring steps, from the highest bit down. */
  method DivRows(rem: array<bool>, quot: array<bool>, tmp: array<bool>, op2: array<bool>, overflow: array<bool>,
                 ghost x: nat) returns (ands: nat)
    requires rem.Length == quot.Length == tmp.Length == op2.Length == overflow.Length
    requires rem != quot && rem != tmp && quot != tmp && op2 != rem && op2 != quot && op2 != tmp
    requires overflow != rem && overflow != quot && overflow != tmp
    requires Dividing(x, Val(op2[..]), Val(rem[..]), quot[..], quot.Length)
    requires forall j :: 0 <= j < op2.Length ==> overflow[j] == Exceeds(op2[..], op2.Length - j)
    modifies rem, quot, tmp
    ensures Dividing(x, Val(op2[..]), Val(rem[..]), quot[..], 0) && ands == StepAnds(op2.Length)
  {
    ands := 0;
    for i := quot.Length downto 0
      invariant Dividing(x, Val(op2[..]), Val(rem[..]), quot[..], i)
      invariant forall j :: 0 <= j < op2.Length ==> overflow[j] == Exceeds(op2[..], op2.Length - j)
      invariant ands == StepAnds(op2.Length - i)
    {
      ghost var r, q := Val(rem[..]), quot[..];
      var b, row := DivRow(rem, tmp, op2, i, overflow[i]);
      quot[i] := !b;
      assert quot[..] == q[i := !b];
      DividingStep(x, Val(op2[..]), r, Val(rem[..]), q, i, b);
      ands := ands + row;
    }
  }

  /** Restoring division: quotient and remainder, or (2^N - 1, dividend) for a zero divisor. */
  method DivFull(op1: array<bool>, op2: array<bool>) returns (quot: array<bool>, rem: array<bool>, ands: nat)
    requires op1.Length == op2.Length >= 1
    ensures fresh(quot) && fresh(rem) && quot.Length == rem.Length == op1.Length
    ensures Divided(Val(op1[..]), Val(op2[..]), Val(quot[..]), Val(rem[..]), op1.Length)
    ensures ands == op1.Length * op1.Length + 3 * op1.Length - 1
  {
    var n := op1.Length;
    ghost var x, y := Val(op1[..]), Val(op2[..]);
    var tmp := new bool[n];
    rem, quot := new bool[n], new bool[n] (_ => false);
    CopyAll(rem, op1);
    DividingStart(x, y, quot[..]);
    var overflow;
    overflow, ands := OverflowBits(op2);
    var steps := DivRows(rem, quot, tmp, op2, overflow, x);
    ands := ands + steps;
    StepAndsSquare(n);
    DividingEnd(x, y, Val(rem[..]), quot[..]);
  }

  /** a < b as unsigned numbers: the borrow of a - b. */
  method LessThan(a: array<bool>, b: array<bool>) returns (r: bool, ands: nat)
    requires a.Length == b.Length >= 1
    ensures r <==> Val(a[..]) < Val(b[..])
    ensures ands == a.Length
  {
    var n := a.Length;
    var diff := new bool[n];
    ghost var x, y := Piece(a, 0, n), Piece(b, 0, n);
    assert x == a[..] && y == b[..];
    r, ands := SubFull(diff, 0, true, a, 0, b, 0, None, n);
    SubValue(x, y, false, n);
  }
}
