/** Vector operations over GF(2^128) (emp-tool/runtime/crypto/f2k.hpp): inner products with one
    deferred reduction, the powers of a seed, and packing. */
module F2kVectors {

  import opened Bits
  import opened Poly
  import opened F2k

  predicate Blocks(a: seq<Bits>) {
    forall i :: 0 <= i < |a| ==> Below(a[i], 128)
  }

  // ---- inner products ----

  /** The sum of the first n products, as polynomials and in the field. */
  ghost function ProductsTo(a: seq<Bits>, b: seq<Bits>, n: nat): Bits
    requires n <= |a| == |b|
  {
    if n == 0 then {} else Sum(ProductsTo(a, b, n - 1), MulTo(a[n - 1], b[n - 1], 128))
  }

  function InnerProduct(a: seq<Bits>, b: seq<Bits>, n: nat): Bits
    requires n <= |a| == |b|
  {
    if n == 0 then {} else Sum(InnerProduct(a, b, n - 1), GfMul(a[n - 1], b[n - 1]))
  }

  lemma {:induction false} InnerProductIs(a: seq<Bits>, b: seq<Bits>, n: nat)
    requires n <= |a| == |b| && Blocks(a) && Blocks(b)
    ensures Below(InnerProduct(a, b, n), 128) && Congruent(InnerProduct(a, b, n), ProductsTo(a, b, n))
  {
    if n == 0 {
      CongruentSame({});
    } else {
      InnerProductIs(a, b, n - 1);
      GfMulCorrect(a[n - 1], b[n - 1]);
      CongruentSum(InnerProduct(a, b, n - 1), ProductsTo(a, b, n - 1), GfMul(a[n - 1], b[n - 1]),
                   MulTo(a[n - 1], b[n - 1], 128));
      BelowSum(InnerProduct(a, b, n - 1), GfMul(a[n - 1], b[n - 1]), 128);
    }
  }

  /** fold_to_xmm: the exclusive or of all lanes. */
  function FoldLanes(v: seq<Bits>, n: nat): Bits
    requires n <= |v|
  {
    if n == 0 then {} else Sum(FoldLanes(v, n - 1), v[n - 1])
  }

  lemma {:induction false} FoldUpdate(v: seq<Bits>, n: nat, l: nat, x: Bits)
    requires n <= |v| && l < |v|
    ensures FoldLanes(v[l := Sum(v[l], x)], n) == if l < n then Sum(FoldLanes(v, n), x) else FoldLanes(v, n)
  {
    if n > 0 {
      FoldUpdate(v, n - 1, l, x);
      Move(FoldLanes(v, n - 1), v[n - 1], x);
    }
  }

  lemma Move(a: Bits, b: Bits, x: Bits)
    ensures Sum(a, Sum(b, x)) == Sum(Sum(a, b), x) == Sum(Sum(a, x), b)
  {
  }

  lemma {:induction false} FoldBelow(v: seq<Bits>, n: nat)
    requires n <= |v| && Blocks(v)
    ensures Below(FoldLanes(v, n), 128)
  {
    if n > 0 {
      FoldBelow(v, n - 1);
      BelowSum(FoldLanes(v, n - 1), v[n - 1], 128);
    }
  }

  lemma {:induction false} FoldZero(v: seq<Bits>, n: nat)
    requires n <= |v| && forall l :: 0 <= l < |v| ==> v[l] == {}
    ensures FoldLanes(v, n) == {}
  {
    if n > 0 {
      FoldZero(v, n - 1);
      SumZero({});
    }
  }

  /** Folding the register shifts of the middle products commutes with folding lanes. */
  lemma {:induction false} FoldMiddle(v: seq<Bits>, mid: seq<Bits>, up: seq<Bits>, down: seq<Bits>, hi: seq<Bits>,
                                      n: nat)
    requires n <= |v| == |mid| == |up| == |down| == |hi|
    requires forall l :: 0 <= l < n ==> up[l] == Sum(v[l], Bslli8(mid[l])) && down[l] == Sum(hi[l], Bsrli8(mid[l]))
    ensures FoldLanes(up, n) == Sum(FoldLanes(v, n), Bslli8(FoldLanes(mid, n)))
    ensures FoldLanes(down, n) == Sum(FoldLanes(hi, n), Bsrli8(FoldLanes(mid, n)))
  {
    if n == 0 {
      ShiftsZero();
    } else {
      FoldMiddle(v, mid, up, down, hi, n - 1);
      var m := FoldLanes(mid, n - 1);
      ShiftsSum(m, mid[n - 1]);
      SumSwap(FoldLanes(v, n - 1), Bslli8(m), v[n - 1], Bslli8(mid[n - 1]));
      SumSwap(FoldLanes(hi, n - 1), Bsrli8(m), hi[n - 1], Bsrli8(mid[n - 1]));
    }
  }

  lemma ShiftsZero()
    ensures Sum({}, Bslli8({})) == {} && Sum({}, Bsrli8({})) == {}
  {
  }

  lemma ShiftsSum(a: Bits, b: Bits)
    ensures Bslli8(Sum(a, b)) == Sum(Bslli8(a), Bslli8(b)) && Bsrli8(Sum(a, b)) == Sum(Bsrli8(a), Bsrli8(b))
  {
  }

  /** Lane accumulators of one drain: low, middle and high partial products. */
  datatype Lanes = Lanes(lo: seq<Bits>, mid: seq<Bits>, hi: seq<Bits>) {
    predicate Ok(w: nat) {
      |lo| == |mid| == |hi| == w && Blocks(lo) && Blocks(mid) && Blocks(hi)
    }

    ghost function Value(w: nat): Bits
      requires Ok(w)
    {
      Sum(Sum(FoldLanes(lo, w), Shift(FoldLanes(mid, w), 64)), Shift(FoldLanes(hi, w), 128))
    }
  }

  /** Accumulates a b in lane l. */
  function AddProduct(v: Lanes, l: nat, a: Bits, b: Bits): Lanes
    requires l < |v.lo| == |v.mid| == |v.hi|
  {
    Lanes(v.lo[l := Sum(v.lo[l], Clmul(LoHalf(a), LoHalf(b)))],
          v.mid[l := Sum(v.mid[l], Middle(a, b))],
          v.hi[l := Sum(v.hi[l], Clmul(HiHalf(a), HiHalf(b)))])
  }

  lemma PartsBelow(a: Bits, b: Bits)
    requires Below(a, 128)
    ensures Below(Clmul(LoHalf(a), LoHalf(b)), 128) && Below(Middle(a, b), 128) &&
            Below(Clmul(HiHalf(a), HiHalf(b)), 128)
  {
    Halves(a);
    ClmulBelow(LoHalf(a), LoHalf(b));
    ClmulBelow(HiHalf(a), LoHalf(b));
    ClmulBelow(LoHalf(a), HiHalf(b));
    ClmulBelow(HiHalf(a), HiHalf(b));
    BelowSum(Clmul(HiHalf(a), LoHalf(b)), Clmul(LoHalf(a), HiHalf(b)), 128);
  }

  lemma AddProductOk(v: Lanes, w: nat, l: nat, a: Bits, b: Bits)
    requires v.Ok(w) && l < w && Below(a, 128) && Below(b, 128)
    ensures AddProduct(v, l, a, b).Ok(w)
  {
    PartsBelow(a, b);
    BelowSum(v.lo[l], Clmul(LoHalf(a), LoHalf(b)), 128);
    BelowSum(v.mid[l], Middle(a, b), 128);
    BelowSum(v.hi[l], Clmul(HiHalf(a), HiHalf(b)), 128);
  }

  lemma AddProductValue(v: Lanes, w: nat, l: nat, a: Bits, b: Bits)
    requires v.Ok(w) && l < w && Below(a, 128) && Below(b, 128)
    ensures AddProduct(v, l, a, b).Ok(w)
    ensures AddProduct(v, l, a, b).Value(w) == Sum(v.Value(w), MulTo(a, b, 128))
  {
    var p, m, q := Clmul(LoHalf(a), LoHalf(b)), Middle(a, b), Clmul(HiHalf(a), HiHalf(b));
    AddProductOk(v, w, l, a, b);
    PartsBelow(a, b);
    FoldUpdate(v.lo, w, l, p);
    FoldUpdate(v.mid, w, l, m);
    FoldUpdate(v.hi, w, l, q);
    ShiftSum(FoldLanes(v.mid, w), m, 64);
    ShiftSum(FoldLanes(v.hi, w), q, 128);
    var lo, mid, hi := FoldLanes(v.lo, w), Shift(FoldLanes(v.mid, w), 64), Shift(FoldLanes(v.hi, w), 128);
    SumSwap(lo, p, mid, Shift(m, 64));
    SumSwap(Sum(lo, mid), Sum(p, Shift(m, 64)), hi, Shift(q, 128));
    FoldValue(p, m, q);
    Mul128Correct(a, b);
  }

  /** The end of a drain: the middle products are folded into the halves, the lanes into one. */
  method FoldDown(v: Lanes, w: nat, acc: Wide) returns (r: Wide)
    requires v.Ok(w) && acc.Ok()
    ensures r.Ok() && r.Value() == Sum(acc.Value(), v.Value(w))
  {
    var up := seq(w, l requires 0 <= l < w => Sum(v.lo[l], Bslli8(v.mid[l])));
    var down := seq(w, l requires 0 <= l < w => Sum(v.hi[l], Bsrli8(v.mid[l])));
    r := Wide(Sum(acc.lo, FoldLanes(up, w)), Sum(acc.hi, FoldLanes(down, w)));
    FoldMiddle(v.lo, v.mid, up, down, v.hi, w);
    FoldBelow(v.lo, w);
    FoldBelow(v.mid, w);
    FoldBelow(v.hi, w);
    var f := Fold(FoldLanes(v.lo, w), FoldLanes(v.mid, w), FoldLanes(v.hi, w));
    assert r == Wide(Sum(acc.lo, f.lo), Sum(acc.hi, f.hi));
    FoldValue(FoldLanes(v.lo, w), FoldLanes(v.mid, w), FoldLanes(v.hi, w));
    WideSum(acc, f);
  }

  lemma WideSum(x: Wide, y: Wide)
    requires x.Ok() && y.Ok()
    ensures var r := Wide(Sum(x.lo, y.lo), Sum(x.hi, y.hi)); r.Ok() && r.Value() == Sum(x.Value(), y.Value())
  {
    BelowSum(x.lo, y.lo, 128);
    BelowSum(x.hi, y.hi, 128);
    ShiftSum(x.hi, y.hi, 128);
    SumSwap(x.lo, y.lo, Shift(x.hi, 128), Shift(y.hi, 128));
  }

  lemma DrainStep(acc: Bits, v: Lanes, w: nat, l: nat, a: seq<Bits>, b: seq<Bits>, i: nat)
    requires v.Ok(w) && l < w && i < |a| == |b| && Blocks(a) && Blocks(b)
    requires Sum(acc, v.Value(w)) == ProductsTo(a, b, i)
    ensures AddProduct(v, l, a[i], b[i]).Ok(w)
    ensures Sum(acc, AddProduct(v, l, a[i], b[i]).Value(w)) == ProductsTo(a, b, i + 1)
  {
    AddProductValue(v, w, l, a[i], b[i]);
    Move(acc, v.Value(w), MulTo(a[i], b[i], 128));
  }

  /** Drains w-block chunks from index i on: what is left is less than a chunk. */
  method DrainLanes(w: nat, acc: Wide, a: seq<Bits>, b: seq<Bits>, i: nat) returns (r: Wide, end: nat)
    requires w >= 1 && i <= |a| == |b| && Blocks(a) && Blocks(b)
    requires acc.Ok() && acc.Value() == ProductsTo(a, b, i)
    ensures i <= end <= |a| < end + w
    ensures r.Ok() && r.Value() == ProductsTo(a, b, end)
  {
    var zero: seq<Bits> := seq(w, _ => {});
    var v := Lanes(zero, zero, zero);
    ZeroLanes(acc, zero, w);
    end := i;
    while end + w <= |a|
      invariant i <= end <= |a| && v.Ok(w)
      invariant Sum(acc.Value(), v.Value(w)) == ProductsTo(a, b, end)
    {
      v := DrainChunk(w, acc.Value(), v, a, b, end);
      end := end + w;
    }
    r := FoldDown(v, w, acc);
  }

  lemma ZeroLanes(acc: Wide, zero: seq<Bits>, w: nat)
    requires |zero| == w && forall l :: 0 <= l < w ==> zero[l] == {}
    ensures Lanes(zero, zero, zero).Ok(w) && Sum(acc.Value(), Lanes(zero, zero, zero).Value(w)) == acc.Value()
  {
    FoldZero(zero, w);
    ShiftZero(64);
    ShiftZero(128);
    SumZero({});
    SumZero(acc.Value());
  }

  /** One chunk: lane l takes the product at i + l. */
  method DrainChunk(w: nat, ghost acc: Bits, v: Lanes, a: seq<Bits>, b: seq<Bits>, i: nat) returns (r: Lanes)
    requires v.Ok(w) && i + w <= |a| == |b| && Blocks(a) && Blocks(b)
    requires Sum(acc, v.Value(w)) == ProductsTo(a, b, i)
    ensures r.Ok(w) && Sum(acc, r.Value(w)) == ProductsTo(a, b, i + w)
  {
    r := v;
    for l := 0 to w
      invariant r.Ok(w) && Sum(acc, r.Value(w)) == ProductsTo(a, b, i + l)
    {
      DrainStep(acc, r, w, l, a, b, i + l);
      r := AddProduct(r, l, a[i + l], b[i + l]);
    }
  }

  /** The unreduced inner product, whatever lane widths the machine has. */
  method InnProdNoRed(a: seq<Bits>, b: seq<Bits>, wide4: bool, wide2: bool) returns (r: Wide)
    requires |a| == |b| && Blocks(a) && Blocks(b)
    ensures r.Ok() && r.Value() == ProductsTo(a, b, |a|)
  {
    r := Wide({}, {});
    ShiftZero(128);
    SumZero({});
    var i := 0;
    if wide4 {
      r, i := DrainLanes(4, r, a, b, i);
    }
    if wide2 {
      r, i := DrainLanes(2, r, a, b, i);
    }
    r, i := DrainLanes(1, r, a, b, i);
  }

  /** Reducing once at the end is summing products reduced one by one. */
  method InnProdRed(a: seq<Bits>, b: seq<Bits>, wide4: bool, wide2: bool) returns (r: Bits)
    requires |a| == |b| && Blocks(a) && Blocks(b)
    ensures r == InnerProduct(a, b, |a|)
  {
    var p := InnProdNoRed(a, b, wide4, wide2);
    r := Reduce(p.lo, p.hi);
    ReduceCorrect(p.lo, p.hi);
    InnerProductIs(a, b, |a|);
    CongruentSwap(InnerProduct(a, b, |a|), p.Value());
    CongruentTransitive(r, p.Value(), InnerProduct(a, b, |a|));
    RemainderUnique(r, InnerProduct(a, b, |a|));
  }

  // ---- powers ----

  /** s^e under a multiplication, for e >= 1. */
  function Pow<T>(mul: (T, T) -> T, s: T, e: nat): T
    requires e >= 1
  {
    if e == 1 then s else mul(Pow(mul, s, e - 1), s)
  }

  ghost predicate AssociatesOnPowers<T>(mul: (T, T) -> T, s: T) {
    forall e: nat, f: nat {:trigger mul(mul(Pow(mul, s, e), Pow(mul, s, f)), s)} :: e >= 1 && f >= 1 ==>
      mul(mul(Pow(mul, s, e), Pow(mul, s, f)), s) == mul(Pow(mul, s, e), mul(Pow(mul, s, f), s))
  }

  lemma {:induction false} PowSum<T>(mul: (T, T) -> T, s: T, e: nat, f: nat)
    requires e >= 1 && f >= 1 && AssociatesOnPowers(mul, s)
    ensures mul(Pow(mul, s, e), Pow(mul, s, f)) == Pow(mul, s, e + f)
  {
    if f > 1 {
      PowSum(mul, s, e, f - 1);
      assert mul(mul(Pow(mul, s, e), Pow(mul, s, f - 1)), s) == mul(Pow(mul, s, e), mul(Pow(mul, s, f - 1), s));
    }
  }

  lemma {:induction false} PowBelow(s: Bits, e: nat)
    requires e >= 1 && Below(s, 128)
    ensures Below(Pow(GfMul, s, e), 128)
  {
    if e > 1 {
      PowBelow(s, e - 1);
      GfMulCorrect(Pow(GfMul, s, e - 1), s);
    }
  }

  lemma GfMulOnPowers(s: Bits)
    requires Below(s, 128)
    ensures AssociatesOnPowers(GfMul, s)
  {
    forall e: nat, f: nat | e >= 1 && f >= 1
      ensures GfMul(GfMul(Pow(GfMul, s, e), Pow(GfMul, s, f)), s) == GfMul(Pow(GfMul, s, e), GfMul(Pow(GfMul, s, f), s))
    {
      PowBelow(s, e);
      PowBelow(s, f);
      GfMulAssociates(Pow(GfMul, s, e), Pow(GfMul, s, f), s);
    }
  }

  /** Multiplying s^e by m gives s^(e + 4). */
  ghost predicate Advances<T>(mul: (T, T) -> T, s: T, m: T, e: nat)
    requires e >= 1
  {
    mul(Pow(mul, s, e), m) == Pow(mul, s, e + 4)
  }

  lemma FourthPowerAdvances<T>(mul: (T, T) -> T, s: T, i: nat)
    requires i >= 4 && AssociatesOnPowers(mul, s)
    ensures Advances(mul, s, Pow(mul, s, 4), i - 3) && Advances(mul, s, Pow(mul, s, 4), i - 2)
    ensures Advances(mul, s, Pow(mul, s, 4), i - 1) && Advances(mul, s, Pow(mul, s, 4), i)
  {
    PowSum(mul, s, i - 3, 4);
    PowSum(mul, s, i - 2, 4);
    PowSum(mul, s, i - 1, 4);
    PowSum(mul, s, i, 4);
  }

  /** One batch of four: each is the one four places back times s^4. */
  method PowerBatch<T>(mul: (T, T) -> T, coeff: array<T>, s: T, multiplier: T, i: nat)
    requires 4 <= i && i + 4 <= coeff.Length
    requires Advances(mul, s, multiplier, i - 3) && Advances(mul, s, multiplier, i - 2)
    requires Advances(mul, s, multiplier, i - 1) && Advances(mul, s, multiplier, i)
    requires forall j :: 0 <= j < i ==> coeff[j] == Pow(mul, s, j + 1)
    modifies coeff
    ensures forall j :: 0 <= j < i + 4 ==> coeff[j] == Pow(mul, s, j + 1)
  {
    coeff[i] := mul(coeff[i - 4], multiplier);
    coeff[i + 1] := mul(coeff[i - 3], multiplier);
    coeff[i + 2] := mul(coeff[i - 2], multiplier);
    coeff[i + 3] := mul(coeff[i - 1], multiplier);
  }

  /** The first four powers, or as many as there is room for. */
  method FirstPowers<T>(mul: (T, T) -> T, coeff: array<T>, s: T)
    requires coeff.Length > 0
    modifies coeff
    ensures forall j :: 0 <= j < coeff.Length && j < 4 ==> coeff[j] == Pow(mul, s, j + 1)
  {
    var sz := coeff.Length;
    coeff[0] := s;
    if sz == 1 { return; }
    coeff[1] := mul(s, s);
    assert coeff[1] == Pow(mul, s, 2);
    if sz == 2 { return; }
    coeff[2] := mul(coeff[1], s);
    assert coeff[2] == Pow(mul, s, 3);
    if sz == 3 { return; }
    coeff[3] := mul(coeff[2], s);
    assert coeff[3] == Pow(mul, s, 4);
  }

  /** The entries from i on, one by one. */
  method TailPowers<T>(mul: (T, T) -> T, coeff: array<T>, s: T, start: nat)
    requires 1 <= start <= coeff.Length
    requires forall j :: 0 <= j < start ==> coeff[j] == Pow(mul, s, j + 1)
    modifies coeff
    ensures forall j :: 0 <= j < coeff.Length ==> coeff[j] == Pow(mul, s, j + 1)
  {
    var i := start;
    while i < coeff.Length
      invariant start <= i <= coeff.Length
      invariant forall j :: 0 <= j < i ==> coeff[j] == Pow(mul, s, j + 1)
    {
      coeff[i] := mul(coeff[i - 1], s);
      assert coeff[i] == Pow(mul, s, i + 1);
      i := i + 1;
    }
  }

  /** coeff[i] <- s^(i + 1): the first four one by one, then batches of four, then the tail. */
  method CoeffGen<T>(mul: (T, T) -> T, coeff: array<T>, s: T)
    requires coeff.Length > 0 && AssociatesOnPowers(mul, s)
    modifies coeff
    ensures forall i :: 0 <= i < coeff.Length ==> coeff[i] == Pow(mul, s, i + 1)
  {
    var sz := coeff.Length;
    FirstPowers(mul, coeff, s);
    if sz <= 4 { return; }
    var multiplier := coeff[3];
    var i := 4;
    while i < sz - 3
      invariant 4 <= i <= sz && i % 4 == 0
      invariant forall j :: 0 <= j < i ==> coeff[j] == Pow(mul, s, j + 1)
    {
      FourthPowerAdvances(mul, s, i);
      PowerBatch(mul, coeff, s, multiplier, i);
      i := i + 4;
    }
    var remainder := sz % 4;
    if remainder != 0 {
      TailPowers(mul, coeff, s, sz - remainder);
    }
  }

  /** uni_hash_coeff_gen: coeff[i] is seed^(i + 1) in the field, for every size. */
  method UniHashCoeffGen(coeff: array<Bits>, seed: Bits)
    requires coeff.Length > 0 && Below(seed, 128)
    modifies coeff
    ensures forall i :: 0 <= i < coeff.Length ==> coeff[i] == Pow(GfMul, seed, i + 1)
  {
    GfMulOnPowers(seed);
    CoeffGen(GfMul, coeff, seed);
  }
}
