/** GF(2^128) arithmetic (emp-tool/runtime/crypto/f2k.hpp) as the lane instructions compute it. A
    128-bit register is the set of its 1 bits. */
module F2k {

  import opened Bits
  import opened Poly

  // ---- instructions ----

  /** _mm_slli_epi32: k bits up inside every 32-bit lane. */
  function Sll32(v: Bits, k: nat): (r: Bits)
    ensures forall j: nat :: j in r <==> j >= k && j - k in v && (j - k) % 32 + k < 32
  {
    var r := set i | i in v && i % 32 + k < 32 :: i + k;
    assert forall j: nat | j >= k && j - k in v && (j - k) % 32 + k < 32 :: j in r by {
      forall j: nat | j >= k && j - k in v && (j - k) % 32 + k < 32 ensures j in r {
        assert (j - k) + k == j;
      }
    }
    r
  }

  /** _mm_srli_epi32: k bits down inside every 32-bit lane. */
  function Srl32(v: Bits, k: nat): (r: Bits)
    ensures forall j: nat :: j in r <==> j + k in v && (j + k) % 32 >= k
  {
    var r := set i | i in v && i % 32 >= k :: i - k;
    assert forall j: nat | j + k in v && (j + k) % 32 >= k :: j in r by {
      forall j: nat | j + k in v && (j + k) % 32 >= k ensures j in r {
        assert (j + k) - k == j;
      }
    }
    r
  }

  /** _mm_shuffle_epi32 with selector 147: every lane moves up one, the top lane to the bottom. */
  function Shuffle147(v: Bits): (r: Bits)
    ensures forall j: nat :: j in r <==> (32 <= j < 128 && j - 32 in v) || (j < 32 && j + 96 in v)
  {
    var r := set i | i in v && i < 128 :: (i + 32) % 128;
    assert forall j: nat | (32 <= j < 128 && j - 32 in v) || (j < 32 && j + 96 in v) :: j in r by {
      forall j: nat | (32 <= j < 128 && j - 32 in v) || (j < 32 && j + 96 in v) ensures j in r {
        var i := if j < 32 then j + 96 else j - 32;
        assert i in v && (i + 32) % 128 == j;
      }
    }
    r
  }

  /** The bottom lane, and the other three. */
  function LowLane(v: Bits): Bits {
    set i | i in v && i < 32
  }

  function HighLanes(v: Bits): Bits {
    set i | i in v && i >= 32
  }

  /** Eight bytes up and down in a 128-bit register. */
  function Bslli8(v: Bits): (r: Bits)
    ensures forall j: nat :: j in r <==> 64 <= j < 128 && j - 64 in v
  {
    var r := set i | i in v && i < 64 :: i + 64;
    assert forall j: nat | 64 <= j < 128 && j - 64 in v :: j in r by {
      forall j: nat | 64 <= j < 128 && j - 64 in v ensures j in r {
        assert (j - 64) + 64 == j;
      }
    }
    r
  }

  function Bsrli8(v: Bits): (r: Bits)
    ensures forall j: nat :: j in r <==> j + 64 in v
  {
    var r := set i | i in v && i >= 64 :: i - 64;
    assert forall j: nat | j + 64 in v :: j in r by {
      forall j: nat | j + 64 in v ensures j in r {
        assert (j + 64) - 64 == j;
      }
    }
    r
  }

  // ---- reduce ----

  /** The reduction of lo + x^128 hi, lane shifts and all. */
  function Reduce(lo: Bits, hi: Bits): Bits {
    var carries := Sum(Sum(Srl32(hi, 31), Srl32(hi, 30)), Srl32(hi, 25));
    var moved := Shuffle147(carries);
    var tmp3 := Sum(lo, HighLanes(moved));
    var tmp6 := Sum(hi, LowLane(moved));
    Sum(Sum(Sum(Sum(tmp3, Sll32(tmp6, 1)), Sll32(tmp6, 2)), Sll32(tmp6, 7)), tmp6)
  }

  /** Bits that a lane shift by k drops, moved to where a full shift would put them. */
  function Carry(hi: Bits, k: nat): Bits
    requires k <= 32
  {
    Shuffle147(Srl32(hi, 32 - k))
  }

  /** A full shift is the lane shift, the carries between lanes, and the carry out of the register. */
  lemma FullShift(hi: Bits, k: nat)
    requires 1 <= k < 32 && Below(hi, 128)
    ensures Shift(hi, k) == Sum(Sum(Sll32(hi, k), HighLanes(Carry(hi, k))), Shift(LowLane(Carry(hi, k)), 128))
  {
    forall j: nat
      ensures j in Shift(hi, k) <==>
          j in Sum(Sum(Sll32(hi, k), HighLanes(Carry(hi, k))), Shift(LowLane(Carry(hi, k)), 128))
    {
      FullShiftBit(hi, k, j);
    }
  }

  lemma FullShiftBit(hi: Bits, k: nat, j: nat)
    requires 1 <= k < 32 && Below(hi, 128)
    ensures (j in Shift(hi, k))
         == (((j in Sll32(hi, k)) != (j in HighLanes(Carry(hi, k)))) != (j in Shift(LowLane(Carry(hi, k)), 128)))
  {
    assert j in HighLanes(Carry(hi, k)) <==> 32 <= j < 128 && j - k in hi && (j - k) % 32 >= 32 - k;
    if j >= 128 {
      assert j - 128 in LowLane(Carry(hi, k)) <==> j - 128 < 32 && j - k in hi && (j - k) % 32 >= 32 - k;
    }
  }

  lemma ShuffleSum(a: Bits, b: Bits)
    ensures Shuffle147(Sum(a, b)) == Sum(Shuffle147(a), Shuffle147(b))
  {
  }

  lemma LanesSum(a: Bits, b: Bits)
    ensures LowLane(Sum(a, b)) == Sum(LowLane(a), LowLane(b)) && HighLanes(Sum(a, b)) == Sum(HighLanes(a), HighLanes(b))
  {
  }

  lemma CarriesSum(hi: Bits)
    ensures
      var moved := Shuffle147(Sum(Sum(Srl32(hi, 31), Srl32(hi, 30)), Srl32(hi, 25)));
      && LowLane(moved) == Sum(Sum(LowLane(Carry(hi, 1)), LowLane(Carry(hi, 2))), LowLane(Carry(hi, 7)))
      && HighLanes(moved) == Sum(Sum(HighLanes(Carry(hi, 1)), HighLanes(Carry(hi, 2))), HighLanes(Carry(hi, 7)))
  {
    ShuffleSum(Sum(Srl32(hi, 31), Srl32(hi, 30)), Srl32(hi, 25));
    ShuffleSum(Srl32(hi, 31), Srl32(hi, 30));
    LanesSum(Sum(Carry(hi, 1), Carry(hi, 2)), Carry(hi, 7));
    LanesSum(Carry(hi, 1), Carry(hi, 2));
  }

  lemma Sll32Sum(a: Bits, b: Bits, k: nat)
    ensures Sll32(Sum(a, b), k) == Sum(Sll32(a, k), Sll32(b, k))
  {
  }

  /** The carries out of the register are few enough to be shifted without carries. */
  lemma LowCarrySmall(hi: Bits)
    requires Below(hi, 128)
    ensures Below(Sum3(LowLane(Carry(hi, 1)), LowLane(Carry(hi, 2)), LowLane(Carry(hi, 7))), 7)
  {
    BelowSum(LowLane(Carry(hi, 1)), LowLane(Carry(hi, 2)), 7);
    BelowSum(Sum(LowLane(Carry(hi, 1)), LowLane(Carry(hi, 2))), LowLane(Carry(hi, 7)), 7);
  }

  lemma SmallShift(v: Bits, k: nat)
    requires Below(v, 7) && k <= 7
    ensures Shift(v, k) == Sll32(v, k)
  {
  }

  function Sum3(a: Bits, b: Bits, c: Bits): Bits {
    Sum(Sum(a, b), c)
  }

  /** Nine summands by rows or by columns. */
  lemma Transpose(a: Bits, b: Bits, c: Bits, d: Bits, e: Bits, f: Bits, g: Bits, h: Bits, i: Bits)
    ensures Sum3(Sum3(a, b, c), Sum3(d, e, f), Sum3(g, h, i)) == Sum3(Sum3(a, d, g), Sum3(b, e, h), Sum3(c, f, i))
  {
    SumSwap(Sum(a, b), c, Sum(d, e), f);
    SumSwap(a, b, d, e);
    SumSwap(Sum(Sum(a, d), Sum(b, e)), Sum(c, f), Sum(g, h), i);
    SumSwap(Sum(a, d), Sum(b, e), g, h);
  }

  lemma TapsGroup(h: Bits, a: Bits, b: Bits, c: Bits)
    ensures Sum(Sum(h, a), Sum(b, c)) == Sum(h, Sum3(a, b, c))
  {
  }

  lemma TailGroup(t: Bits, a: Bits, b: Bits, c: Bits, h: Bits)
    ensures Sum(Sum(Sum(Sum(t, a), b), c), h) == Sum(Sum(t, Sum3(a, b, c)), h)
  {
  }

  /** What remains once the shifts are grouped: s lane shifts, r carries between lanes, out carries
      out of the register, u shifts of low. */
  lemma Assemble(lo: Bits, hi: Bits, low: Bits, top: Bits, out: Bits, s: Bits, r: Bits, u: Bits)
    ensures Sum(Sum(Sum(Sum(lo, r), Sum(s, u)), Sum(hi, low)), Sum(lo, top))
         == Sum(Sum(top, Sum(hi, Sum3(s, r, out))), Sum(out, Sum(low, u)))
  {
    forall i: nat
      ensures i in Sum(Sum(Sum(Sum(lo, r), Sum(s, u)), Sum(hi, low)), Sum(lo, top))
         <==> i in Sum(Sum(top, Sum(hi, Sum3(s, r, out))), Sum(out, Sum(low, u)))
    {
    }
  }

  /** The low carries and the lane form of Taps. */
  lemma TapsOf(hi: Bits)
    requires Below(hi, 128)
    ensures
      var s := Sum3(Sll32(hi, 1), Sll32(hi, 2), Sll32(hi, 7));
      var r := Sum3(HighLanes(Carry(hi, 1)), HighLanes(Carry(hi, 2)), HighLanes(Carry(hi, 7)));
      var low := Sum3(LowLane(Carry(hi, 1)), LowLane(Carry(hi, 2)), LowLane(Carry(hi, 7)));
      Taps(hi) == Sum(hi, Sum3(s, r, Shift(low, 128)))
  {
    var l1, l2, l7 := LowLane(Carry(hi, 1)), LowLane(Carry(hi, 2)), LowLane(Carry(hi, 7));
    FullShift(hi, 1);
    FullShift(hi, 2);
    FullShift(hi, 7);
    TapsGroup(hi, Shift(hi, 1), Shift(hi, 2), Shift(hi, 7));
    Transpose(Sll32(hi, 1), HighLanes(Carry(hi, 1)), Shift(l1, 128), Sll32(hi, 2), HighLanes(Carry(hi, 2)),
              Shift(l2, 128),
              Sll32(hi, 7), HighLanes(Carry(hi, 7)), Shift(l7, 128));
    ShiftSum(Sum(l1, l2), l7, 128);
    ShiftSum(l1, l2, 128);
  }

  lemma TapsOfSmall(low: Bits)
    requires Below(low, 7)
    ensures Taps(low) == Sum(low, Sum3(Sll32(low, 1), Sll32(low, 2), Sll32(low, 7)))
  {
    SmallShift(low, 1);
    SmallShift(low, 2);
    SmallShift(low, 7);
    TapsGroup(low, Shift(low, 1), Shift(low, 2), Shift(low, 7));
  }

  lemma LaneShiftsSum(a: Bits, b: Bits)
    ensures Sum3(Sll32(Sum(a, b), 1), Sll32(Sum(a, b), 2), Sll32(Sum(a, b), 7))
         == Sum(Sum3(Sll32(a, 1), Sll32(a, 2), Sll32(a, 7)), Sum3(Sll32(b, 1), Sll32(b, 2), Sll32(b, 7)))
  {
    Sll32Sum(a, b, 1);
    Sll32Sum(a, b, 2);
    Sll32Sum(a, b, 7);
    SumSwap(Sll32(a, 1), Sll32(b, 1), Sll32(a, 2), Sll32(b, 2));
    SumSwap(Sum(Sll32(a, 1), Sll32(a, 2)), Sum(Sll32(b, 1), Sll32(b, 2)), Sll32(a, 7), Sll32(b, 7));
  }

  /** reduce is the remainder of lo + x^128 hi modulo x^128 + x^7 + x^2 + x + 1. */
  lemma ReduceCorrect(lo: Bits, hi: Bits)
    requires Below(lo, 128) && Below(hi, 128)
    ensures Below(Reduce(lo, hi), 128) && Congruent(Reduce(lo, hi), Sum(lo, Shift(hi, 128)))
  {
    var low := Sum3(LowLane(Carry(hi, 1)), LowLane(Carry(hi, 2)), LowLane(Carry(hi, 7)));
    var r := Sum3(HighLanes(Carry(hi, 1)), HighLanes(Carry(hi, 2)), HighLanes(Carry(hi, 7)));
    var s := Sum3(Sll32(hi, 1), Sll32(hi, 2), Sll32(hi, 7));
    var u := Sum3(Sll32(low, 1), Sll32(low, 2), Sll32(low, 7));
    CarriesSum(hi);
    LowCarrySmall(hi);
    ReduceBelow(lo, hi);
    TapsOf(hi);
    TapsOfSmall(low);
    LaneShiftsSum(hi, low);
    var h := Sum(hi, low);
    TailGroup(Sum(lo, r), Sll32(h, 1), Sll32(h, 2), Sll32(h, 7), h);
    assert Reduce(lo, hi) == Sum(Sum(Sum(lo, r), Sum(s, u)), h);
    Assemble(lo, hi, low, Shift(hi, 128), Shift(low, 128), s, r, u);
    TimesFSum(hi, low);
    assert Sum(Reduce(lo, hi), Sum(lo, Shift(hi, 128))) == TimesF(h);
  }

  lemma BelowSum(a: Bits, b: Bits, n: nat)
    requires Below(a, n) && Below(b, n)
    ensures Below(Sum(a, b), n)
  {
  }

  lemma Sll32Below(v: Bits, k: nat)
    requires Below(v, 128)
    ensures Below(Sll32(v, k), 128)
  {
  }

  lemma ReduceBelow(lo: Bits, hi: Bits)
    requires Below(lo, 128) && Below(hi, 128)
    ensures Below(Reduce(lo, hi), 128)
  {
    var moved := Shuffle147(Sum(Sum(Srl32(hi, 31), Srl32(hi, 30)), Srl32(hi, 25)));
    var tmp3 := Sum(lo, HighLanes(moved));
    var tmp6 := Sum(hi, LowLane(moved));
    assert Below(HighLanes(moved), 128) && Below(LowLane(moved), 128);
    BelowSum(lo, HighLanes(moved), 128);
    BelowSum(hi, LowLane(moved), 128);
    Sll32Below(tmp6, 1);
    Sll32Below(tmp6, 2);
    Sll32Below(tmp6, 7);
    BelowSum(tmp3, Sll32(tmp6, 1), 128);
    BelowSum(Sum(tmp3, Sll32(tmp6, 1)), Sll32(tmp6, 2), 128);
    BelowSum(Sum(Sum(tmp3, Sll32(tmp6, 1)), Sll32(tmp6, 2)), Sll32(tmp6, 7), 128);
    BelowSum(Sum(Sum(Sum(tmp3, Sll32(tmp6, 1)), Sll32(tmp6, 2)), Sll32(tmp6, 7)), tmp6, 128);
  }

  /** Reducing a sum is summing reductions. */
  lemma ReduceSum(lo: Bits, hi: Bits, lo': Bits, hi': Bits)
    requires Below(lo, 128) && Below(hi, 128) && Below(lo', 128) && Below(hi', 128)
    ensures Reduce(Sum(lo, lo'), Sum(hi, hi')) == Sum(Reduce(lo, hi), Reduce(lo', hi'))
  {
    ReduceCorrect(lo, hi);
    ReduceCorrect(lo', hi');
    ReduceCorrect(Sum(lo, lo'), Sum(hi, hi'));
    var p, p' := Sum(lo, Shift(hi, 128)), Sum(lo', Shift(hi', 128));
    CongruentSum(Reduce(lo, hi), p, Reduce(lo', hi'), p');
    ShiftSum(hi, hi', 128);
    SumSwap(lo, lo', Shift(hi, 128), Shift(hi', 128));
    CongruentSwap(Sum(Reduce(lo, hi), Reduce(lo', hi')), Sum(p, p'));
    CongruentTransitive(Reduce(Sum(lo, lo'), Sum(hi, hi')), Sum(p, p'), Sum(Reduce(lo, hi), Reduce(lo', hi')));
    RemainderUnique(Reduce(Sum(lo, lo'), Sum(hi, hi')), Sum(Reduce(lo, hi), Reduce(lo', hi')));
  }

  // ---- products ----

  function LoHalf(a: Bits): Bits {
    set i | i in a && i < 64
  }

  function HiHalf(a: Bits): Bits {
    Bsrli8(a)
  }

  /** Carry-less multiplication of 64-bit words. */
  function Clmul(a: Bits, b: Bits): Bits {
    MulTo(a, b, 64)
  }

  /** An unreduced 256-bit product, or a sum of them. */
  datatype Wide = Wide(lo: Bits, hi: Bits) {
    function Value(): Bits {
      Sum(lo, Shift(hi, 128))
    }
    predicate Ok() {
      Below(lo, 128) && Below(hi, 128)
    }
  }

  /** p00 + x^64 mid + x^128 p11, cut at bit 128. */
  function Fold(p00: Bits, mid: Bits, p11: Bits): Wide {
    Wide(Sum(p00, Bslli8(mid)), Sum(p11, Bsrli8(mid)))
  }

  function Middle(a: Bits, b: Bits): Bits {
    Sum(Clmul(HiHalf(a), LoHalf(b)), Clmul(LoHalf(a), HiHalf(b)))
  }

  function Mul128(a: Bits, b: Bits): Wide {
    Fold(Clmul(LoHalf(a), LoHalf(b)), Middle(a, b), Clmul(HiHalf(a), HiHalf(b)))
  }

  lemma FoldValue(p00: Bits, mid: Bits, p11: Bits)
    requires Below(p00, 128) && Below(mid, 128) && Below(p11, 128)
    ensures Fold(p00, mid, p11).Ok()
    ensures Fold(p00, mid, p11).Value() == Sum(Sum(p00, Shift(mid, 64)), Shift(p11, 128))
  {
    assert Shift(mid, 64) == Sum(Bslli8(mid), Shift(Bsrli8(mid), 128));
    ShiftSum(p11, Bsrli8(mid), 128);
    Interleave(p00, Bslli8(mid), Shift(p11, 128), Shift(Bsrli8(mid), 128));
  }

  lemma Interleave(a: Bits, b: Bits, c: Bits, d: Bits)
    ensures Sum(Sum(a, b), Sum(c, d)) == Sum(Sum(a, Sum(b, d)), c)
  {
  }

  lemma Halves(a: Bits)
    requires Below(a, 128)
    ensures a == Sum(LoHalf(a), Shift(HiHalf(a), 64)) && Below(LoHalf(a), 64) && Below(HiHalf(a), 64)
  {
  }

  lemma ClmulBelow(a: Bits, b: Bits)
    requires Below(a, 64)
    ensures Below(Clmul(a, b), 128)
  {
    MulBelow(a, b, 64, 64);
  }

  /** a times b by words of b. */
  lemma MulHalves(a: Bits, b: Bits)
    requires Below(b, 128)
    ensures MulTo(a, b, 128) == Sum(Clmul(a, LoHalf(b)), Shift(Clmul(a, HiHalf(b)), 64))
  {
    Halves(b);
    MulSumRight(a, LoHalf(b), Shift(HiHalf(b), 64), 128);
    MulExtend(a, LoHalf(b), 64, 128);
    MulShiftRight(a, HiHalf(b), 64, 64);
  }

  lemma ClmulHalves(a: Bits, b: Bits)
    requires Below(a, 128)
    ensures Clmul(a, b) == Sum(Clmul(LoHalf(a), b), Shift(Clmul(HiHalf(a), b), 64))
  {
    Halves(a);
    MulSumLeft(LoHalf(a), Shift(HiHalf(a), 64), b, 64);
    MulShiftLeft(HiHalf(a), 64, b, 64);
  }

  /** mul128 is the exact product. */
  lemma Mul128Correct(a: Bits, b: Bits)
    requires Below(a, 128) && Below(b, 128)
    ensures Mul128(a, b).Ok() && Mul128(a, b).Value() == MulTo(a, b, 128)
  {
    var al, ah, bl, bh := LoHalf(a), HiHalf(a), LoHalf(b), HiHalf(b);
    Halves(a);
    ClmulBelow(al, bl);
    ClmulBelow(ah, bl);
    ClmulBelow(al, bh);
    ClmulBelow(ah, bh);
    FoldValue(Clmul(al, bl), Middle(a, b), Clmul(ah, bh));
    MulHalves(a, b);
    ClmulHalves(a, bl);
    ClmulHalves(a, bh);
    ShiftSum(Clmul(al, bh), Shift(Clmul(ah, bh), 64), 64);
    ShiftShift(Clmul(ah, bh), 64, 64);
    ShiftSum(Clmul(ah, bl), Clmul(al, bh), 64);
    Regroup(Clmul(al, bl), Shift(Clmul(ah, bl), 64), Shift(Clmul(al, bh), 64), Shift(Clmul(ah, bh), 128));
  }

  lemma Regroup(a: Bits, b: Bits, c: Bits, d: Bits)
    ensures Sum(Sum(a, Sum(b, c)), d) == Sum(Sum(a, b), Sum(c, d))
  {
  }

  function GfMul(a: Bits, b: Bits): Bits {
    var r := Mul128(a, b);
    Reduce(r.lo, r.hi)
  }

  /** gfmul is multiplication modulo x^128 + x^7 + x^2 + x + 1. */
  lemma GfMulCorrect(a: Bits, b: Bits)
    requires Below(a, 128) && Below(b, 128)
    ensures Below(GfMul(a, b), 128) && Congruent(GfMul(a, b), MulTo(a, b, 128))
  {
    Mul128Correct(a, b);
    ReduceCorrect(Mul128(a, b).lo, Mul128(a, b).hi);
  }

  lemma GfMulCommutes(a: Bits, b: Bits)
    requires Below(a, 128) && Below(b, 128)
    ensures GfMul(a, b) == GfMul(b, a)
  {
    GfMulCorrect(a, b);
    GfMulCorrect(b, a);
    MulCommutes(a, 128, b, 128);
    CongruentSwap(GfMul(b, a), MulTo(b, a, 128));
    CongruentTransitive(GfMul(a, b), MulTo(a, b, 128), GfMul(b, a));
    RemainderUnique(GfMul(a, b), GfMul(b, a));
  }

  /** A product with a reduced factor is congruent to the product with the factor itself. */
  lemma GfMulOf(a: Bits, b: Bits, c: Bits)
    requires Below(a, 128) && Below(b, 128) && Below(c, 128)
    ensures Congruent(GfMul(GfMul(a, b), c), MulTo(MulTo(a, b, 128), c, 128)) && Below(GfMul(GfMul(a, b), c), 128)
  {
    GfMulCorrect(a, b);
    GfMulCorrect(GfMul(a, b), c);
    CongruentMul(GfMul(a, b), MulTo(a, b, 128), c, 128);
    CongruentTransitive(GfMul(GfMul(a, b), c), MulTo(GfMul(a, b), c, 128), MulTo(MulTo(a, b, 128), c, 128));
  }

  lemma GfMulAssociates(a: Bits, b: Bits, c: Bits)
    requires Below(a, 128) && Below(b, 128) && Below(c, 128)
    ensures GfMul(GfMul(a, b), c) == GfMul(a, GfMul(b, c))
  {
    GfMulCorrect(b, c);
    GfMulCommutes(a, GfMul(b, c));
    GfMulOf(a, b, c);
    GfMulOf(b, c, a);
    MulBelow(b, c, 128, 128);
    MulAssociates(a, b, 128, c, 128);
    MulCommutes(a, 128, MulTo(b, c, 128), 256);
    var p := MulTo(MulTo(a, b, 128), c, 128);
    CongruentSwap(GfMul(GfMul(b, c), a), p);
    CongruentTransitive(GfMul(GfMul(a, b), c), p, GfMul(GfMul(b, c), a));
    RemainderUnique(GfMul(GfMul(a, b), c), GfMul(GfMul(b, c), a));
  }
}
