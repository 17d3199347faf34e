/** Packing 128 field elements (GaloisFieldPacking of emp-tool/runtime/crypto/f2k.hpp, scalar form):
    the sum of data[i] x^i, formed by bit shifts and byte shifts and reduced once. */
module F2kPacking {

  import opened Bits
  import opened Poly
  import opened F2k
  import opened F2kVectors

  /** _mm_slli_epi64 and _mm_srli_epi64: shifts inside the two 64-bit lanes. */
  function Sll64(v: Bits, k: nat): (r: Bits)
    ensures forall j: nat :: j in r <==> j >= k && j - k in v && (j - k) % 64 + k < 64
  {
    var r := set i | i in v && i % 64 + k < 64 :: i + k;
    assert forall j: nat | j >= k && j - k in v && (j - k) % 64 + k < 64 :: j in r by {
      forall j: nat | j >= k && j - k in v && (j - k) % 64 + k < 64 ensures j in r {
        assert (j - k) + k == j;
      }
    }
    r
  }

  function Srl64(v: Bits, k: nat): (r: Bits)
    ensures forall j: nat :: j in r <==> j + k in v && (j + k) % 64 >= k
  {
    var r := set i | i in v && i % 64 >= k :: i - k;
    assert forall j: nat | j + k in v && (j + k) % 64 >= k :: j in r by {
      forall j: nat | j + k in v && (j + k) % 64 >= k ensures j in r {
        assert (j + k) - k == j;
      }
    }
    r
  }

  /** _mm_slli_si128 and _mm_srli_si128 by whole bytes. */
  function BytesUp(v: Bits, n: nat): (r: Bits)
    ensures forall j: nat :: j in r <==> 8 * n <= j < 128 && j - 8 * n in v
  {
    var r := set i | i in v && i + 8 * n < 128 :: i + 8 * n;
    assert forall j: nat | 8 * n <= j < 128 && j - 8 * n in v :: j in r by {
      forall j: nat | 8 * n <= j < 128 && j - 8 * n in v ensures j in r {
        assert (j - 8 * n) + 8 * n == j;
      }
    }
    r
  }

  function BytesDown(v: Bits, n: nat): (r: Bits)
    ensures forall j: nat :: j in r <==> j + 8 * n in v
  {
    var r := set i | i in v && i >= 8 * n :: i - 8 * n;
    assert forall j: nat | j + 8 * n in v :: j in r by {
      forall j: nat | j + 8 * n in v ensures j in r {
        assert (j + 8 * n) - 8 * n == j;
      }
    }
    r
  }

  /** x^b d, as a low and a high register. */
  function BitShift(d: Bits, b: nat): Wide
    requires b <= 64
  {
    var s, c := Sll64(d, b), Srl64(d, 64 - b);
    Wide(Sum(s, Bslli8(c)), Bsrli8(c))
  }

  lemma BitShiftIs(d: Bits, b: nat)
    requires 1 <= b <= 7 && Below(d, 128)
    ensures BitShift(d, b).Value() == Shift(d, b)
    ensures Below(BitShift(d, b).lo, 128) && Below(BitShift(d, b).hi, 7)
  {
    forall j: nat
      ensures j in BitShift(d, b).Value() <==> j in Shift(d, b)
    {
      BitShiftAt(d, b, j);
    }
  }

  lemma BitShiftAt(d: Bits, b: nat, j: nat)
    requires 1 <= b <= 7 && Below(d, 128)
    ensures j in BitShift(d, b).Value() <==> j in Shift(d, b)
  {
    var s, c := Sll64(d, b), Srl64(d, 64 - b);
    assert j in Bslli8(c) <==> 64 <= j < 128 && j - b in d && (j - b) % 64 >= 64 - b;
    if j >= 128 {
      assert j - 128 in Bsrli8(c) <==> j - b in d && (j - b) % 64 >= 64 - b;
    }
  }

  /** The two registers shifted up by n bytes together. */
  lemma ByteShift(lo: Bits, hi: Bits, n: nat)
    requires n <= 15 && Below(lo, 128) && Below(hi, 7)
    ensures Shift(Sum(lo, Shift(hi, 128)), 8 * n)
         == Sum(BytesUp(lo, n), Shift(Sum(BytesDown(lo, 16 - n), BytesUp(hi, n)), 128))
    ensures Below(BytesUp(lo, n), 128) && Below(Sum(BytesDown(lo, 16 - n), BytesUp(hi, n)), 128)
  {
    ShiftSum(lo, Shift(hi, 128), 8 * n);
    ShiftShift(hi, 128, 8 * n);
    ShiftSum(BytesDown(lo, 16 - n), BytesUp(hi, n), 128);
    assert Shift(lo, 8 * n) == Sum(BytesUp(lo, n), Shift(BytesDown(lo, 16 - n), 128));
    assert Shift(hi, 128 + 8 * n) == Shift(BytesUp(hi, n), 128);
    SumAssoc(BytesUp(lo, n), Shift(BytesDown(lo, 16 - n), 128), Shift(BytesUp(hi, n), 128));
  }

  /** The sum of data[i] x^i over i < n. */
  ghost function PackTo(data: seq<Bits>, n: nat): Bits
    requires n <= |data|
  {
    if n == 0 then {} else Sum(PackTo(data, n - 1), Shift(data[n - 1], n - 1))
  }

  /** Eight inputs gathered by bit shifts; their sum stays unshifted by the byte offset. */
  method GatherByte(data: seq<Bits>, off: nat, ghost acc: Bits) returns (c: Wide)
    requires |data| == 128 && Blocks(data) && off < 16 && acc == PackTo(data, 8 * off)
    ensures Below(c.lo, 128) && Below(c.hi, 7)
    ensures Sum(acc, Shift(c.Value(), 8 * off)) == PackTo(data, 8 * off + 8)
  {
    c := Wide(data[8 * off], {});
    ShiftZero(128);
    SumZero(data[8 * off]);
    assert Sum(acc, Shift(c.Value(), 8 * off)) == PackTo(data, 8 * off + 1);
    for b := 1 to 8
      invariant Below(c.lo, 128) && Below(c.hi, 7)
      invariant Sum(acc, Shift(c.Value(), 8 * off)) == PackTo(data, 8 * off + b)
    {
      var d := data[8 * off + b];
      var s := BitShift(d, b);
      BitShiftIs(d, b);
      GatherStep(acc, c, s, d, b, off);
      c := Wide(Sum(c.lo, s.lo), Sum(c.hi, s.hi));
    }
  }

  lemma GatherStep(acc: Bits, c: Wide, s: Wide, d: Bits, b: nat, off: nat)
    requires s.Value() == Shift(d, b) && Below(c.lo, 128) && Below(s.lo, 128) && Below(c.hi, 7) && Below(s.hi, 7)
    ensures
      var c' := Wide(Sum(c.lo, s.lo), Sum(c.hi, s.hi));
      && Below(c'.lo, 128) && Below(c'.hi, 7)
      && Sum(acc, Shift(c'.Value(), 8 * off)) == Sum(Sum(acc, Shift(c.Value(), 8 * off)), Shift(d, 8 * off + b))
  {
    WideSum(c, s);
    BelowSum(c.hi, s.hi, 7);
    ShiftSum(c.Value(), s.Value(), 8 * off);
    ShiftShift(d, b, 8 * off);
    SumAssoc(acc, Shift(c.Value(), 8 * off), Shift(d, 8 * off + b));
  }

  /** One byte offset: gather, then one byte shift into the running sum. */
  method PackByte(data: seq<Bits>, off: nat, acc: Wide) returns (r: Wide)
    requires |data| == 128 && Blocks(data) && off < 16
    requires acc.Ok() && acc.Value() == PackTo(data, 8 * off)
    ensures r.Ok() && r.Value() == PackTo(data, 8 * off + 8)
  {
    var c := GatherByte(data, off, acc.Value());
    ByteShift(c.lo, c.hi, off);
    var up := BytesUp(c.lo, off);
    var over := Sum(BytesDown(c.lo, 16 - off), BytesUp(c.hi, off));
    if off == 0 {
      assert up == c.lo && over == c.hi;
      r := Wide(Sum(acc.lo, c.lo), Sum(acc.hi, c.hi));
    } else {
      r := Wide(Sum(acc.lo, up), Sum(acc.hi, over));
    }
    WideSum(acc, Wide(up, over));
  }

  /** packing: the field element congruent to the sum of data[i] x^i. */
  method Packing(data: seq<Bits>) returns (r: Bits)
    requires |data| == 128 && Blocks(data)
    ensures Below(r, 128) && Congruent(r, PackTo(data, 128))
  {
    var acc := Wide({}, {});
    ShiftZero(128);
    SumZero({});
    for off := 0 to 16
      invariant acc.Ok() && acc.Value() == PackTo(data, 8 * off)
    {
      acc := PackByte(data, off, acc);
    }
    r := Reduce(acc.lo, acc.hi);
    ReduceCorrect(acc.lo, acc.hi);
  }
}
