/** The polynomial product and the field multiplication of module F2k by their coefficients
    (emp-tool/runtime/crypto/f2k.h): a second description of both. */
module Coefficients {

  import opened Bits
  import opened Poly
  import opened F2k

  /** The j below n for which x^j of b and x^(k - j) of a meet in x^k. */
  ghost function Meets(a: Bits, b: Bits, n: nat, k: nat): set<nat> {
    set j | 0 <= j < n && j in b && j <= k && k - j in a
  }

  lemma MeetsNext(a: Bits, b: Bits, n: nat, k: nat)
    ensures |Meets(a, b, n + 1, k)| == |Meets(a, b, n, k)| + if n in b && n <= k && k - n in a then 1 else 0
  {
    var hit := n in b && n <= k && k - n in a;
    assert Meets(a, b, n + 1, k) == if hit then Meets(a, b, n, k) + {n} else Meets(a, b, n, k);
  }

  /** x^k occurs in a product if and only if an odd number of pairs of terms meet there. */
  lemma {:induction false} ProductCoefficient(a: Bits, b: Bits, n: nat, k: nat)
    ensures k in MulTo(a, b, n) <==> |Meets(a, b, n, k)| % 2 == 1
  {
    if n > 0 {
      ProductCoefficient(a, b, n - 1, k);
      MeetsNext(a, b, n - 1, k);
    } else {
      assert Meets(a, b, 0, k) == {};
    }
  }

  lemma PowerProduct(i: nat, j: nat)
    requires i < 128 && j < 128
    ensures Below(GfMul({i}, {j}), 128) && Congruent(GfMul({i}, {j}), {i + j})
  {
    GfMulCorrect({i}, {j});
    MulMonomial(i, {j}, 128);
    OnePower(i, j);
  }

  lemma OnePower(i: nat, j: nat)
    ensures Shift({j}, i) == {i + j}
  {
  }

  /** Below degree 128 the field product of x^i and x^j is x^(i + j). */
  lemma SmallPowers(i: nat, j: nat)
    requires i + j < 128
    ensures GfMul({i}, {j}) == {i + j}
  {
    PowerProduct(i, j);
    RemainderUnique(GfMul({i}, {j}), {i + j});
  }

  /** x^128 is x^7 + x^2 + x + 1. */
  lemma TopPower(i: nat, j: nat)
    requires i < 128 && j < 128 && i + j == 128
    ensures GfMul({i}, {j}) == {0, 1, 2, 7}
  {
    PowerProduct(i, j);
    FoldTop();
    CongruentTransitive(GfMul({i}, {j}), {128}, {0, 1, 2, 7});
    RemainderUnique(GfMul({i}, {j}), {0, 1, 2, 7});
  }

  lemma FoldTop()
    ensures Congruent({128}, {0, 1, 2, 7})
  {
    assert Shift({0}, 1) == {1} && Shift({0}, 2) == {2} && Shift({0}, 7) == {7} && Shift({0}, 128) == {128};
    assert Sum({0}, {1}) == {0, 1} && Sum({2}, {7}) == {2, 7} && Sum({0, 1}, {2, 7}) == {0, 1, 2, 7};
    assert Sum({128}, {0, 1, 2, 7}) == TimesF({0});
  }

  /** The field multiplication distributes over exclusive or. */
  lemma GfMulSum(a: Bits, b: Bits, c: Bits)
    requires Below(a, 128) && Below(b, 128) && Below(c, 128)
    ensures GfMul(Sum(a, b), c) == Sum(GfMul(a, c), GfMul(b, c))
  {
    GfMulCorrect(a, c);
    GfMulCorrect(b, c);
    GfMulCorrect(Sum(a, b), c);
    MulSumLeft(a, b, c, 128);
    CongruentSum(GfMul(a, c), MulTo(a, c, 128), GfMul(b, c), MulTo(b, c, 128));
    CongruentSwap(Sum(GfMul(a, c), GfMul(b, c)), Sum(MulTo(a, c, 128), MulTo(b, c, 128)));
    CongruentTransitive(GfMul(Sum(a, b), c), MulTo(Sum(a, b), c, 128), Sum(GfMul(a, c), GfMul(b, c)));
    RemainderUnique(GfMul(Sum(a, b), c), Sum(GfMul(a, c), GfMul(b, c)));
  }
}
