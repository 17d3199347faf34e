/** Blocks as the set of their 1 bits, with exclusive or (`Sum`). Read as exponents, the same sets are the
    polynomials over GF(2). */
module Bits {

  type Bits = set<nat>

  function Sum(a: Bits, b: Bits): Bits {
    (a - b) + (b - a)
  }

  lemma SumAssoc(a: Bits, b: Bits, c: Bits)
    ensures Sum(Sum(a, b), c) == Sum(a, Sum(b, c))
  {
  }

  lemma SumComm(a: Bits, b: Bits)
    ensures Sum(a, b) == Sum(b, a)
  {
  }

  lemma SumZero(a: Bits)
    ensures Sum(a, {}) == a == Sum({}, a) && Sum(a, a) == {}
  {
  }

  /** Sums of two pairs may be taken in either order. */
  lemma SumSwap(a: Bits, b: Bits, c: Bits, d: Bits)
    ensures Sum(Sum(a, b), Sum(c, d)) == Sum(Sum(a, c), Sum(b, d))
  {
  }
}
