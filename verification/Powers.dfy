/** Powers of two and remainders. */
module Powers {

  function Pow2(n: nat): (r: nat)
    ensures r >= 1
  {
    if n == 0 then 1 else 2 * Pow2(n - 1)
  }

  lemma {:induction false} Pow2Monotone(n: nat, m: nat)
    requires n <= m
    ensures Pow2(n) <= Pow2(m)
  {
    if n < m {
      Pow2Monotone(n, m - 1);
    }
  }

  lemma {:induction false} Pow2Sum(n: nat, m: nat)
    ensures Pow2(n + m) == Pow2(n) * Pow2(m)
  {
    if m > 0 {
      Pow2Sum(n, m - 1);
      calc {
        Pow2(n + m);
        2 * Pow2(n + m - 1);
        2 * (Pow2(n) * Pow2(m - 1));
        Pow2(n) * (2 * Pow2(m - 1));
        Pow2(n) * Pow2(m);
      }
    }
  }

  lemma Pow2Byte(n: nat)
    ensures Pow2(n + 8) == 256 * Pow2(n)
  {
    assert Pow2(n + 4) == 2 * Pow2(n + 3) == 4 * Pow2(n + 2) == 8 * Pow2(n + 1);
    assert Pow2(n + 8) == 2 * Pow2(n + 7) == 4 * Pow2(n + 6) == 8 * Pow2(n + 5);
  }

  lemma AtLeastOnce(a: int, m: nat)
    requires a >= 1
    ensures a * m >= m
  {
  }

  lemma Times(a: int, b: int, m: int)
    ensures (a - b) * m == a * m - b * m
  {
  }

  /** x / k (`QuotIsDiv`), in a form that follows x by steps of k. */
  function Quot(x: nat, k: nat): nat
    requires k >= 1
  {
    if x < k then 0 else 1 + Quot(x - k, k)
  }

  lemma {:induction false} QuotSplit(x: nat, k: nat)
    requires k >= 1
    ensures Quot(x, k) * k <= x < Quot(x, k) * k + k
  {
    if x >= k {
      QuotSplit(x - k, k);
      assert (1 + Quot(x - k, k)) * k == k + Quot(x - k, k) * k;
    }
  }

  lemma QuotIsDiv(x: nat, k: nat)
    requires k >= 1
    ensures Quot(x, k) == x / k
  {
    QuotSplit(x, k);
    RemainderUnique(x, k, Quot(x, k), x - Quot(x, k) * k);
  }

  /** A quotient and a remainder are determined by range and equation. */
  lemma RemainderUnique(a: int, m: nat, k: int, r: nat)
    requires m >= 1 && r < m && a == k * m + r
    ensures a % m == r && a / m == k
  {
    var q, s := a / m, a % m;
    assert a == m * q + s;
    QuotientUnique(m, q, s, k, r);
  }

  lemma QuotientUnique(m: nat, q: int, s: nat, k: int, r: nat)
    requires r < m && s < m && q * m + s == k * m + r
    ensures q == k && s == r
  {
    Times(q, k, m);
    Times(k, q, m);
    if q > k {
      AtLeastOnce(q - k, m);
    } else if q < k {
      AtLeastOnce(k - q, m);
    }
  }

  /** a mod 2^n (`LowIsRemainder`), as the n low bits of a in two's complement. */
  function Low(a: int, n: nat): (r: nat)
    ensures r < Pow2(n)
    decreases n
  {
    if n == 0 then 0 else 2 * Low(a / 2, n - 1) + a % 2
  }

  lemma {:induction false} LowUnique(a: int, n: nat, k: int, r: nat)
    requires r < Pow2(n) && a == k * Pow2(n) + r
    ensures Low(a, n) == r
    decreases n
  {
    if n > 0 {
      var h := k * Pow2(n - 1);
      Double(k, Pow2(n - 1));
      assert a == 2 * h + r;
      LowUnique(a / 2, n - 1, k, r / 2);
    }
  }

  lemma Double(k: int, m: int)
    ensures k * (2 * m) == 2 * (k * m)
  {
  }

  lemma LowIsRemainder(a: int, n: nat)
    ensures Low(a, n) == a % Pow2(n)
  {
    var m := Pow2(n);
    assert a == m * (a / m) + a % m;
    LowUnique(a, n, a / m, a % m);
  }

  lemma LowOfSmall(a: nat, n: nat)
    requires a < Pow2(n)
    ensures Low(a, n) == a
  {
    LowUnique(a, n, 0, a);
  }

  /** Numbers that differ by one turn. */
  lemma LowOffByOne(a: int, n: nat, r: nat)
    requires r < Pow2(n) && (a == r || a == r + Pow2(n) || a == r - Pow2(n))
    ensures Low(a, n) == r
  {
    LowUnique(a, n, if a == r then 0 else if a == r + Pow2(n) then 1 else -1, r);
  }
}
