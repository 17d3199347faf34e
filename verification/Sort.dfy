/** Batcher's odd-even mergesort network for any length (emp-tool/circuits/sort.h).

    The network is the list of compare-swaps it invokes. A stage (p, k) compares x with x + k
    inside blocks of 2p. The proof views a block as rows of width k and shows that every stage
    leaves columns sorted, rows sorted, and each row below the row after next. */
module Sort {

  import opened Powers

  // ---- order and compare-swap ----

  ghost predicate TotalPreorder<T(!new)>(le: (T, T) -> bool) {
    && (forall a, b :: le(a, b) || le(b, a))
    && (forall a, b, c :: le(a, b) && le(b, c) ==> le(a, c))
  }

  /** compare_swap on positions i and j: the pair is exchanged when it is out of order. */
  function CompareSwap<T>(le: (T, T) -> bool, s: seq<T>, i: nat, j: nat): (r: seq<T>)
    ensures |r| == |s|
  {
    if i < |s| && j < |s| && !le(s[i], s[j]) then s[i := s[j]][j := s[i]] else s
  }

  function ApplyAll<T>(le: (T, T) -> bool, s: seq<T>, swaps: seq<(nat, nat)>): (r: seq<T>)
    ensures |r| == |s|
  {
    if swaps == [] then s
    else
      var last := swaps[|swaps| - 1];
      CompareSwap(le, ApplyAll(le, s, swaps[..|swaps| - 1]), last.0, last.1)
  }

  lemma {:induction false} ApplyAllConcat<T>(le: (T, T) -> bool, s: seq<T>, a: seq<(nat, nat)>, b: seq<(nat, nat)>)
    ensures ApplyAll(le, s, a + b) == ApplyAll(le, ApplyAll(le, s, a), b)
    decreases |b|
  {
    if b == [] {
      assert a + b == a;
    } else {
      ApplyAllConcat(le, s, a, b[..|b| - 1]);
      assert (a + b)[..|a + b| - 1] == a + b[..|b| - 1];
    }
  }

  lemma {:induction false} ApplyAllPermutes<T>(le: (T, T) -> bool, s: seq<T>, swaps: seq<(nat, nat)>)
    ensures multiset(ApplyAll(le, s, swaps)) == multiset(s)
  {
    if swaps != [] {
      ApplyAllPermutes(le, s, swaps[..|swaps| - 1]);
    }
  }

  // ---- rows ----

  lemma {:induction false} RowMonotone(x: nat, y: nat, k: nat)
    requires k >= 1 && x <= y
    ensures Quot(x, k) <= Quot(y, k)
  {
    if x >= k {
      RowMonotone(x - k, y - k, k);
    }
  }

  /** Rows of width 2k are pairs of rows of width k. */
  lemma {:induction false} RowPairs(x: nat, k: nat)
    requires k >= 1
    ensures Quot(x, 2 * k) == Quot(x, k) / 2
  {
    if x >= 2 * k {
      RowPairs(x - 2 * k, k);
      assert Quot(x, k) == 1 + Quot(x - k, k) == 2 + Quot(x - k - k, k);
    }
  }

  /** p is k doubled some number of times. */
  predicate Doubles(k: nat, p: nat)
    requires k >= 1
    decreases if k < p then p - k else 0
  {
    k == p || (2 * k <= p && Doubles(2 * k, p))
  }

  lemma {:induction false} DoublesMore(k: nat, p: nat)
    requires k >= 1 && Doubles(k, p)
    ensures Doubles(k, 2 * p)
    decreases if k < p then p - k else 0
  {
    if k == p {
      assert Doubles(2 * k, 2 * p);
    } else {
      DoublesMore(2 * k, p);
    }
  }

  lemma {:induction false} DoublesHalf(k: nat, p: nat)
    requires k >= 1 && Doubles(k, p) && k < p
    ensures p % 2 == 0 && Doubles(k, p / 2)
    decreases p - k
  {
    if 2 * k < p {
      DoublesHalf(2 * k, p);
    }
  }

  /** Positions in one row of width k are in one block of width p. */
  lemma {:induction false} SameRowSameBlock(x: nat, y: nat, k: nat, p: nat)
    requires k >= 1 && Doubles(k, p) && Quot(x, k) == Quot(y, k)
    ensures Quot(x, p) == Quot(y, p)
    decreases if k < p then p - k else 0
  {
    if k != p {
      RowPairs(x, k);
      RowPairs(y, k);
      SameRowSameBlock(x, y, 2 * k, p);
    }
  }

  // ---- the network ----

  /** x is the lower end of a compare-swap of stage (p, k) on n elements. */
  predicate IsLow(n: nat, p: nat, k: nat, x: nat)
    requires p >= 1 && k >= 1
  {
    && x + k < n
    && Quot(x, k) % 2 == (if k == p then 0 else 1)
    && Quot(x, 2 * p) == Quot(x + k, 2 * p)
  }

  /** The compare-swaps of stage (p, k) whose lower end is below `bound`, in order. */
  function StageSwaps(n: nat, p: nat, k: nat, bound: nat): seq<(nat, nat)>
    requires p >= 1 && k >= 1
  {
    if bound == 0 then []
    else
      StageSwaps(n, p, k, bound - 1)
      + (if IsLow(n, p, k, bound - 1) then [(bound - 1, bound - 1 + k)] else [])
  }

  function MergeSwaps(n: nat, p: nat, k: nat): seq<(nat, nat)>
    requires p >= 1
  {
    if k == 0 then [] else StageSwaps(n, p, k, n) + MergeSwaps(n, p, k / 2)
  }

  function NetworkSwaps(n: nat, p: nat): seq<(nat, nat)>
    requires p >= 1
    decreases if p < n then n - p else 0
  {
    if p >= n then [] else MergeSwaps(n, p, p) + NetworkSwaps(n, 2 * p)
  }

  // ---- rows, columns, blocks ----

  /** Positions in the same block of width w. */
  predicate Same(w: nat, x: nat, y: nat)
    requires w >= 1
  {
    Quot(x, w) == Quot(y, w)
  }

  ghost predicate BlocksSorted<T>(le: (T, T) -> bool, s: seq<T>, w: nat)
    requires w >= 1
  {
    forall x, y :: 0 <= x < y < |s| && Same(w, x, y) ==> le(s[x], s[y])
  }

  /** Each column of rows of width k is sorted inside its block of 2p. */
  ghost predicate Columns<T>(le: (T, T) -> bool, s: seq<T>, p: nat, k: nat)
    requires p >= 1
  {
    forall x, y :: 0 <= x && y < |s| && y == x + k && Same(2 * p, x, y) ==> le(s[x], s[y])
  }

  /** Every element of a row is below every element two rows further in the same block. */
  ghost predicate SkipRow<T>(le: (T, T) -> bool, s: seq<T>, p: nat, k: nat)
    requires p >= 1 && k >= 1
  {
    forall x, y :: 0 <= x < |s| && 0 <= y < |s| && Quot(y, k) == Quot(x, k) + 2 && Same(2 * p, x, y) ==> le(s[x], s[y])
  }

  ghost predicate Staged<T>(le: (T, T) -> bool, s: seq<T>, p: nat, k: nat)
    requires p >= 1 && k >= 1
  {
    Columns(le, s, p, k) && BlocksSorted(le, s, k) && SkipRow(le, s, p, k)
  }

  function Lower<T>(le: (T, T) -> bool, a: T, b: T): T {
    if le(a, b) then a else b
  }

  function Upper<T>(le: (T, T) -> bool, a: T, b: T): T {
    if le(a, b) then b else a
  }

  lemma Bounds<T(!new)>(le: (T, T) -> bool, a: T, b: T)
    requires TotalPreorder(le)
    ensures le(Lower(le, a, b), a) && le(Lower(le, a, b), b)
    ensures le(a, Upper(le, a, b)) && le(b, Upper(le, a, b))
  {
  }

  lemma LowerMonotone<T(!new)>(le: (T, T) -> bool, a: T, b: T, c: T, d: T)
    requires TotalPreorder(le) && le(a, c) && le(b, d)
    ensures le(Lower(le, a, b), Lower(le, c, d)) && le(Upper(le, a, b), Upper(le, c, d))
  {
  }

  /** A stage as one parallel step. */
  function StageAt<T>(le: (T, T) -> bool, s: seq<T>, p: nat, k: nat, x: nat): T
    requires p >= 1 && k >= 1 && x < |s|
  {
    if IsLow(|s|, p, k, x) then Lower(le, s[x], s[x + k])
    else if x >= k && IsLow(|s|, p, k, x - k) then Upper(le, s[x - k], s[x])
    else s[x]
  }

  /** The stage with only the compare-swaps whose lower end is below `bound`. */
  function PartAt<T>(le: (T, T) -> bool, s: seq<T>, p: nat, k: nat, bound: nat, x: nat): T
    requires p >= 1 && k >= 1 && x < |s|
  {
    if x < bound && IsLow(|s|, p, k, x) then StageAt(le, s, p, k, x)
    else if k <= x < k + bound && IsLow(|s|, p, k, x - k) then StageAt(le, s, p, k, x)
    else s[x]
  }

  /** The two ends of a compare-swap lie in rows of different parity, so a stage touches every
      position at most once. */
  lemma LowAndHighDiffer(n: nat, p: nat, k: nat, x: nat)
    requires p >= 1 && k >= 1 && IsLow(n, p, k, x)
    ensures !IsLow(n, p, k, x + k)
    ensures x >= k ==> !IsLow(n, p, k, x - k)
  {
  }

  lemma PartNext<T>(le: (T, T) -> bool, s: seq<T>, p: nat, k: nat, bound: nat, r: seq<T>, x: nat)
    requires p >= 1 && k >= 1 && |r| == |s| && x < |s|
    requires forall z :: 0 <= z < |s| ==> r[z] == PartAt(le, s, p, k, bound, z)
    ensures IsLow(|s|, p, k, bound) ==> CompareSwap(le, r, bound, bound + k)[x] == PartAt(le, s, p, k, bound + 1, x)
    ensures !IsLow(|s|, p, k, bound) ==> r[x] == PartAt(le, s, p, k, bound + 1, x)
  {
    if IsLow(|s|, p, k, bound) {
      LowAndHighDiffer(|s|, p, k, bound);
      assert r[bound] == s[bound] && r[bound + k] == s[bound + k];
    }
  }

  /** Doing the compare-swaps of a stage one after another is the parallel step. */
  lemma {:induction false} StageInOrder<T>(le: (T, T) -> bool, s: seq<T>, p: nat, k: nat, bound: nat)
    requires p >= 1 && k >= 1
    ensures forall x :: 0 <= x < |s| ==>
      ApplyAll(le, s, StageSwaps(|s|, p, k, bound))[x] == PartAt(le, s, p, k, bound, x)
  {
    if bound > 0 {
      var b := bound - 1;
      StageInOrder(le, s, p, k, b);
      var before := StageSwaps(|s|, p, k, b);
      var r := ApplyAll(le, s, before);
      var r' := ApplyAll(le, s, StageSwaps(|s|, p, k, bound));
      assert r' == if IsLow(|s|, p, k, b) then CompareSwap(le, r, b, b + k) else r by {
        if IsLow(|s|, p, k, b) {
          var swaps := before + [(b, b + k)];
          assert StageSwaps(|s|, p, k, bound) == swaps && swaps[..|swaps| - 1] == before;
        } else {
          assert before + [] == before;
        }
      }
      forall x | 0 <= x < |s| ensures r'[x] == PartAt(le, s, p, k, bound, x) {
        PartNext(le, s, p, k, b, r, x);
      }
    }
  }

  function Stage<T>(le: (T, T) -> bool, s: seq<T>, p: nat, k: nat): (r: seq<T>)
    requires p >= 1 && k >= 1
    ensures |r| == |s| && forall x :: 0 <= x < |s| ==> r[x] == StageAt(le, s, p, k, x)
  {
    seq(|s|, x requires 0 <= x < |s| => StageAt(le, s, p, k, x))
  }

  lemma StageIsParallel<T>(le: (T, T) -> bool, s: seq<T>, p: nat, k: nat)
    requires p >= 1 && k >= 1
    ensures ApplyAll(le, s, StageSwaps(|s|, p, k, |s|)) == Stage(le, s, p, k)
  {
    StageInOrder(le, s, p, k, |s|);
    var r := ApplyAll(le, s, StageSwaps(|s|, p, k, |s|));
    forall x | 0 <= x < |s| ensures r[x] == Stage(le, s, p, k)[x] {
      assert PartAt(le, s, p, k, |s|, x) == StageAt(le, s, p, k, x);
    }
  }

  // ---- one stage after another ----

  /** Where the ends of compare-swaps fall around a column step out of an even row. */
  lemma ColumnPlaces(n: nat, p: nat, k: nat, x: nat)
    requires 1 <= k < p && x + k < n && Same(2 * p, x, x + k) && Quot(x, k) % 2 == 0
    ensures !IsLow(n, p, k, x) && Same(2 * k, x, x + k)
    ensures x >= k ==> Quot(x + 2 * k, 2 * k) == Quot(x - k, 2 * k) + 2
  {
    RowPairs(x, k);
    RowPairs(x + k, k);
    RowPairs(x + 2 * k, k);
    assert Quot(x + 2 * k, k) == 1 + Quot(x + k, k);
    if x >= k {
      RowPairs(x - k, k);
    }
  }

  lemma ColumnNext<T(!new)>(le: (T, T) -> bool, s: seq<T>, p: nat, k: nat, x: nat)
    requires TotalPreorder(le) && 1 <= k < p
    requires Staged(le, s, p, 2 * k) && x + k < |s| && Same(2 * p, x, x + k)
    ensures le(StageAt(le, s, p, k, x), StageAt(le, s, p, k, x + k))
  {
    var y := x + k;
    if Quot(x, k) % 2 == 1 {
      LowAndHighDiffer(|s|, p, k, x);
    } else {
      ColumnPlaces(|s|, p, k, x);
      ColumnEven(le, s, p, k, x);
    }
  }

  lemma ColumnEven<T(!new)>(le: (T, T) -> bool, s: seq<T>, p: nat, k: nat, x: nat)
    requires TotalPreorder(le) && 1 <= k < p && x + k < |s|
    requires Columns(le, s, p, 2 * k) && BlocksSorted(le, s, 2 * k) && SkipRow(le, s, p, 2 * k)
    requires !IsLow(|s|, p, k, x) && Same(2 * k, x, x + k) && Same(2 * p, x, x + k)
    requires x >= k ==> Quot(x + 2 * k, 2 * k) == Quot(x - k, 2 * k) + 2
    ensures le(StageAt(le, s, p, k, x), StageAt(le, s, p, k, x + k))
  {
    var y := x + k;
    var low, high := x >= k && IsLow(|s|, p, k, x - k), IsLow(|s|, p, k, y);
    assert le(s[x], s[y]);
    var a, b := if low then s[x - k] else s[x], if high then s[y + k] else s[y];
    assert le(s[x], b) by {
      if high { assert y + k == x + 2 * k && Same(2 * p, x, y + k); }
    }
    assert le(a, s[y]) by {
      if low { assert y == (x - k) + 2 * k && Same(2 * p, x - k, y); }
    }
    assert le(a, b) by {
      if low && high { assert Same(2 * p, x - k, y + k); }
    }
    assert StageAt(le, s, p, k, x) == if low then Upper(le, a, s[x]) else s[x];
  }

  /** Positions of one row are lower ends together, but for the cut-off at the array's end. */
  lemma LowTogether(n: nat, p: nat, k: nat, x: nat, y: nat)
    requires k >= 1 && Doubles(k, 2 * p) && p >= 1 && x < y < n && Same(k, x, y)
    ensures IsLow(n, p, k, y) ==> IsLow(n, p, k, x)
    ensures x >= k ==> (IsLow(n, p, k, y - k) <==> IsLow(n, p, k, x - k))
    ensures x < k <==> y < k
  {
    SameRowSameBlock(x, y, k, 2 * p);
    SameRowSameBlock(x + k, y + k, k, 2 * p);
    if x >= k {
      SameRowSameBlock(x - k, y - k, k, 2 * p);
    }
  }

  lemma RowNext<T(!new)>(le: (T, T) -> bool, s: seq<T>, p: nat, k: nat, x: nat, y: nat)
    requires TotalPreorder(le) && k >= 1 && Doubles(2 * k, p) && p >= 1
    requires BlocksSorted(le, s, 2 * k) && x < y < |s| && Same(k, x, y)
    ensures le(StageAt(le, s, p, k, x), StageAt(le, s, p, k, y))
  {
    RowPairs(x, k);
    RowPairs(y, k);
    assert le(s[x], s[y]);
    DoublesMore(2 * k, p);
    LowTogether(|s|, p, k, x, y);
    if IsLow(|s|, p, k, x) {
      Bounds(le, s[x], s[x + k]);
      LowAndHighDiffer(|s|, p, k, x);
      if IsLow(|s|, p, k, y) {
        RowPairs(x + k, k);
        RowPairs(y + k, k);
        assert Same(2 * k, x + k, y + k);
        LowerMonotone(le, s[x], s[x + k], s[y], s[y + k]);
      }
    } else if x >= k && IsLow(|s|, p, k, x - k) {
      LowAndHighDiffer(|s|, p, k, x - k);
      LowAndHighDiffer(|s|, p, k, y - k);
      RowPairs(x - k, k);
      RowPairs(y - k, k);
      assert Same(2 * k, x - k, y - k);
      LowerMonotone(le, s[x - k], s[x], s[y - k], s[y]);
    }
  }

  /** A position between two of the same block is in that block. */
  lemma Between(x: nat, y: nat, z: nat, w: nat)
    requires w >= 1 && x <= y <= z && Same(w, x, z)
    ensures Same(w, x, y) && Same(w, y, z)
  {
    RowMonotone(x, y, w);
    RowMonotone(y, z, w);
  }

  lemma UpperBelow<T(!new)>(le: (T, T) -> bool, a: T, b: T, c: T, d: T)
    requires TotalPreorder(le) && le(b, c)
    ensures le(b, Upper(le, c, d))
    ensures le(a, d) ==> le(Upper(le, a, b), Upper(le, c, d))
  {
  }

  lemma LowerBelow<T(!new)>(le: (T, T) -> bool, a: T, b: T, c: T, d: T)
    requires TotalPreorder(le) && le(b, c)
    ensures le(Lower(le, a, b), c)
    ensures le(a, d) ==> le(Lower(le, a, b), Lower(le, c, d))
  {
  }

  /** Where the ends of compare-swaps fall when y is two rows after an even row's x. */
  lemma SkipEvenPlaces(n: nat, p: nat, k: nat, x: nat, y: nat)
    requires 1 <= k < p && x < n && y < n && Quot(y, k) == Quot(x, k) + 2 && Same(2 * p, x, y) && Quot(x, k) % 2 == 0
    ensures x + k < y && IsLow(n, p, k, y - k) && !IsLow(n, p, k, y) && !IsLow(n, p, k, x)
    ensures Same(2 * k, x, y - k)
    ensures x >= k ==> Quot(y, 2 * k) == Quot(x - k, 2 * k) + 2
  {
    if y <= x + k {
      RowMonotone(y, x + k, k);
    }
    Between(x, y - k, y, 2 * p);
    RowPairs(x, k);
    RowPairs(y - k, k);
    RowPairs(y, k);
    if x >= k {
      RowPairs(x - k, k);
    }
  }

  lemma SkipOddPlaces(n: nat, p: nat, k: nat, x: nat, y: nat)
    requires 1 <= k < p && x < n && y < n && Quot(y, k) == Quot(x, k) + 2 && Same(2 * p, x, y) && Quot(x, k) % 2 == 1
    ensures x + k < y && IsLow(n, p, k, x)
    ensures y >= k && !IsLow(n, p, k, y - k)
    ensures Same(2 * k, x + k, y)
    ensures Quot(y + k, 2 * k) == Quot(x, 2 * k) + 2
  {
    if y <= x + k {
      RowMonotone(y, x + k, k);
    }
    Between(x, x + k, y, 2 * p);
    RowPairs(x, k);
    RowPairs(x + k, k);
    RowPairs(y, k);
    RowPairs(y + k, k);
  }

  lemma SkipNext<T(!new)>(le: (T, T) -> bool, s: seq<T>, p: nat, k: nat, x: nat, y: nat)
    requires TotalPreorder(le) && 1 <= k < p
    requires BlocksSorted(le, s, 2 * k) && SkipRow(le, s, p, 2 * k)
    requires x < |s| && y < |s| && Quot(y, k) == Quot(x, k) + 2 && Same(2 * p, x, y)
    ensures le(StageAt(le, s, p, k, x), StageAt(le, s, p, k, y))
  {
    if Quot(x, k) % 2 == 0 {
      SkipEvenPlaces(|s|, p, k, x, y);
      assert le(s[x], s[y - k]);
      if x >= k {
        assert Same(2 * p, x - k, y) ==> le(s[x - k], s[y]);
        UpperBelow(le, s[x - k], s[x], s[y - k], s[y]);
      } else {
        UpperBelow(le, s[x], s[x], s[y - k], s[y]);
      }
    } else {
      SkipOddPlaces(|s|, p, k, x, y);
      assert le(s[x + k], s[y]);
      if y + k < |s| {
        assert Same(2 * p, x, y + k) ==> le(s[x], s[y + k]);
        LowerBelow(le, s[x], s[x + k], s[y], s[y + k]);
      } else {
        LowerBelow(le, s[x], s[x + k], s[y], s[y]);
      }
    }
  }

  lemma StageNext<T(!new)>(le: (T, T) -> bool, s: seq<T>, p: nat, k: nat)
    requires TotalPreorder(le) && k >= 1 && Doubles(2 * k, p) && p >= 1 && Staged(le, s, p, 2 * k)
    ensures Staged(le, Stage(le, s, p, k), p, k)
  {
    var r := Stage(le, s, p, k);
    forall x, y | 0 <= x && y < |r| && y == x + k && Same(2 * p, x, y) ensures le(r[x], r[y]) {
      ColumnNext(le, s, p, k, x);
    }
    forall x, y | 0 <= x < y < |r| && Same(k, x, y) ensures le(r[x], r[y]) {
      RowNext(le, s, p, k, x, y);
    }
    forall x, y | 0 <= x < |r| && 0 <= y < |r| && Quot(y, k) == Quot(x, k) + 2 &&
      Same(2 * p, x, y) ensures le(r[x], r[y]) {
      SkipNext(le, s, p, k, x, y);
    }
  }

  lemma FirstRow<T(!new)>(le: (T, T) -> bool, s: seq<T>, p: nat, x: nat, y: nat)
    requires TotalPreorder(le) && p >= 1 && BlocksSorted(le, s, p) && x < y < |s| && Same(p, x, y)
    ensures le(StageAt(le, s, p, p, x), StageAt(le, s, p, p, y))
  {
    assert le(s[x], s[y]);
    RowPairs(x, p);
    RowPairs(y, p);
    RowPairs(x + p, p);
    RowPairs(y + p, p);
    if Quot(x, p) % 2 == 0 {
      if IsLow(|s|, p, p, y) {
        assert Same(p, x + p, y + p);
        assert le(s[x + p], s[y + p]);
      }
      if x >= p { LowAndHighParity(|s|, p, x); LowAndHighParity(|s|, p, y); }
    } else {
      RowPairs(x - p, p);
      RowPairs(y - p, p);
      assert Same(p, x - p, y - p);
      assert le(s[x - p], s[y - p]);
    }
  }

  lemma LowAndHighParity(n: nat, p: nat, x: nat)
    requires p >= 1 && x >= p && Quot(x, p) % 2 == 0
    ensures !IsLow(n, p, p, x - p)
  {
  }

  /** The first stage of a merge turns two sorted halves into a staged block. */
  lemma StageFirst<T(!new)>(le: (T, T) -> bool, s: seq<T>, p: nat)
    requires TotalPreorder(le) && p >= 1 && BlocksSorted(le, s, p)
    ensures Staged(le, Stage(le, s, p, p), p, p)
  {
    var r := Stage(le, s, p, p);
    forall x, y | 0 <= x && y < |r| && y == x + p && Same(2 * p, x, y) ensures le(r[x], r[y]) {
      RowPairs(x, p);
      RowPairs(y, p);
      LowAndHighDiffer(|s|, p, p, x);
    }
    forall x, y | 0 <= x < y < |r| && Same(p, x, y) ensures le(r[x], r[y]) {
      FirstRow(le, s, p, x, y);
    }
    forall x, y | 0 <= x < |r| && 0 <= y < |r| && Quot(y, p) == Quot(x, p) + 2 ensures !Same(2 * p, x, y) {
      RowPairs(x, p);
      RowPairs(y, p);
    }
  }

  /** Sorted columns of width 1 are a sorted block. */
  lemma {:induction false} ColumnsOfOne<T(!new)>(le: (T, T) -> bool, s: seq<T>, p: nat, x: nat, y: nat)
    requires TotalPreorder(le) && p >= 1 && Columns(le, s, p, 1) && x < y < |s| && Same(2 * p, x, y)
    ensures le(s[x], s[y])
  {
    Between(x, y - 1, y, 2 * p);
    if x < y - 1 {
      ColumnsOfOne(le, s, p, x, y - 1);
    }
  }

  /** The stages k, k/2, ..., 1 of one merge. */
  lemma {:induction false} MergeFinishes<T(!new)>(le: (T, T) -> bool, s: seq<T>, p: nat, k: nat)
    requires TotalPreorder(le) && p >= 1 && k >= 1 && Doubles(1, k) && Doubles(k, p)
    requires Staged(le, s, p, k)
    ensures BlocksSorted(le, ApplyAll(le, s, MergeSwaps(|s|, p, k / 2)), 2 * p)
    decreases k
  {
    if k == 1 {
      assert ApplyAll(le, s, MergeSwaps(|s|, p, 0)) == s;
      forall x, y | 0 <= x < y < |s| && Same(2 * p, x, y) ensures le(s[x], s[y]) {
        ColumnsOfOne(le, s, p, x, y);
      }
    } else {
      var h := k / 2;
      DoublesHalf(1, k);
      var r := Stage(le, s, p, h);
      StageNext(le, s, p, h);
      StageIsParallel(le, s, p, h);
      ApplyAllConcat(le, s, StageSwaps(|s|, p, h, |s|), MergeSwaps(|s|, p, h / 2));
      MergeFinishes(le, r, p, h);
    }
  }

  /** One pass of the outer loop merges sorted blocks of p into sorted blocks of 2p. */
  lemma MergeSorts<T(!new)>(le: (T, T) -> bool, s: seq<T>, p: nat)
    requires TotalPreorder(le) && p >= 1 && Doubles(1, p) && BlocksSorted(le, s, p)
    ensures BlocksSorted(le, ApplyAll(le, s, MergeSwaps(|s|, p, p)), 2 * p)
  {
    StageFirst(le, s, p);
    StageIsParallel(le, s, p, p);
    ApplyAllConcat(le, s, StageSwaps(|s|, p, p, |s|), MergeSwaps(|s|, p, p / 2));
    MergeFinishes(le, Stage(le, s, p, p), p, p);
  }

  ghost predicate SortedBy<T>(le: (T, T) -> bool, s: seq<T>) {
    forall x, y :: 0 <= x < y < |s| ==> le(s[x], s[y])
  }

  lemma {:induction false} NetworkFromSorts<T(!new)>(le: (T, T) -> bool, s: seq<T>, p: nat)
    requires TotalPreorder(le) && p >= 1 && Doubles(1, p) && BlocksSorted(le, s, p)
    ensures SortedBy(le, ApplyAll(le, s, NetworkSwaps(|s|, p)))
    decreases if p < |s| then |s| - p else 0
  {
    if p >= |s| {
      assert forall x :: 0 <= x < |s| ==> Quot(x, p) == 0;
    } else {
      MergeSorts(le, s, p);
      DoublesMore(1, p);
      var r := ApplyAll(le, s, MergeSwaps(|s|, p, p));
      ApplyAllConcat(le, s, MergeSwaps(|s|, p, p), NetworkSwaps(|s|, 2 * p));
      NetworkFromSorts(le, r, 2 * p);
    }
  }

  /** Batcher's network sorts every input of every length under every total preorder, and
      only rearranges it. */
  lemma NetworkSorts<T(!new)>(le: (T, T) -> bool, s: seq<T>)
    requires TotalPreorder(le)
    ensures SortedBy(le, ApplyAll(le, s, NetworkSwaps(|s|, 1)))
    ensures multiset(ApplyAll(le, s, NetworkSwaps(|s|, 1))) == multiset(s)
  {
    forall x, y | 0 <= x < y < |s| ensures !Same(1, x, y) {
      QuotIsDiv(x, 1);
      QuotIsDiv(y, 1);
    }
    NetworkFromSorts(le, s, 1);
    ApplyAllPermutes(le, s, NetworkSwaps(|s|, 1));
  }
}
