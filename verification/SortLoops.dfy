/** The loops of emp-tool/circuits/sort.h over the network of module Sort. */
module SortLoops {
  import opened Powers
  import opened Sort

  /** `less` as the source's `operator<`: asymmetric, and incomparability is transitive. */
  ghost predicate StrictWeakOrder<K(!new)>(less: (K, K) -> bool) {
    && (forall a, b :: less(a, b) ==> !less(b, a))
    && (forall a, b, c :: less(a, c) ==> less(a, b) || less(b, c))
  }

  /** compare_swap's decision. */
  predicate OutOfOrder<K>(less: (K, K) -> bool, ascending: bool, a: K, b: K) {
    if ascending then less(b, a) else less(a, b)
  }

  function InOrder<K>(less: (K, K) -> bool, ascending: bool): (K, K) -> bool {
    (a: K, b: K) => !OutOfOrder(less, ascending, a, b)
  }

  function KeyOrder<K, P>(less: (K, K) -> bool, ascending: bool): ((K, P), (K, P)) -> bool {
    (a: (K, P), b: (K, P)) => !OutOfOrder(less, ascending, a.0, b.0)
  }

  lemma InOrderIsPreorder<K(!new)>(less: (K, K) -> bool, ascending: bool)
    requires StrictWeakOrder(less)
    ensures TotalPreorder(InOrder(less, ascending))
  {
  }

  lemma KeyOrderIsPreorder<K(!new), P(!new)>(less: (K, K) -> bool, ascending: bool)
    requires StrictWeakOrder(less)
    ensures TotalPreorder(KeyOrder<K, P>(less, ascending))
  {
  }

  // ---- the four nested loops ----

  lemma {:induction false} NoLows(n: nat, p: nat, k: nat, a: nat, b: nat)
    requires p >= 1 && k >= 1 && a <= b
    requires forall x :: a <= x < b ==> !IsLow(n, p, k, x)
    ensures StageSwaps(n, p, k, b) == StageSwaps(n, p, k, a)
  {
    if a < b {
      NoLows(n, p, k, a, b - 1);
    }
  }

  /** From row start j to the next row start j + 2k there is no lower end past this row. */
  lemma SkipToNextRow(n: nat, p: nat, k: nat, j: nat, i: nat)
    requires p >= 1 && k >= 1 && i <= k && (i == k || i + j + k >= n)
    requires RowStart(p, k, j)
    ensures StageSwaps(n, p, k, j + 2 * k) == StageSwaps(n, p, k, j + i)
  {
    forall x | j + i <= x < j + 2 * k ensures !IsLow(n, p, k, x) {
      if i == k {
        RowMonotone(j + k, x, k);
        RowMonotone(x, j + 2 * k - 1, k);
        assert Quot(j + 2 * k - 1, k) == 1 + Quot(j + k - 1, k);
      }
    }
    NoLows(n, p, k, j + i, j + 2 * k);
  }

  lemma RemainderSmall(k: nat, p: nat)
    requires 1 <= k <= p
    ensures k % p == if k == p then 0 else k
  {
    if k == p {
      RemainderUnique(k, p, 1, 0);
    } else {
      RemainderUnique(k, p, 0, k);
    }
  }

  /** j starts a row whose positions are lower ends. */
  predicate RowStart(p: nat, k: nat, j: nat)
    requires k >= 1
  {
    Quot(j + k - 1, k) == Quot(j, k) && Quot(j, k) % 2 == if k == p then 0 else 1
  }

  lemma RowStartNext(p: nat, k: nat, j: nat)
    requires k >= 1 && RowStart(p, k, j)
    ensures RowStart(p, k, j + 2 * k)
  {
    assert Quot(j + 2 * k + k - 1, k) == 1 + Quot(j + k + k - 1, k) == 2 + Quot(j + k - 1, k);
    assert Quot(j + 2 * k, k) == 1 + Quot(j + k, k) == 2 + Quot(j, k);
  }

  /** Inside such a row the source's block test decides the lower ends. */
  lemma LowTest(n: nat, p: nat, k: nat, j: nat, i: nat)
    requires 1 <= k <= p && RowStart(p, k, j) && i < k && i + j + k < n
    ensures IsLow(n, p, k, j + i) <==> (i + j) / (2 * p) == (i + j + k) / (2 * p)
  {
    RowMonotone(j, i + j, k);
    RowMonotone(i + j, j + k - 1, k);
    QuotIsDiv(i + j, 2 * p);
    QuotIsDiv(i + j + k, 2 * p);
  }

  lemma StageStart(n: nat, p: nat, k: nat)
    requires 1 <= k <= p
    ensures RowStart(p, k, k % p) && StageSwaps(n, p, k, k % p) == []
  {
    RemainderSmall(k, p);
    assert Quot(k - 1, k) == 0;
    if k < p {
      assert Quot(k + k - 1, k) == 1 + Quot(k - 1, k);
      forall x | 0 <= x < k ensures Quot(x, k) == 0 {
      }
      NoLows(n, p, k, 0, k);
    }
  }

  lemma StageEnd(n: nat, p: nat, k: nat, j: nat)
    requires p >= 1 && k >= 1 && j + k >= n
    ensures StageSwaps(n, p, k, j) == StageSwaps(n, p, k, n)
  {
    if j <= n {
      NoLows(n, p, k, j, n);
    } else {
      NoLows(n, p, k, n, j);
    }
  }

  /** The loop over i. */
  method RowLoop(n: nat, p: nat, k: nat, j: nat, before: seq<(nat, nat)>) returns (swaps: seq<(nat, nat)>)
    requires 1 <= k <= p && RowStart(p, k, j)
    ensures exists row :: swaps == before + row && StageSwaps(n, p, k, j) + row == StageSwaps(n, p, k, j + 2 * k)
  {
    swaps := before;
    ghost var row: seq<(nat, nat)> := [];
    var i := 0;
    while i < k && i + j + k < n
      invariant 0 <= i <= k
      invariant swaps == before + row
      invariant StageSwaps(n, p, k, j) + row == StageSwaps(n, p, k, j + i)
    {
      LowTest(n, p, k, j, i);
      if (i + j) / (2 * p) == (i + j + k) / (2 * p) {
        swaps := swaps + [(i + j, i + j + k)];
        row := row + [(i + j, i + j + k)];
      }
      i := i + 1;
    }
    SkipToNextRow(n, p, k, j, i);
  }

  /** The loop over j. */
  method StageLoop(n: nat, p: nat, k: nat, before: seq<(nat, nat)>) returns (swaps: seq<(nat, nat)>)
    requires 1 <= k <= p
    ensures swaps == before + StageSwaps(n, p, k, n)
  {
    swaps := before;
    var j := k % p;
    StageStart(n, p, k);
    while j + k < n
      invariant RowStart(p, k, j)
      invariant swaps == before + StageSwaps(n, p, k, j)
    {
      swaps := RowLoop(n, p, k, j, swaps);
      RowStartNext(p, k, j);
      j := j + 2 * k;
    }
    StageEnd(n, p, k, j);
  }

  lemma MergeSplit(n: nat, p: nat, k: nat, before: seq<(nat, nat)>)
    requires p >= 1 && k >= 1
    ensures before + StageSwaps(n, p, k, n) + MergeSwaps(n, p, k / 2) == before + MergeSwaps(n, p, k)
  {
    var a, b := StageSwaps(n, p, k, n), MergeSwaps(n, p, k / 2);
    assert before + a + b == before + (a + b);
  }

  lemma NetworkSplit(n: nat, p: nat, before: seq<(nat, nat)>)
    requires 1 <= p < n
    ensures before + MergeSwaps(n, p, p) + NetworkSwaps(n, 2 * p) == before + NetworkSwaps(n, p)
  {
    var a, b := MergeSwaps(n, p, p), NetworkSwaps(n, 2 * p);
    assert before + a + b == before + (a + b);
  }

  /** The loop over k. */
  method MergeLoop(n: nat, p: nat, before: seq<(nat, nat)>) returns (swaps: seq<(nat, nat)>)
    requires p >= 1
    ensures swaps == before + MergeSwaps(n, p, p)
  {
    swaps := before;
    var k := p;
    while k >= 1
      invariant 0 <= k <= p
      invariant swaps + MergeSwaps(n, p, k) == before + MergeSwaps(n, p, p)
    {
      ghost var atK := swaps;
      swaps := StageLoop(n, p, k, swaps);
      MergeSplit(n, p, k, atK);
      k := k / 2;
    }
  }

  /** The compare-swaps in the order the source invokes them. They depend on n only. */
  method BatcherNetwork(n: nat) returns (swaps: seq<(nat, nat)>)
    ensures swaps == NetworkSwaps(n, 1)
  {
    swaps := [];
    var p := 1;
    while p < n
      invariant p >= 1
      invariant swaps + NetworkSwaps(n, p) == NetworkSwaps(n, 1)
      decreases n - p
    {
      ghost var atP := swaps;
      swaps := MergeLoop(n, p, swaps);
      NetworkSplit(n, p, atP);
      p := 2 * p;
    }
  }

  // ---- sort and sort_by_key ----

  lemma {:induction false} StageInRange(n: nat, p: nat, k: nat, bound: nat, i: nat)
    requires p >= 1 && k >= 1 && i < |StageSwaps(n, p, k, bound)|
    ensures StageSwaps(n, p, k, bound)[i].0 < StageSwaps(n, p, k, bound)[i].1 < n
  {
    if i < |StageSwaps(n, p, k, bound - 1)| {
      StageInRange(n, p, k, bound - 1, i);
    }
  }

  lemma {:induction false} MergeInRange(n: nat, p: nat, k: nat, i: nat)
    requires p >= 1 && i < |MergeSwaps(n, p, k)|
    ensures MergeSwaps(n, p, k)[i].0 < MergeSwaps(n, p, k)[i].1 < n
  {
    var first := StageSwaps(n, p, k, n);
    if i < |first| {
      StageInRange(n, p, k, n, i);
    } else {
      MergeInRange(n, p, k / 2, i - |first|);
    }
  }

  /** The network never names a position outside the array. */
  lemma {:induction false} NetworkInRange(n: nat, p: nat, i: nat)
    requires p >= 1 && i < |NetworkSwaps(n, p)|
    ensures NetworkSwaps(n, p)[i].0 < NetworkSwaps(n, p)[i].1 < n
    decreases if p < n then n - p else 0
  {
    var first := MergeSwaps(n, p, p);
    if i < |first| {
      MergeInRange(n, p, p, i);
    } else {
      NetworkInRange(n, 2 * p, i - |first|);
    }
  }

  /** Sorts the array in place, ascending or descending. */
  method SortArray<K(!new)>(a: array<K>, less: (K, K) -> bool, ascending: bool)
    requires StrictWeakOrder(less)
    modifies a
    ensures SortedBy(InOrder(less, ascending), a[..])
    ensures multiset(a[..]) == multiset(old(a[..]))
  {
    var n := a.Length;
    var swaps := BatcherNetwork(n);
    ghost var le, s := InOrder(less, ascending), a[..];
    for t := 0 to |swaps|
      invariant a[..] == ApplyAll(le, s, swaps[..t])
    {
      NetworkInRange(n, 1, t);
      var (i, j) := swaps[t];
      ghost var was := a[..];
      if OutOfOrder(less, ascending, a[i], a[j]) {
        a[i], a[j] := a[j], a[i];
      }
      assert swaps[..t + 1][..t] == swaps[..t];
      assert a[..] == CompareSwap(le, was, i, j);
    }
    assert swaps[..|swaps|] == swaps;
    InOrderIsPreorder(less, ascending);
    NetworkSorts(le, s);
  }

  ghost function Zip<K, P>(k: seq<K>, d: seq<P>): (r: seq<(K, P)>)
    requires |k| == |d|
    ensures |r| == |k| && forall i :: 0 <= i < |k| ==> r[i] == (k[i], d[i])
  {
    seq(|k|, i requires 0 <= i < |k| => (k[i], d[i]))
  }

  lemma ZipSwap<K, P>(k: seq<K>, d: seq<P>, i: nat, j: nat)
    requires |k| == |d| && i < |k| && j < |k|
    ensures Zip(k[i := k[j]][j := k[i]], d[i := d[j]][j := d[i]]) == Zip(k, d)[i := Zip(k, d)[j]][j := Zip(k, d)[i]]
  {
  }

  /** compare_swap on keys and payloads: the keys decide, both move. */
  method CompareSwapPair<K(!new), P(!new)>(keys: array<K>, data: array<P>, less: (K, K) -> bool, ascending: bool,
                                           i: nat, j: nat)
    requires keys as object != data && keys.Length == data.Length && i < j < keys.Length
    modifies keys, data
    ensures Zip(keys[..], data[..]) == CompareSwap(KeyOrder<K, P>(less, ascending), old(Zip(keys[..], data[..])), i, j)
  {
    if OutOfOrder(less, ascending, keys[i], keys[j]) {
      ghost var k, d := keys[..], data[..];
      keys[i], keys[j] := keys[j], keys[i];
      data[i], data[j] := data[j], data[i];
      assert keys[..] == k[i := k[j]][j := k[i]] && data[..] == d[i := d[j]][j := d[i]];
      ZipSwap(k, d, i, j);
    }
  }

  /** Sorts by key and moves each payload with its key; unequal lengths are refused. */
  method SortByKey<K(!new), P(!new)>(keys: array<K>, data: array<P>, less: (K, K) -> bool,
                                     ascending: bool) returns (ok: bool)
    requires StrictWeakOrder(less) && keys as object != data
    modifies keys, data
    ensures ok <==> keys.Length == data.Length
    ensures !ok ==> keys[..] == old(keys[..]) && data[..] == old(data[..])
    ensures ok ==> SortedBy(InOrder(less, ascending), keys[..])
    ensures ok ==> multiset(Zip(keys[..], data[..])) == multiset(old(Zip(keys[..], data[..])))
  {
    var n := keys.Length;
    if n != data.Length { return false; }
    var swaps := BatcherNetwork(n);
    ghost var le, s := KeyOrder<K, P>(less, ascending), Zip(keys[..], data[..]);
    for t := 0 to |swaps|
      invariant Zip(keys[..], data[..]) == ApplyAll(le, s, swaps[..t])
    {
      NetworkInRange(n, 1, t);
      var (i, j) := swaps[t];
      CompareSwapPair(keys, data, less, ascending, i, j);
      assert swaps[..t + 1][..t] == swaps[..t];
    }
    assert swaps[..|swaps|] == swaps;
    KeyOrderIsPreorder<K, P>(less, ascending);
    NetworkSorts(le, s);
    forall x, y | 0 <= x < y < n ensures InOrder(less, ascending)(keys[x], keys[y]) {
      assert le(Zip(keys[..], data[..])[x], Zip(keys[..], data[..])[y]);
    }
    return true;
  }
}
