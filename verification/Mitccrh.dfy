/** The garbling hash and its key schedule (emp-tool/runtime/crypto/mitccrh.h) over the memory
    tiles of emp-tool/runtime/crypto/aes.hpp. */
module Mitccrh {

  import opened Powers

  const TWO64: nat := 0x1_0000_0000_0000_0000

  /** A uint64_t. */
  type Gid = g: nat | g < TWO64

  /** ~0, "no bucket is scheduled". */
  const NO_BUCKET: Gid := 0xFFFF_FFFF_FFFF_FFFF

  /** On blocks B: AES under a key, the orthomorphism sigma, makeBlock(g, 0) and exclusive or.
      Nothing is supposed about any of them here. */
  datatype Primitives<!B> = Primitives(
    aes: (B, B) -> B, sigma: B -> B, word: Gid -> B, xor: (B, B) -> B)

  function Wrap(g: nat): Gid {
    g % TWO64
  }

  lemma BucketBetween(shift: nat, x: Gid, y: Gid, z: Gid)
    requires x <= y <= z && BucketOf(shift, x) == BucketOf(shift, z)
    ensures BucketOf(shift, y) == BucketOf(shift, x)
  {
    BucketMonotone(shift, x, y);
    BucketMonotone(shift, y, z);
  }

  lemma WrapBelow(g: nat)
    requires g < TWO64
    ensures Wrap(g) == g
  {
  }

  lemma WrapPlus(g: nat, n: nat)
    ensures Wrap(Wrap(g) + n) == Wrap(g + n)
  {
  }

  /** g >> shift. */
  function BucketOf(shift: nat, g: Gid): (b: Gid)
    ensures b <= g && (shift >= 1 ==> b <= g / 2)
  {
    if shift == 0 then g else BucketOf(shift - 1, g / 2)
  }

  /** Davies-Meyer on the tweaked input. */
  function Fold<B>(p: Primitives<B>, key: B, cir: bool, x: B, g: Gid): B {
    var y := p.xor(if cir then p.sigma(x) else x, p.word(g));
    p.xor(y, p.aes(key, y))
  }

  /** The key gid g belongs to. */
  function KeyAt<B>(p: Primitives<B>, s: B, shift: nat, g: Gid): B {
    p.xor(s, p.word(BucketOf(shift, g)))
  }

  /** The one-line meaning of the hash: block x under gid g (mod 2^64), for start point s. */
  function HashAt<B>(p: Primitives<B>, s: B, shift: nat, cir: bool, x: B, g: nat): B {
    Fold(p, KeyAt(p, s, shift, Wrap(g)), cir, x, Wrap(g))
  }

  // ---- buckets ----

  lemma {:induction false} BucketMonotone(shift: nat, x: Gid, y: Gid)
    requires x <= y
    ensures BucketOf(shift, x) <= BucketOf(shift, y)
  {
    if shift > 0 {
      BucketMonotone(shift - 1, x / 2, y / 2);
    }
  }

  /** Gids 2^shift apart never share a bucket. */
  lemma {:induction false} BucketApart(shift: nat, x: Gid, y: Gid)
    requires y + Pow2(shift) <= x
    ensures BucketOf(shift, y) < BucketOf(shift, x)
  {
    if shift > 0 {
      BucketApart(shift - 1, x / 2, y / 2);
    }
  }

  lemma ReuseBound(shift: nat)
    requires shift < 32
    ensures Pow2(shift) <= 0x1_0000_0000
  {
    Pow2Monotone(shift, 32);
    Pow2Byte(0);
    Pow2Byte(8);
    Pow2Byte(16);
    Pow2Byte(24);
  }

  /** A batch that runs past 2^64 does not start and end in one bucket. */
  lemma WrappedBatchIsMixed(shift: nat, g: Gid, batch: nat)
    requires shift < 32 && 1 <= batch < 0x8000_0000 && g + batch - 1 >= TWO64
    ensures BucketOf(shift, Wrap(g + batch - 1)) < BucketOf(shift, g)
  {
    ReuseBound(shift);
    BucketApart(shift, g, Wrap(g + batch - 1));
  }

  /** If the first and the last gid of a batch share a bucket, the whole batch does, also next to
      the wrap-around of the counter. */
  lemma UniformBatch(shift: nat, g: Gid, batch: nat, k: nat)
    requires shift < 32 && 1 <= batch < 0x8000_0000 && k < batch
    requires BucketOf(shift, g) == BucketOf(shift, Wrap(g + batch - 1))
    ensures BucketOf(shift, Wrap(g + k)) == BucketOf(shift, g)
  {
    if g + batch - 1 >= TWO64 {
      WrappedBatchIsMixed(shift, g, batch);
    } else {
      WrapBelow(g + k);
      WrapBelow(g + batch - 1);
      BucketBetween(shift, g, g + k, g + batch - 1);
    }
  }

  /** The bucket of g is g / 2^shift. */
  lemma {:induction false} BucketIsQuotient(shift: nat, g: Gid)
    ensures BucketOf(shift, g) == g / Pow2(shift)
  {
    if shift > 0 {
      BucketIsQuotient(shift - 1, g / 2);
      HalfThenQuotient(g, Pow2(shift - 1));
    }
  }

  lemma HalfThenQuotient(g: nat, m: nat)
    requires m >= 1
    ensures g / (2 * m) == g / 2 / m
  {
    var q, r := g / 2 / m, g / 2 % m;
    assert g / 2 == m * q + r;
    Double(q, m);
    RemainderUnique(g, 2 * m, q, 2 * r + g % 2);
  }

  // ---- lanes of h blocks ----

  /** i % h; block i of a call with h blocks a lane belongs to lane Quot(i, h). */
  function BlockOf(i: nat, h: nat): (b: nat)
    requires h >= 1
    ensures b < h && b <= i
  {
    if i < h then i else BlockOf(i - h, h)
  }

  lemma {:induction false} LaneSplit(i: nat, h: nat)
    requires h >= 1
    ensures i == Quot(i, h) * h + BlockOf(i, h)
  {
    if i >= h {
      LaneSplit(i - h, h);
      assert (1 + Quot(i - h, h)) * h == h + Quot(i - h, h) * h;
    }
  }

  lemma {:induction false} LaneAt(k: nat, b: nat, h: nat)
    requires h >= 1 && b < h
    ensures Quot(k * h + b, h) == k && BlockOf(k * h + b, h) == b
  {
    if k > 0 {
      LaneAt(k - 1, b, h);
      assert k * h == (k - 1) * h + h;
      assert (k - 1) * h >= 0;
    }
  }

  lemma LaneBelow(i: nat, h: nat, n: nat)
    requires h >= 1 && i < n * h
    ensures Quot(i, h) < n
  {
    LaneSplit(i, h);
    var l := Quot(i, h);
    Times(l, n, h);
    if l >= n {
      assert false;
    }
  }

  lemma WholeLanes(x: nat, h: nat)
    requires h >= 1 && x % h == 0
    ensures BlockOf(x, h) == 0
  {
    LaneAt(x / h, 0, h);
    assert x == (x / h) * h + 0;
  }

  // ---- memory tiles ----

  /** What a key's run holds at block b: lane b / span of the run is span blocks under one gid. */
  function RunBlock<B>(p: Primitives<B>, key: B, cir: bool, base: nat, span: nat, x: B, b: nat): B
    requires span >= 1
  {
    Fold(p, key, cir, x, Wrap(base + Quot(b, span)))
  }

  /** `tiles` tiles of `width` blocks of the run starting at `start`, from block index `from` on.
      `dst` and `src` are one array or two. */
  method ApplyTiles<B>(p: Primitives<B>, key: B, cir: bool, base: nat, span: nat, dst: array<B>, src: array<B>,
                    start: nat, from: nat, width: nat, tiles: nat)
    requires span >= 1 && start <= from && from + tiles * width <= dst.Length == src.Length
    modifies dst
    ensures forall i :: from <= i < from + tiles * width ==>
      dst[i] == RunBlock(p, key, cir, base, span, old(src[i]), i - start)
    ensures forall i :: 0 <= i < dst.Length && !(from <= i < from + tiles * width) ==> dst[i] == old(dst[i])
  {
    var end := from + tiles * width;
    var at := from;
    for t := 0 to tiles
      invariant at == from + t * width
      invariant forall i :: from <= i < at ==> dst[i] == RunBlock(p, key, cir, base, span, old(src[i]), i - start)
      invariant forall i :: 0 <= i < dst.Length && !(from <= i < at) ==> dst[i] == old(dst[i])
    {
      NextRun(t, tiles, width);
      var tile := src[at..at + width];
      for j := 0 to width
        invariant forall i :: from <= i < at + j ==> dst[i] == RunBlock(p, key, cir, base, span, old(src[i]), i - start)
        invariant forall i :: 0 <= i < dst.Length && !(from <= i < at + j) ==> dst[i] == old(dst[i])
      {
        dst[at + j] := Fold(p, key, cir, tile[j], Wrap(base + Quot(at + j - start, span)));
      }
      at := at + width;
    }
  }

  /** Tiles of four lanes in groups of at most four. */
  method ApplyGrouped<B>(p: Primitives<B>, key: B, cir: bool, base: nat, span: nat, dst: array<B>, src: array<B>,
                      start: nat, from: nat, tiles: nat)
    requires span >= 1 && start <= from && from + 4 * tiles <= dst.Length == src.Length
    modifies dst
    ensures forall i :: from <= i < from + 4 * tiles ==>
      dst[i] == RunBlock(p, key, cir, base, span, old(src[i]), i - start)
    ensures forall i :: 0 <= i < dst.Length && !(from <= i < from + 4 * tiles) ==> dst[i] == old(dst[i])
    decreases tiles
  {
    if tiles > 4 {
      ApplyTiles(p, key, cir, base, span, dst, src, start, from, 4, 4);
      ApplyGrouped(p, key, cir, base, span, dst, src, start, from + 16, tiles - 4);
    } else if tiles > 0 {
      ApplyTiles(p, key, cir, base, span, dst, src, start, from, 4, tiles);
    }
  }

  /** One key's run of n blocks, cut into tiles of 4, 2 and 1 as the machine allows. */
  method EncryptRun<B>(p: Primitives<B>, key: B, cir: bool, base: nat, span: nat, dst: array<B>, src: array<B>,
                    start: nat, n: nat, wide4: bool, wide2: bool)
    requires span >= 1 && start + n <= dst.Length == src.Length
    modifies dst
    ensures forall i :: start <= i < start + n ==> dst[i] == RunBlock(p, key, cir, base, span, old(src[i]), i - start)
    ensures forall i :: 0 <= i < dst.Length && !(start <= i < start + n) ==> dst[i] == old(dst[i])
  {
    var n4 := if wide4 then n / 4 else 0;
    var n2 := if wide2 then (n - 4 * n4) / 2 else 0;
    var n1 := n - 4 * n4 - 2 * n2;
    ApplyGrouped(p, key, cir, base, span, dst, src, start, start, n4);
    ApplyTiles(p, key, cir, base, span, dst, src, start, start + 4 * n4, 2, n2);
    ApplyTiles(p, key, cir, base, span, dst, src, start, start + 4 * n4 + 2 * n2, 1, n1);
  }

  /** Block i of runs of n blocks: run k goes under keys[k] from gid bases[k] on. */
  function TileBlock<B>(p: Primitives<B>, keys: seq<B>, cir: bool, bases: seq<nat>, span: nat, n: nat, x: B, i: nat): B
    requires span >= 1 && n >= 1 && |keys| == |bases| && i < |keys| * n
  {
    LaneBelow(i, n, |keys|);
    RunBlock(p, keys[Quot(i, n)], cir, bases[Quot(i, n)], span, x, BlockOf(i, n))
  }

  function TileAll<B>(p: Primitives<B>, keys: seq<B>, cir: bool, bases: seq<nat>, span: nat, n: nat, xs: seq<B>): seq<B>
    requires span >= 1 && n >= 1 && |keys| == |bases| && |xs| == |keys| * n
  {
    seq(|xs|, i requires 0 <= i < |xs| => TileBlock(p, keys, cir, bases, span, n, xs[i], i))
  }

  lemma NextRun(k: nat, m: nat, n: nat)
    requires k < m
    ensures k * n + n == (k + 1) * n <= m * n
  {
    assert (m - k - 1) * n >= 0;
    assert (m - k - 1) * n == m * n - (k + 1) * n;
  }

  method EncryptTiles<B>(p: Primitives<B>, keys: seq<B>, cir: bool, bases: seq<nat>, span: nat, dst: array<B>,
                         src: array<B>,
                         n: nat, wide4: bool, wide2: bool)
    requires span >= 1 && n >= 1 && |keys| == |bases| && dst.Length == src.Length == |keys| * n
    modifies dst
    ensures dst[..] == TileAll(p, keys, cir, bases, span, n, old(src[..]))
  {
    var start := 0;
    for k := 0 to |keys|
      invariant start == k * n <= dst.Length
      invariant forall i :: 0 <= i < start ==> dst[i] == TileBlock(p, keys, cir, bases, span, n, old(src[i]), i)
      invariant forall i :: start <= i < dst.Length ==> dst[i] == old(dst[i])
    {
      NextRun(k, |keys|, n);
      EncryptRun(p, keys[k], cir, bases[k], span, dst, src, start, n, wide4, wide2);
      forall i | start <= i < start + n
        ensures Quot(i, n) == k && BlockOf(i, n) == i - start
      {
        LaneAt(k, i - start, n);
      }
      start := start + n;
    }
    assert dst[..] == TileAll(p, keys, cir, bases, span, n, old(src[..]));
  }

  // ---- the gid stream ----

  /** Where a hash object stands, with gids not wrapped: the next schedule starts at `next`, and
      `used` lanes of the current one, [next - batch, next), are spent. */
  datatype Cursor = Cursor(next: nat, used: nat)

  predicate CursorOk(batch: nat, c: Cursor) {
    c.used <= batch && (c.used < batch ==> batch <= c.next)
  }

  /** The first gid of a call that takes k lanes. */
  function First(batch: nat, c: Cursor, k: nat): nat
    requires CursorOk(batch, c) && 1 <= k <= batch
  {
    if c.used + k > batch then c.next else c.next - batch + c.used
  }

  lemma FirstIs(batch: nat, c: Cursor, k: nat, g0: Gid)
    requires CursorOk(batch, c) && 1 <= k && c.used + k <= batch && g0 == Wrap(c.next - batch)
    ensures Wrap(First(batch, c, k)) == Wrap(g0 + c.used)
  {
    WrapPlus(c.next - batch, c.used);
  }

  function Take(batch: nat, c: Cursor, k: nat): (r: Cursor)
    requires CursorOk(batch, c) && 1 <= k <= batch
    ensures CursorOk(batch, r)
  {
    if c.used + k > batch then Cursor(c.next + batch, k) else Cursor(c.next, c.used + k)
  }

  predicate Calls(batch: nat, ks: seq<nat>) {
    forall i :: 0 <= i < |ks| ==> 1 <= ks[i] <= batch
  }

  /** The cursor before call n of a run. */
  function After(batch: nat, c: Cursor, ks: seq<nat>, n: nat): (r: Cursor)
    requires CursorOk(batch, c) && Calls(batch, ks) && n <= |ks|
    ensures CursorOk(batch, r)
  {
    if n == 0 then c else Take(batch, After(batch, c, ks, n - 1), ks[n - 1])
  }

  /** Before wrapping, every call's gids lie strictly after those of every earlier call, whatever lane
      counts are mixed. */
  lemma {:induction false} GidsNeverRepeat(batch: nat, c: Cursor, ks: seq<nat>, i: nat, j: nat)
    requires CursorOk(batch, c) && Calls(batch, ks) && i < j < |ks|
    ensures First(batch, After(batch, c, ks, i), ks[i]) + ks[i] <= First(batch, After(batch, c, ks, j), ks[j])
    decreases j
  {
    if j - 1 > i {
      GidsNeverRepeat(batch, c, ks, i, j - 1);
    }
  }

  lemma WrapOnce(g: nat)
    requires TWO64 <= g < 2 * TWO64
    ensures Wrap(g) == g - TWO64
  {
  }

  /** On the 64-bit gids that are hashed, a later call lies strictly after an earlier one exactly as
      long as the counter has not wrapped. */
  lemma GidsIncreaseUntilWrap(batch: nat, c: Cursor, ks: seq<nat>, i: nat, j: nat)
    requires CursorOk(batch, c) && Calls(batch, ks) && i < j < |ks|
    requires First(batch, After(batch, c, ks, i), ks[i]) < TWO64
    requires First(batch, After(batch, c, ks, j), ks[j]) < First(batch, After(batch, c, ks, i), ks[i]) + TWO64
    ensures
      var f, g := First(batch, After(batch, c, ks, i), ks[i]), First(batch, After(batch, c, ks, j), ks[j]);
      Wrap(f) + ks[i] <= Wrap(g) <==> g < TWO64
  {
    var f, g := First(batch, After(batch, c, ks, i), ks[i]), First(batch, After(batch, c, ks, j), ks[j]);
    GidsNeverRepeat(batch, c, ks, i, j);
    WrapBelow(f);
    if g < TWO64 {
      WrapBelow(g);
    } else {
      WrapOnce(g);
    }
  }

  /** Two numbers less than a turn apart have different gids. */
  lemma WrapApart(f: nat, g: nat)
    requires f < g < f + TWO64
    ensures Wrap(f) != Wrap(g)
  {
  }

  /** The gid lane a of a call from f on hashes. */
  function LaneGid(f: nat, a: nat): Gid {
    Wrap(f + a)
  }

  /** No lane of one call hashes a gid that a lane of the other hashes. */
  ghost predicate GidsApart(f: nat, k: nat, g: nat, l: nat) {
    forall a: nat, b: nat :: a < k && b < l ==> LaneGid(f, a) != LaneGid(g, b)
  }

  lemma WrapTurn(f: nat)
    ensures Wrap(f + TWO64) == Wrap(f)
  {
  }

  lemma RangesApart(f: nat, k: nat, g: nat, l: nat)
    requires f + k <= g < f + TWO64 && k >= 1
    ensures GidsApart(f, k, g, l) <==> g + l <= f + TWO64
  {
    if g + l <= f + TWO64 {
      forall a: nat, b: nat | a < k && b < l
        ensures LaneGid(f, a) != LaneGid(g, b)
      {
        WrapApart(f + a, g + b);
      }
    } else {
      WrapTurn(f);
      assert LaneGid(f, 0) == LaneGid(g, f + TWO64 - g);
    }
  }

  /** Two calls share no 64-bit gid if and only if the later one ends within a turn of where the
      earlier one began. */
  lemma GidsApartIff(batch: nat, c: Cursor, ks: seq<nat>, i: nat, j: nat)
    requires CursorOk(batch, c) && Calls(batch, ks) && i < j < |ks|
    requires First(batch, After(batch, c, ks, j), ks[j]) < First(batch, After(batch, c, ks, i), ks[i]) + TWO64
    ensures
      var f, g := First(batch, After(batch, c, ks, i), ks[i]), First(batch, After(batch, c, ks, j), ks[j]);
      GidsApart(f, ks[i], g, ks[j]) <==> g + ks[j] <= f + TWO64
  {
    var f, g := First(batch, After(batch, c, ks, i), ks[i]), First(batch, After(batch, c, ks, j), ks[j]);
    GidsNeverRepeat(batch, c, ks, i, j);
    RangesApart(f, ks[i], g, ks[j]);
  }

  /** Over a whole run that takes no more than 2^64 gids, no 64-bit gid is hashed twice. */
  lemma RunNeverRepeatsGids(batch: nat, c: Cursor, ks: seq<nat>, i: nat, j: nat)
    requires CursorOk(batch, c) && Calls(batch, ks) && i < j < |ks|
    requires First(batch, After(batch, c, ks, |ks| - 1), ks[|ks| - 1]) + ks[|ks| - 1]
          <= First(batch, After(batch, c, ks, 0), ks[0]) + TWO64
    ensures GidsApart(First(batch, After(batch, c, ks, i), ks[i]), ks[i],
                      First(batch, After(batch, c, ks, j), ks[j]), ks[j])
  {
    if 0 < i {
      GidsNeverRepeat(batch, c, ks, 0, i);
    }
    if j < |ks| - 1 {
      GidsNeverRepeat(batch, c, ks, j, |ks| - 1);
    }
    GidsApartIff(batch, c, ks, i, j);
  }

  /** The order does break: from renew_ks(2^64 - 1) with one lane a batch, the second call hashes
      gid 0. */
  lemma GidsWrap()
    ensures
      var c := Cursor(TWO64, 0);
      && CursorOk(1, c) && Calls(1, [1, 1])
      && Wrap(First(1, After(1, c, [1, 1], 0), 1)) == NO_BUCKET
      && Wrap(First(1, After(1, c, [1, 1], 1), 1)) == 0
  {
    var c := Cursor(TWO64, 0);
    assert After(1, c, [1, 1], 0) == c;
    assert After(1, c, [1, 1], 1) == Take(1, c, 1) == Cursor(TWO64, 1);
  }

  /** The lanes left, and a whole schedule, are a multiple of k. */
  predicate Aligned(batch: nat, c: Cursor, k: nat)
    requires k >= 1
  {
    && CursorOk(batch, c) && k <= batch
    && BlockOf(batch, k) == 0 && BlockOf(batch - c.used, k) == 0
  }

  /** An aligned call skips no lane and leaves the stream aligned. */
  lemma AlignedStep(batch: nat, c: Cursor, k: nat)
    requires k >= 1 && Aligned(batch, c, k)
    ensures Aligned(batch, Take(batch, c, k), k)
    ensures First(batch, Take(batch, c, k), k) == First(batch, c, k) + k
  {
  }

  /** With one lane count throughout, call n takes the k gids from g + n k on, whatever the batch
      size. */
  lemma {:induction false} FixedLanesSkipNothing(batch: nat, g: nat, ks: seq<nat>, k: nat, n: nat)
    requires k >= 1 && batch >= 1 && batch % k == 0 && k <= batch
    requires n < |ks| && forall i :: 0 <= i < |ks| ==> ks[i] == k
    ensures First(batch, After(batch, Cursor(g, batch), ks, n), k) == g + n * k
    ensures Aligned(batch, After(batch, Cursor(g, batch), ks, n), k)
  {
    WholeLanes(batch, k);
    if n > 0 {
      FixedLanesSkipNothing(batch, g, ks, k, n - 1);
      AlignedStep(batch, After(batch, Cursor(g, batch), ks, n - 1), k);
      assert (n - 1) * k + k == n * k;
    }
  }

  // ---- the hash object ----

  /** Lane k of a schedule that starts at gid g0 has that gid's key: its own, or, if the whole
      schedule lies in one bucket, key 0. */
  predicate LaneKeyed<B(==)>(p: Primitives<B>, s: B, shift: nat, keys: seq<B>, bucket: Gid, g0: Gid, k: nat)
    requires k < |keys|
  {
    if bucket != NO_BUCKET
    then BucketOf(shift, Wrap(g0 + k)) == bucket && keys[0] == p.xor(s, p.word(bucket))
    else keys[k] == KeyAt(p, s, shift, Wrap(g0 + k))
  }

  ghost predicate Scheduled<B>(p: Primitives<B>, s: B, shift: nat, keys: seq<B>, bucket: Gid, g0: Gid) {
    forall k :: 0 <= k < |keys| ==> LaneKeyed(p, s, shift, keys, bucket, g0, k)
  }

  lemma UniformSchedule<B>(p: Primitives<B>, s: B, shift: nat, keys: seq<B>, g0: Gid)
    requires shift < 32 && 1 <= |keys| < 0x8000_0000
    requires BucketOf(shift, g0) == BucketOf(shift, Wrap(g0 + |keys| - 1))
    requires keys[0] == p.xor(s, p.word(BucketOf(shift, g0)))
    ensures Scheduled(p, s, shift, keys, BucketOf(shift, g0), g0)
  {
    forall k | 0 <= k < |keys|
      ensures LaneKeyed(p, s, shift, keys, BucketOf(shift, g0), g0, k)
    {
      UniformBatch(shift, g0, |keys|, k);
      UniformBatch(shift, g0, |keys|, 0);
    }
  }

  /** Block i of a call with h blocks a lane that starts at gid g. */
  function HashLane<B>(p: Primitives<B>, s: B, shift: nat, cir: bool, h: nat, g: nat, x: B, i: nat): B
    requires h >= 1
  {
    HashAt(p, s, shift, cir, x, g + Quot(i, h))
  }

  /** One wide run under key 0 hashes every block as its own gid demands. */
  lemma UniformBlock<B>(p: Primitives<B>, s: B, shift: nat, keys: seq<B>, bucket: Gid, g0: Gid, used: nat, cir: bool,
                        k: nat, h: nat, x: B, i: nat)
    requires Scheduled(p, s, shift, keys, bucket, g0) && bucket != NO_BUCKET
    requires 1 <= k && used + k <= |keys| && h >= 1 && i < k * h
    ensures TileBlock(p, [keys[0]], cir, [Wrap(g0 + used)], h, k * h, x, i)
         == HashLane(p, s, shift, cir, h, g0 + used, x, i)
  {
    LaneBelow(i, h, k);
    WrapPlus(g0 + used, Quot(i, h));
    assert LaneKeyed(p, s, shift, keys, bucket, g0, used + Quot(i, h));
    assert Quot(i, k * h) == 0 && BlockOf(i, k * h) == i;
  }

  /** So does one run per lane under the lane's own key. */
  lemma StraddlingBlock<B>(p: Primitives<B>, s: B, shift: nat, keys: seq<B>, g0: Gid, used: nat, cir: bool,
                           k: nat, h: nat, bases: seq<nat>, x: B, i: nat)
    requires Scheduled(p, s, shift, keys, NO_BUCKET, g0)
    requires used + k <= |keys| && h >= 1 && i < k * h
    requires |bases| == k && forall j :: 0 <= j < k ==> bases[j] == Wrap(g0 + used) + j
    ensures TileBlock(p, keys[used..used + k], cir, bases, h, h, x, i)
         == HashLane(p, s, shift, cir, h, g0 + used, x, i)
  {
    LaneBelow(i, h, k);
    WrapPlus(g0 + used, Quot(i, h));
    assert LaneKeyed(p, s, shift, keys, NO_BUCKET, g0, used + Quot(i, h));
    assert Quot(BlockOf(i, h), h) == 0;
  }

  /** The hash of every block of a call: block i under the gid of its lane of h blocks. */
  function HashAll<B>(p: Primitives<B>, s: B, shift: nat, cir: bool, h: nat, g: nat, xs: seq<B>): seq<B>
    requires h >= 1
  {
    seq(|xs|, i requires 0 <= i < |xs| => HashLane(p, s, shift, cir, h, g, xs[i], i))
  }

  /** The hash of block i in the primitives alone: its gid is g + i / h in 64 bits, its key is that of the
      2^shift gids its own gid lies among. */
  lemma HashLaneIs<B>(p: Primitives<B>, s: B, shift: nat, cir: bool, h: nat, g: nat, x: B, i: nat, id: Gid, key: Gid)
    requires h >= 1 && id == (g + i / h) % TWO64 && key == id / Pow2(shift)
    ensures
      var y := p.xor(if cir then p.sigma(x) else x, p.word(id));
      HashLane(p, s, shift, cir, h, g, x, i) == p.xor(y, p.aes(p.xor(s, p.word(key)), y))
  {
    QuotIsDiv(i, h);
    BucketIsQuotient(shift, id);
    HashLaneBy(p, s, shift, cir, h, g, x, i, id, key);
  }

  lemma HashLaneBy<B>(p: Primitives<B>, s: B, shift: nat, cir: bool, h: nat, g: nat, x: B, i: nat, id: Gid, key: Gid)
    requires h >= 1 && id == Wrap(g + Quot(i, h)) && key == BucketOf(shift, id)
    ensures
      var y := p.xor(if cir then p.sigma(x) else x, p.word(id));
      HashLane(p, s, shift, cir, h, g, x, i) == p.xor(y, p.aes(p.xor(s, p.word(key)), y))
  {
  }

  /** g >> shift, by division. */
  function Shifted(g: Gid, shift: nat): (b: Gid)
    ensures b == g / Pow2(shift)
  {
    BucketIsQuotient(shift, g);
    BucketOf(shift, g)
  }

  /** z is the hash of x as block i of a call, in the primitives alone: its gid is first + i / h in 64 bits, y is
      the tweaked block, the key word is gid / 2^shift. */
  ghost predicate HashedAt<B>(p: Primitives<B>, s: B, shift: nat, cir: bool, h: nat, first: nat, x: B, i: nat, z: B)
    requires h >= 1
  {
    var g: Gid := (first + i / h) % TWO64;
    var y := p.xor(if cir then p.sigma(x) else x, p.word(g));
    z == p.xor(y, p.aes(p.xor(s, p.word(Shifted(g, shift))), y))
  }

  ghost predicate Hashed<B>(p: Primitives<B>, s: B, shift: nat, cir: bool, h: nat, first: nat, xs: seq<B>, out: seq<B>)
    requires h >= 1
  {
    |out| == |xs| && forall i :: 0 <= i < |xs| ==> HashedAt(p, s, shift, cir, h, first, xs[i], i, out[i])
  }

  lemma HashAllIs<B>(p: Primitives<B>, s: B, shift: nat, cir: bool, h: nat, first: nat, xs: seq<B>, out: seq<B>)
    requires h >= 1 && out == HashAll(p, s, shift, cir, h, first, xs)
    ensures Hashed(p, s, shift, cir, h, first, xs, out)
  {
    forall i | 0 <= i < |xs|
      ensures HashedAt(p, s, shift, cir, h, first, xs[i], i, out[i])
    {
      var g: Gid := (first + i / h) % TWO64;
      HashLaneIs(p, s, shift, cir, h, first, xs[i], i, g, Shifted(g, shift));
    }
  }

  lemma HashWraps<B>(p: Primitives<B>, s: B, shift: nat, cir: bool, h: nat, g: nat, n: nat, x: B, i: nat)
    requires h >= 1
    ensures HashLane(p, s, shift, cir, h, Wrap(g) + n, x, i) == HashLane(p, s, shift, cir, h, g + n, x, i)
  {
    WrapPlus(g, n + Quot(i, h));
  }

  lemma HashAllWraps<B>(p: Primitives<B>, s: B, shift: nat, cir: bool, h: nat, g0: Gid, g: nat, n: nat, xs: seq<B>)
    requires h >= 1 && g0 == Wrap(g)
    ensures HashAll(p, s, shift, cir, h, g0 + n, xs) == HashAll(p, s, shift, cir, h, g + n, xs)
  {
    forall i | 0 <= i < |xs|
      ensures HashLane(p, s, shift, cir, h, g0 + n, xs[i], i) == HashLane(p, s, shift, cir, h, g + n, xs[i], i)
    {
      HashWraps(p, s, shift, cir, h, g, n, xs[i], i);
    }
  }

  lemma UniformBlocks<B>(p: Primitives<B>, s: B, shift: nat, keys: seq<B>, bucket: Gid, g0: Gid, used: nat, cir: bool,
                         k: nat, h: nat, xs: seq<B>)
    requires Scheduled(p, s, shift, keys, bucket, g0) && bucket != NO_BUCKET
    requires 1 <= k && used + k <= |keys| && h >= 1 && |xs| == k * h >= 1
    ensures TileAll(p, [keys[0]], cir, [Wrap(g0 + used)], h, k * h, xs) == HashAll(p, s, shift, cir, h, g0 + used, xs)
  {
    forall i | 0 <= i < |xs|
      ensures TileBlock(p, [keys[0]], cir, [Wrap(g0 + used)], h, k * h, xs[i], i)
           == HashLane(p, s, shift, cir, h, g0 + used, xs[i], i)
    {
      UniformBlock(p, s, shift, keys, bucket, g0, used, cir, k, h, xs[i], i);
    }
  }

  lemma StraddlingBlocks<B>(p: Primitives<B>, s: B, shift: nat, keys: seq<B>, g0: Gid, used: nat, cir: bool,
                            k: nat, h: nat, bases: seq<nat>, xs: seq<B>)
    requires Scheduled(p, s, shift, keys, NO_BUCKET, g0)
    requires used + k <= |keys| && h >= 1 && |xs| == k * h
    requires |bases| == k && forall j :: 0 <= j < k ==> bases[j] == Wrap(g0 + used) + j
    ensures TileAll(p, keys[used..used + k], cir, bases, h, h, xs) == HashAll(p, s, shift, cir, h, g0 + used, xs)
  {
    forall i | 0 <= i < |xs|
      ensures TileBlock(p, keys[used..used + k], cir, bases, h, h, xs[i], i)
           == HashLane(p, s, shift, cir, h, g0 + used, xs[i], i)
    {
      StraddlingBlock(p, s, shift, keys, g0, used, cir, k, h, bases, xs[i], i);
    }
  }

  /** The base tweaks of k lanes, one gid apart. */
  function LaneBases(g0: nat, k: nat): (r: seq<nat>)
    ensures |r| == k && forall j :: 0 <= j < k ==> r[j] == g0 + j
  {
    seq(k, j => g0 + j)
  }

  /** Each of k lanes under its own key. */
  method EncryptLanes<B>(p: Primitives<B>, ghost s: B, ghost shift: nat, keys: seq<B>, g0: Gid, used: nat, cir: bool,
                         k: nat, h: nat, dst: array<B>, src: array<B>, wide4: bool, wide2: bool)
    requires Scheduled(p, s, shift, keys, NO_BUCKET, g0)
    requires 1 <= k && used + k <= |keys| && h >= 1 && dst.Length == src.Length == k * h
    modifies dst
    ensures dst[..] == HashAll(p, s, shift, cir, h, g0 + used, old(src[..]))
  {
    var bases := LaneBases(Wrap(g0 + used), k);
    StraddlingBlocks(p, s, shift, keys, g0, used, cir, k, h, bases, src[..]);
    EncryptTiles(p, keys[used..used + k], cir, bases, h, dst, src, h, wide4, wide2);
  }

  class Mitccrh<B(==)> {
    const p: Primitives<B>
    const batch: nat
    const shift: nat
    const wide4: bool
    const wide2: bool
    var scheduledKey: seq<B>
    var keyUsed: nat
    var startPoint: B
    var gid: Gid
    var scheduledBucket: Gid
    var laneGid0: Gid
    ghost var cursor: Cursor

    ghost predicate Valid()
      reads this
    {
      && 1 <= batch < 0x8000_0000 && shift < 32 && |scheduledKey| == batch
      && CursorOk(batch, cursor) && keyUsed == cursor.used && gid == Wrap(cursor.next)
      && (scheduledBucket != NO_BUCKET ==> scheduledKey[0] == p.xor(startPoint, p.word(scheduledBucket)))
      && (keyUsed < batch ==>
            laneGid0 == Wrap(cursor.next - batch)
            && Scheduled(p, startPoint, shift, scheduledKey, scheduledBucket, laneGid0))
    }

    constructor (p: Primitives<B>, batch: nat, shift: nat, wide4: bool, wide2: bool, s: B)
      requires 1 <= batch < 0x8000_0000 && shift < 32
      ensures Valid() && this.p == p && this.batch == batch && this.shift == shift && startPoint == s
      ensures cursor == Cursor(0, batch) && gid == 0 && keyUsed == batch
    {
      this.p, this.batch, this.shift, this.wide4, this.wide2 := p, batch, shift, wide4, wide2;
      scheduledKey := seq(batch, _ => s);
      keyUsed, startPoint, gid, scheduledBucket, laneGid0 := batch, s, 0, NO_BUCKET, 0;
      cursor := Cursor(0, batch);
    }

    /** A new start point drops every scheduled key and restarts the stream at 0. */
    method SetS(s: B)
      requires Valid()
      modifies this
      ensures Valid() && startPoint == s && cursor == Cursor(0, batch) && gid == 0 && keyUsed == batch
    {
      startPoint, gid, keyUsed, scheduledBucket, laneGid0 := s, 0, batch, NO_BUCKET, 0;
      cursor := Cursor(0, batch);
    }

    /** Repositions the stream: the next call's first lane hashes gid g. */
    method RenewAt(g: Gid)
      requires Valid()
      modifies this
      ensures Valid() && startPoint == old(startPoint) && cursor == Cursor(g + batch, 0)
      ensures keyUsed == 0 && laneGid0 == g && gid == Wrap(g + batch)
    {
      gid := g;
      keyUsed := batch;
      cursor := Cursor(g, batch);
      Renew();
    }

    /** Schedules the next batch of gids, reusing the cached bucket key when it still applies. */
    method Renew()
      requires Valid()
      modifies this
      ensures Valid() && startPoint == old(startPoint) && cursor == Cursor(old(cursor.next) + batch, 0)
      ensures keyUsed == 0 && laneGid0 == old(gid) && gid == Wrap(old(gid) + batch)
    {
      laneGid0 := gid;
      ScheduleBatch();
      WrapPlus(cursor.next, batch);
      cursor := Cursor(cursor.next + batch, 0);
      gid := Wrap(gid + batch);
      keyUsed := 0;
    }

    /** One key if the whole batch lies in one bucket, and none if that key is the one already there. */
    method ScheduleBatch()
      requires 1 <= batch < 0x8000_0000 && shift < 32 && |scheduledKey| == batch
      requires scheduledBucket != NO_BUCKET ==> scheduledKey[0] == p.xor(startPoint, p.word(scheduledBucket))
      modifies this`scheduledKey, this`scheduledBucket
      ensures |scheduledKey| == batch && Scheduled(p, startPoint, shift, scheduledKey, scheduledBucket, laneGid0)
      ensures scheduledBucket != NO_BUCKET ==> scheduledKey[0] == p.xor(startPoint, p.word(scheduledBucket))
    {
      if shift == 0 {
        ScheduleLanes();
      } else {
        var first, last := BucketOf(shift, laneGid0), BucketOf(shift, Wrap(laneGid0 + batch - 1));
        if first == last {
          if first != scheduledBucket {
            scheduledKey := scheduledKey[0 := p.xor(startPoint, p.word(first))];
            scheduledBucket := first;
          }
          UniformSchedule(p, startPoint, shift, scheduledKey, laneGid0);
        } else {
          ScheduleLanes();
        }
      }
    }

    /** One key per lane; a mixed batch is not cached. */
    method ScheduleLanes()
      modifies this`scheduledKey, this`scheduledBucket
      ensures |scheduledKey| == batch && scheduledBucket == NO_BUCKET
      ensures Scheduled(p, startPoint, shift, scheduledKey, NO_BUCKET, laneGid0)
    {
      var keys := [];
      for i := 0 to batch
        invariant |keys| == i
        invariant forall k :: 0 <= k < i ==> keys[k] == KeyAt(p, startPoint, shift, Wrap(laneGid0 + k))
      {
        keys := keys + [KeyAt(p, startPoint, shift, Wrap(laneGid0 + i))];
      }
      scheduledKey, scheduledBucket := keys, NO_BUCKET;
    }

    /** A uniform schedule hashes the next k lanes as one wide run. */
    method HashUniform(cir: bool, k: nat, h: nat, dst: array<B>, src: array<B>)
      requires |scheduledKey| == batch && Scheduled(p, startPoint, shift, scheduledKey, scheduledBucket, laneGid0)
      requires 1 <= k && keyUsed + k <= batch && h >= 1 && dst.Length == src.Length == k * h
      requires scheduledBucket != NO_BUCKET
      modifies dst
      ensures dst[..] == HashAll(p, startPoint, shift, cir, h, laneGid0 + keyUsed, old(src[..]))
    {
      ghost var xs := src[..];
      EncryptTiles(p, [scheduledKey[0]], cir, [Wrap(laneGid0 + keyUsed)], h, dst, src, k * h, wide4, wide2);
      UniformBlocks(p, startPoint, shift, scheduledKey, scheduledBucket, laneGid0, keyUsed, cir, k, h, xs);
    }

    /** A mixed schedule hashes each lane under its own key. */
    method HashStraddling(cir: bool, k: nat, h: nat, dst: array<B>, src: array<B>)
      requires |scheduledKey| == batch && Scheduled(p, startPoint, shift, scheduledKey, scheduledBucket, laneGid0)
      requires 1 <= k && keyUsed + k <= batch && h >= 1 && dst.Length == src.Length == k * h
      requires scheduledBucket == NO_BUCKET
      modifies dst
      ensures dst[..] == HashAll(p, startPoint, shift, cir, h, laneGid0 + keyUsed, old(src[..]))
    {
      EncryptLanes(p, startPoint, shift, scheduledKey, laneGid0, keyUsed, cir, k, h, dst, src, wide4, wide2);
    }

    method HashLanes(cir: bool, k: nat, h: nat, dst: array<B>, src: array<B>)
      requires |scheduledKey| == batch && Scheduled(p, startPoint, shift, scheduledKey, scheduledBucket, laneGid0)
      requires 1 <= k && keyUsed + k <= batch && h >= 1 && dst.Length == src.Length == k * h
      modifies dst
      ensures dst[..] == HashAll(p, startPoint, shift, cir, h, laneGid0 + keyUsed, old(src[..]))
    {
      if scheduledBucket != NO_BUCKET {
        HashUniform(cir, k, h, dst, src);
      } else {
        HashStraddling(cir, k, h, dst, src);
      }
    }

    /** Renews the schedule if its remaining lanes are too few. */
    method Reserve(k: nat)
      requires Valid() && 1 <= k <= batch
      modifies this
      ensures Valid() && keyUsed + k <= batch && startPoint == old(startPoint)
      ensures First(batch, cursor, k) == First(batch, old(cursor), k)
      ensures Take(batch, cursor, k) == Take(batch, old(cursor), k)
      ensures if old(keyUsed) + k > batch
        then keyUsed == 0 && laneGid0 == old(gid) && gid == Wrap(old(gid) + batch)
        else keyUsed == old(keyUsed) && laneGid0 == old(laneGid0) && gid == old(gid)
    {
      if keyUsed + k > batch {
        Renew();
      }
    }

    method Advance(k: nat)
      requires Valid() && 1 <= k && keyUsed + k <= batch
      modifies this
      ensures Valid() && startPoint == old(startPoint) && cursor == Take(batch, old(cursor), k)
      ensures keyUsed == old(keyUsed) + k && laneGid0 == old(laneGid0) && gid == old(gid)
    {
      keyUsed := keyUsed + k;
      cursor := Take(batch, cursor, k);
    }

    method HashReserved(cir: bool, k: nat, h: nat, dst: array<B>, src: array<B>)
      requires |scheduledKey| == batch && Scheduled(p, startPoint, shift, scheduledKey, scheduledBucket, laneGid0)
      requires 1 <= k && keyUsed + k <= batch && h >= 1 && dst.Length == src.Length == k * h
      requires CursorOk(batch, cursor) && keyUsed == cursor.used && laneGid0 == Wrap(cursor.next - batch)
      modifies dst
      ensures dst[..] == HashAll(p, startPoint, shift, cir, h, First(batch, cursor, k), old(src[..]))
    {
      HashLanes(cir, k, h, dst, src);
      assert First(batch, cursor, k) == cursor.next - batch + keyUsed;
      HashAllWraps(p, startPoint, shift, cir, h, laneGid0, cursor.next - batch, keyUsed, old(src[..]));
    }

    /** Takes k lanes of h blocks: block i is hashed under the gid of its own lane and that gid's
        own bucket key. A call that does not fit in the schedule skips to the next one. */
    method Consume(cir: bool, k: nat, h: nat, dst: array<B>, src: array<B>)
      requires Valid() && 1 <= k <= batch && h >= 1 && dst.Length == src.Length == k * h
      modifies this, dst
      ensures Valid() && startPoint == old(startPoint)
      ensures cursor == Take(batch, old(cursor), k)
      ensures dst[..] == HashAll(p, startPoint, shift, cir, h, First(batch, old(cursor), k), old(src[..]))
      ensures if old(keyUsed) + k > batch
        then keyUsed == k && laneGid0 == old(gid) && gid == Wrap(old(gid) + batch)
        else keyUsed == old(keyUsed) + k && laneGid0 == old(laneGid0) && gid == old(gid)
      ensures Wrap(First(batch, old(cursor), k)) == Wrap(laneGid0 + keyUsed - k)
      ensures Hashed(p, startPoint, shift, cir, h, First(batch, old(cursor), k), old(src[..]), dst[..])
    {
      Reserve(k);
      HashReserved(cir, k, h, dst, src);
      FirstIs(batch, cursor, k, laneGid0);
      HashAllIs(p, startPoint, shift, cir, h, First(batch, old(cursor), k), old(src[..]), dst[..]);
      Advance(k);
    }
  }

  /** Call n of a run of calls of k lanes of h blocks hashes under the gids from g + n k on. */
  function HashRun<B>(p: Primitives<B>, s: B, shift: nat, cir: bool, k: nat, h: nat, g: nat,
                      calls: seq<seq<B>>): seq<seq<B>>
    requires h >= 1
  {
    seq(|calls|, n requires 0 <= n < |calls| => HashAll(p, s, shift, cir, h, CallStart(g, k, n), calls[n]))
  }

  /** Where call n of a run of calls of k lanes starts. */
  function CallStart(g: nat, k: nat, n: nat): nat {
    g + n * k
  }

  lemma CallStartNext(g: nat, k: nat, n: nat)
    ensures CallStart(g, k, 0) == g && CallStart(g, k, n + 1) == CallStart(g, k, n) + k
  {
    assert (n + 1) * k == n * k + k;
  }

  /** A run of calls with one lane count: the blocks written do not mention the batch size. */
  method ConsumeRun<B(==)>(m: Mitccrh<B>, cir: bool, k: nat, h: nat, calls: seq<seq<B>>) returns (outs: seq<seq<B>>)
    requires m.Valid() && k >= 1 && h >= 1 && Aligned(m.batch, m.cursor, k)
    requires forall n :: 0 <= n < |calls| ==> |calls[n]| == k * h
    modifies m
    ensures m.Valid() && m.startPoint == old(m.startPoint) && Aligned(m.batch, m.cursor, k)
    ensures First(m.batch, m.cursor, k) == CallStart(First(m.batch, old(m.cursor), k), k, |calls|)
    ensures outs == HashRun(m.p, m.startPoint, m.shift, cir, k, h, First(m.batch, old(m.cursor), k), calls)
  {
    outs := [];
    ghost var g := First(m.batch, m.cursor, k);
    CallStartNext(g, k, 0);
    for n := 0 to |calls|
      invariant m.Valid() && m.startPoint == old(m.startPoint) && Aligned(m.batch, m.cursor, k)
      invariant First(m.batch, m.cursor, k) == CallStart(g, k, n) && |outs| == n
      invariant forall i :: 0 <= i < n ==>
        outs[i] == HashAll(m.p, m.startPoint, m.shift, cir, h, CallStart(g, k, i), calls[i])
    {
      CallStartNext(g, k, n);
      var out := ConsumeOne(m, cir, k, h, calls[n]);
      outs := outs + [out];
    }
  }

  method ConsumeOne<B(==)>(m: Mitccrh<B>, cir: bool, k: nat, h: nat, call: seq<B>) returns (out: seq<B>)
    requires m.Valid() && k >= 1 && h >= 1 && Aligned(m.batch, m.cursor, k) && |call| == k * h
    modifies m
    ensures m.Valid() && m.startPoint == old(m.startPoint) && Aligned(m.batch, m.cursor, k)
    ensures First(m.batch, m.cursor, k) == First(m.batch, old(m.cursor), k) + k
    ensures out == HashAll(m.p, m.startPoint, m.shift, cir, h, First(m.batch, old(m.cursor), k), call)
  {
    AlignedStep(m.batch, m.cursor, k);
    var blocks := new B[|call|](i requires 0 <= i < |call| => call[i]);
    assert blocks[..] == call;
    m.Consume(cir, k, h, blocks, blocks);
    out := blocks[..];
  }

  /** Two objects with one start point and shift, standing at the same gid, write the same blocks over
      every run of calls with one lane count, whatever their batch sizes and tile widths. */
  method BatchSizeInvisible<B(==)>(m: Mitccrh<B>, m': Mitccrh<B>, cir: bool, k: nat, h: nat, calls: seq<seq<B>>)
    returns (outs: seq<seq<B>>, outs': seq<seq<B>>)
    requires m != m' && m.Valid() && m'.Valid() && m.p == m'.p && m.shift == m'.shift && m.startPoint == m'.startPoint
    requires k >= 1 && h >= 1 && Aligned(m.batch, m.cursor, k) && Aligned(m'.batch, m'.cursor, k)
    requires First(m.batch, m.cursor, k) == First(m'.batch, m'.cursor, k)
    requires forall n :: 0 <= n < |calls| ==> |calls[n]| == k * h
    modifies m, m'
    ensures outs == outs' && |outs| == |calls|
    ensures m.Valid() && m'.Valid() && First(m.batch, m.cursor, k) == First(m'.batch, m'.cursor, k)
  {
    outs := ConsumeRun(m, cir, k, h, calls);
    outs' := ConsumeRun(m', cir, k, h, calls);
  }
}
