/** Wire-id compaction and its inverse (emp-tool/ir/transform.h), with the liveness pass it is
    driven by (emp-tool/ir/passes.h). `CompactRun` is the specification the loops meet; the
    theorems are about it. */
module Compact {
  import opened Program

  /** The "no slot yet" mark of the source's uint32_t tables. */
  const NIL: nat := 0xFFFF_FFFF

  // ---- liveness ----

  /** Last of the first `n` gates that reads `w`, or -1. */
  function LastUse(gates: seq<Gate>, n: nat, w: nat): (r: int)
    requires n <= |gates|
    ensures -1 <= r < n
    ensures r >= 0 ==> gates[r].Reads(w)
    ensures forall j :: r < j < n ==> !gates[j].Reads(w)
  {
    if n == 0 then -1 else if gates[n - 1].Reads(w) then n - 1 else LastUse(gates, n - 1, w)
  }

  function LastUseIn(p: BooleanProgram, w: nat): int {
    LastUse(p.gates, |p.gates|, w)
  }

  predicate IsAndOutput(p: BooleanProgram, w: nat) {
    exists j :: 0 <= j < |p.gates| && p.gates[j].IsAnd() && p.gates[j].out == w
  }

  /** Wires whose slot is never recycled: inputs, outputs and, under Linear, And outputs. */
  predicate Persist(p: BooleanProgram, t: WireReuse, w: nat) {
    w < p.numInputs || w in p.outputs || (t.Linear? && IsAndOutput(p, w))
  }

  predicate FreedAt(p: BooleanProgram, t: WireReuse, gi: nat, w: nat) {
    LastUseIn(p, w) == gi && !Persist(p, t, w)
  }

  /** The wires below `n` that become recyclable after gate `gi`, in ascending order. */
  function Frees(p: BooleanProgram, t: WireReuse, gi: nat, n: nat): (r: seq<nat>)
    ensures forall k :: 0 <= k < |r| ==> r[k] < n && FreedAt(p, t, gi, r[k])
    ensures forall w: nat :: w < n && FreedAt(p, t, gi, w) ==> w in r
    ensures forall i, j :: 0 <= i < j < |r| ==> r[i] < r[j]
  {
    if n == 0 then []
    else Frees(p, t, gi, n - 1) + (if FreedAt(p, t, gi, n - 1) then [n - 1] else [])
  }

  // ---- the allocator as a state machine ----

  datatype Alloc = Alloc(next: nat, freelist: seq<nat>, nid: seq<nat>, gates: seq<Gate>)

  ghost predicate DenseProgram(p: BooleanProgram) {
    Valid(p) && p.wireReuse.Dense?
  }

  function Slots(nid: seq<nat>, ws: seq<nat>): (r: seq<nat>)
    requires forall k :: 0 <= k < |ws| ==> ws[k] < |nid|
    ensures |r| == |ws| && forall k :: 0 <= k < |ws| ==> r[k] == nid[ws[k]]
  {
    seq(|ws|, k requires 0 <= k < |ws| => nid[ws[k]])
  }

  /** A gate with its wires renamed; unread operands are normalized to 0. */
  function Rename(g: Gate, nid: seq<nat>): Gate
    requires g.out < |nid| && forall w: nat :: g.Reads(w) ==> w < |nid|
  {
    Gate(if g.IsConst() then 0 else assert g.Reads(g.in0); nid[g.in0],
         if g.IsConst() || g.IsNot() then 0 else assert g.Reads(g.in1); nid[g.in1],
         nid[g.out], g.op)
  }

  /** Inputs keep their ids. */
  function AllocInit(p: BooleanProgram): Alloc {
    Alloc(p.numInputs, [], seq(p.numWires, w => if w < p.numInputs then w else NIL), [])
  }

  predicate TakesFree(p: BooleanProgram, t: WireReuse, gi: nat, st: Alloc)
    requires gi < |p.gates|
  {
    !Persist(p, t, p.gates[gi].out) && st.freelist != []
  }

  function SlotFor(p: BooleanProgram, t: WireReuse, gi: nat, st: Alloc): nat
    requires gi < |p.gates|
  {
    if TakesFree(p, t, gi, st) then st.freelist[|st.freelist| - 1] else st.next
  }

  /** Gate gi: pop the freelist or take a fresh slot, emit, then recycle what died here. */
  function AllocStep(p: BooleanProgram, t: WireReuse, gi: nat, st: Alloc): Alloc
    requires gi < |p.gates| && |st.nid| == p.numWires
    requires p.gates[gi].out < p.numWires && forall w: nat :: p.gates[gi].Reads(w) ==> w < p.numWires
  {
    var g := p.gates[gi];
    var reuse := TakesFree(p, t, gi, st);
    var nid := st.nid[g.out := SlotFor(p, t, gi, st)];
    var rest := if reuse then st.freelist[..|st.freelist| - 1] else st.freelist;
    Alloc(if reuse then st.next else st.next + 1,
          rest + Slots(nid, Frees(p, t, gi, p.numWires)),
          nid,
          st.gates + [Rename(g, nid)])
  }

  ghost function CompactRun(p: BooleanProgram, t: WireReuse, n: nat): (st: Alloc)
    requires DenseProgram(p) && n <= |p.gates|
    ensures |st.nid| == p.numWires && |st.gates| == n
  {
    if n == 0 then AllocInit(p)
    else
      assert GateOk(p, n - 1);
      AllocStep(p, t, n - 1, CompactRun(p, t, n - 1))
  }

  ghost function Compacted(p: BooleanProgram, t: WireReuse): (r: BooleanProgram)
    requires DenseProgram(p)
  {
    var st := CompactRun(p, t, |p.gates|);
    BooleanProgram(st.next, p.numInputs, t, st.gates, Slots(st.nid, p.outputs))
  }

  // ---- the allocator invariant ----

  /** `w` holds a value at gate `i` that is still needed. */
  ghost predicate Live(p: BooleanProgram, t: WireReuse, i: nat, w: nat)
    requires i <= |p.gates|
  {
    w < p.numWires && Written(p, i, w) && (Persist(p, t, w) || LastUseIn(p, w) >= i)
  }

  ghost predicate Ranges(p: BooleanProgram, i: nat, st: Alloc)
    requires i <= |p.gates| && |st.nid| == p.numWires
  {
    && p.numInputs <= st.next <= p.numInputs + i
    && (forall w :: 0 <= w < p.numWires && Written(p, i, w) ==>
          st.nid[w] < st.next && (w < p.numInputs ==> st.nid[w] == w) &&
            (w >= p.numInputs ==> st.nid[w] >= p.numInputs))
    && (forall k :: 0 <= k < |st.freelist| ==> p.numInputs <= st.freelist[k] < st.next)
  }

  /** No two live wires share a slot. */
  ghost predicate LiveDistinct(p: BooleanProgram, t: WireReuse, i: nat, st: Alloc)
    requires i <= |p.gates| && |st.nid| == p.numWires
  {
    forall v, w :: 0 <= v < p.numWires && 0 <= w < p.numWires && v != w && Live(p, t, i, v) && Live(p, t, i, w) ==>
      st.nid[v] != st.nid[w]
  }

  /** Free slots are distinct and hold no live wire. */
  ghost predicate FreeDisjoint(p: BooleanProgram, t: WireReuse, i: nat, st: Alloc)
    requires i <= |p.gates| && |st.nid| == p.numWires
  {
    && (forall j, k :: 0 <= j < k < |st.freelist| ==> st.freelist[j] != st.freelist[k])
    && (forall w, k :: 0 <= w < p.numWires && 0 <= k < |st.freelist| && Live(p, t, i, w) ==>
      st.nid[w] != st.freelist[k])
  }

  /** A persistent wire's slot is never shared, not even with a dead wire. */
  ghost predicate PersistAlone(p: BooleanProgram, t: WireReuse, i: nat, st: Alloc)
    requires i <= |p.gates| && |st.nid| == p.numWires
  {
    forall v, w :: (0 <= v < p.numWires && 0 <= w < p.numWires && v != w && Persist(p, t, v)
                    && Written(p, i, v) && Written(p, i, w)) ==> st.nid[v] != st.nid[w]
  }

  /** The emitted gates are the source gates renamed by the final table. */
  ghost predicate Renamed(p: BooleanProgram, i: nat, st: Alloc)
    requires DenseProgram(p) && i <= |p.gates| && |st.nid| == p.numWires && |st.gates| == i
  {
    forall j :: 0 <= j < i ==> assert GateOk(p, j); st.gates[j] == Rename(p.gates[j], st.nid)
  }

  ghost predicate AllocInv(p: BooleanProgram, t: WireReuse, i: nat, st: Alloc)
    requires DenseProgram(p) && i <= |p.gates| && |st.nid| == p.numWires && |st.gates| == i
  {
    Ranges(p, i, st) && LiveDistinct(p, t, i, st) && FreeDisjoint(p, t, i, st)
    && PersistAlone(p, t, i, st) && Renamed(p, i, st)
  }

  /** What a gate reads is live; what it defines was not defined before. */
  lemma GateFacts(p: BooleanProgram, t: WireReuse, i: nat)
    requires DenseProgram(p) && i < |p.gates|
    ensures !Written(p, i, p.gates[i].out)
    ensures p.numInputs <= p.gates[i].out < p.numWires
    ensures forall w: nat :: p.gates[i].Reads(w) ==> Live(p, t, i, w)
  {
    assert GateOk(p, i);
    forall w: nat | p.gates[i].Reads(w) ensures Live(p, t, i, w) {
    }
  }

  lemma WrittenNext(p: BooleanProgram, i: nat, w: nat)
    requires i < |p.gates|
    ensures Written(p, i + 1, w) <==> Written(p, i, w) || w == p.gates[i].out
  {
  }

  /** Everything freed at gate i was live there, and is not what the gate defines. */
  lemma FreedWasLive(p: BooleanProgram, t: WireReuse, i: nat, w: nat)
    requires DenseProgram(p) && i < |p.gates| && w < p.numWires && FreedAt(p, t, i, w)
    ensures Live(p, t, i, w) && w != p.gates[i].out
  {
    GateFacts(p, t, i);
  }

  lemma LiveNext(p: BooleanProgram, t: WireReuse, i: nat, w: nat)
    requires DenseProgram(p) && i < |p.gates| && Live(p, t, i + 1, w)
    ensures w == p.gates[i].out || (Live(p, t, i, w) && !FreedAt(p, t, i, w))
  {
    WrittenNext(p, i, w);
  }

  /** The slot chosen for a gate holds nothing live and belongs to no persistent wire. */
  lemma SlotForFacts(p: BooleanProgram, t: WireReuse, i: nat, st: Alloc)
    requires DenseProgram(p) && i < |p.gates| && |st.nid| == p.numWires && |st.gates| == i
    requires AllocInv(p, t, i, st)
    ensures p.numInputs <= SlotFor(p, t, i, st)
    ensures forall w :: 0 <= w < p.numWires && Live(p, t, i, w) ==> st.nid[w] != SlotFor(p, t, i, st)
    ensures !TakesFree(p, t, i, st) ==>
      forall w :: 0 <= w < p.numWires && Written(p, i, w) ==> st.nid[w] != SlotFor(p, t, i, st)
  {
    if TakesFree(p, t, i, st) {
      var k := |st.freelist| - 1;
      assert st.freelist[k] == SlotFor(p, t, i, st);
    }
  }

  lemma StepRanges(p: BooleanProgram, t: WireReuse, i: nat, st: Alloc)
    requires DenseProgram(p) && i < |p.gates| && |st.nid| == p.numWires && |st.gates| == i
    requires AllocInv(p, t, i, st)
    ensures GateOk(p, i) && Ranges(p, i + 1, AllocStep(p, t, i, st))
  {
    assert GateOk(p, i);
    var st' := AllocStep(p, t, i, st);
    var freed := Frees(p, t, i, p.numWires);
    GateFacts(p, t, i);
    SlotForFacts(p, t, i, st);
    forall w | 0 <= w < p.numWires && Written(p, i + 1, w)
      ensures st'.nid[w] < st'.next && (w < p.numInputs ==> st'.nid[w] == w) &&
              (w >= p.numInputs ==> st'.nid[w] >= p.numInputs)
    {
      WrittenNext(p, i, w);
    }
    forall k | 0 <= k < |freed|
      ensures p.numInputs <= st'.nid[freed[k]] < st'.next
    {
      FreedWasLive(p, t, i, freed[k]);
      WrittenNext(p, i, freed[k]);
    }
  }

  lemma StepLiveDistinct(p: BooleanProgram, t: WireReuse, i: nat, st: Alloc)
    requires DenseProgram(p) && i < |p.gates| && |st.nid| == p.numWires && |st.gates| == i
    requires AllocInv(p, t, i, st)
    ensures GateOk(p, i) && LiveDistinct(p, t, i + 1, AllocStep(p, t, i, st))
  {
    assert GateOk(p, i);
    var st' := AllocStep(p, t, i, st);
    SlotForFacts(p, t, i, st);
    forall v, w | 0 <= v < p.numWires && 0 <= w < p.numWires && v != w && Live(p, t, i + 1, v) && Live(p, t, i + 1, w)
      ensures st'.nid[v] != st'.nid[w]
    {
      LiveNext(p, t, i, v);
      LiveNext(p, t, i, w);
    }
  }

  function Kept(p: BooleanProgram, t: WireReuse, i: nat, st: Alloc): seq<nat>
    requires i < |p.gates|
  {
    if TakesFree(p, t, i, st) then st.freelist[..|st.freelist| - 1] else st.freelist
  }

  /** What a step recycles, seen through the table before the step. */
  lemma FreelistNext(p: BooleanProgram, t: WireReuse, i: nat, st: Alloc)
    requires DenseProgram(p) && i < |p.gates| && |st.nid| == p.numWires && |st.gates| == i
    ensures GateOk(p, i)
    ensures AllocStep(p, t, i, st).freelist == Kept(p, t, i, st) + Slots(st.nid, Frees(p, t, i, p.numWires))
  {
    assert GateOk(p, i);
    var freed := Frees(p, t, i, p.numWires);
    var nid := AllocStep(p, t, i, st).nid;
    forall k | 0 <= k < |freed| ensures nid[freed[k]] == st.nid[freed[k]] {
      FreedWasLive(p, t, i, freed[k]);
    }
    assert Slots(nid, freed) == Slots(st.nid, freed);
  }

  /** Kept free slots stay clear of live wires and of the slot just taken. */
  lemma KeptFacts(p: BooleanProgram, t: WireReuse, i: nat, st: Alloc, k: nat)
    requires DenseProgram(p) && i < |p.gates| && |st.nid| == p.numWires && |st.gates| == i
    requires AllocInv(p, t, i, st) && k < |Kept(p, t, i, st)|
    ensures Kept(p, t, i, st)[k] == st.freelist[k] != SlotFor(p, t, i, st)
    ensures forall w :: 0 <= w < p.numWires && Live(p, t, i, w) ==> st.nid[w] != st.freelist[k]
  {
  }

  lemma FreedApart(p: BooleanProgram, t: WireReuse, i: nat, st: Alloc, j: nat, k: nat)
    requires DenseProgram(p) && i < |p.gates| && |st.nid| == p.numWires && |st.gates| == i
    requires AllocInv(p, t, i, st) && j < k < |Frees(p, t, i, p.numWires)|
    ensures Frees(p, t, i, p.numWires)[j] < p.numWires && Frees(p, t, i, p.numWires)[k] < p.numWires
    ensures st.nid[Frees(p, t, i, p.numWires)[j]] != st.nid[Frees(p, t, i, p.numWires)[k]]
  {
    FreedWasLive(p, t, i, Frees(p, t, i, p.numWires)[j]);
    FreedWasLive(p, t, i, Frees(p, t, i, p.numWires)[k]);
  }

  lemma StepFreeDistinct(p: BooleanProgram, t: WireReuse, i: nat, st: Alloc, j: nat, k: nat)
    requires DenseProgram(p) && i < |p.gates| && |st.nid| == p.numWires && |st.gates| == i
    requires AllocInv(p, t, i, st) && GateOk(p, i)
    requires j < k < |AllocStep(p, t, i, st).freelist|
    ensures AllocStep(p, t, i, st).freelist[j] != AllocStep(p, t, i, st).freelist[k]
  {
    FreelistNext(p, t, i, st);
    var kept, freed := Kept(p, t, i, st), Frees(p, t, i, p.numWires);
    if k < |kept| {
      KeptFacts(p, t, i, st, j);
      KeptFacts(p, t, i, st, k);
    } else if j < |kept| {
      FreedWasLive(p, t, i, freed[k - |kept|]);
      KeptFacts(p, t, i, st, j);
    } else {
      FreedApart(p, t, i, st, j - |kept|, k - |kept|);
    }
  }

  lemma StepFreeNotLive(p: BooleanProgram, t: WireReuse, i: nat, st: Alloc, w: nat, k: nat)
    requires DenseProgram(p) && i < |p.gates| && |st.nid| == p.numWires && |st.gates| == i
    requires AllocInv(p, t, i, st) && GateOk(p, i)
    requires w < p.numWires && Live(p, t, i + 1, w) && k < |AllocStep(p, t, i, st).freelist|
    ensures AllocStep(p, t, i, st).nid[w] != AllocStep(p, t, i, st).freelist[k]
  {
    FreelistNext(p, t, i, st);
    LiveNext(p, t, i, w);
    var kept, freed := Kept(p, t, i, st), Frees(p, t, i, p.numWires);
    if k < |kept| {
      KeptFacts(p, t, i, st, k);
    } else {
      FreedWasLive(p, t, i, freed[k - |kept|]);
      SlotForFacts(p, t, i, st);
    }
  }

  lemma StepFreeDisjoint(p: BooleanProgram, t: WireReuse, i: nat, st: Alloc)
    requires DenseProgram(p) && i < |p.gates| && |st.nid| == p.numWires && |st.gates| == i
    requires AllocInv(p, t, i, st)
    ensures GateOk(p, i) && FreeDisjoint(p, t, i + 1, AllocStep(p, t, i, st))
  {
    assert GateOk(p, i);
    var st' := AllocStep(p, t, i, st);
    forall j, k | 0 <= j < k < |st'.freelist| ensures st'.freelist[j] != st'.freelist[k] {
      StepFreeDistinct(p, t, i, st, j, k);
    }
    forall w, k | 0 <= w < p.numWires && 0 <= k < |st'.freelist| && Live(p, t, i + 1, w)
      ensures st'.nid[w] != st'.freelist[k]
    {
      StepFreeNotLive(p, t, i, st, w, k);
    }
  }

  lemma StepPersistAlone(p: BooleanProgram, t: WireReuse, i: nat, st: Alloc)
    requires DenseProgram(p) && i < |p.gates| && |st.nid| == p.numWires && |st.gates| == i
    requires AllocInv(p, t, i, st)
    ensures GateOk(p, i) && PersistAlone(p, t, i + 1, AllocStep(p, t, i, st))
  {
    assert GateOk(p, i);
    var st' := AllocStep(p, t, i, st);
    var o := p.gates[i].out;
    SlotForFacts(p, t, i, st);
    forall v, w | 0 <= v < p.numWires && 0 <= w < p.numWires && v != w && Persist(p, t, v)
                  && Written(p, i + 1, v) && Written(p, i + 1, w)
      ensures st'.nid[v] != st'.nid[w]
    {
      WrittenNext(p, i, v);
      WrittenNext(p, i, w);
      if v != o && w == o {
        assert Live(p, t, i, v);
      }
    }
  }

  lemma StepRenamed(p: BooleanProgram, t: WireReuse, i: nat, st: Alloc)
    requires DenseProgram(p) && i < |p.gates| && |st.nid| == p.numWires && |st.gates| == i
    requires AllocInv(p, t, i, st)
    ensures GateOk(p, i) && Renamed(p, i + 1, AllocStep(p, t, i, st))
  {
    assert GateOk(p, i);
    var st' := AllocStep(p, t, i, st);
    GateFacts(p, t, i);
    forall j | 0 <= j < i
      ensures GateOk(p, j) && st'.gates[j] == Rename(p.gates[j], st'.nid)
    {
      assert GateOk(p, j);
      assert p.gates[j].out != p.gates[i].out;
      forall w: nat | p.gates[j].Reads(w) ensures w != p.gates[i].out {
        assert Written(p, j, w);
      }
      assert !p.gates[j].IsConst() ==> p.gates[j].Reads(p.gates[j].in0);
      assert !p.gates[j].IsConst() && !p.gates[j].IsNot() ==> p.gates[j].Reads(p.gates[j].in1);
    }
  }

  lemma StepInv(p: BooleanProgram, t: WireReuse, i: nat, st: Alloc)
    requires DenseProgram(p) && i < |p.gates| && |st.nid| == p.numWires && |st.gates| == i
    requires AllocInv(p, t, i, st)
    ensures GateOk(p, i) && AllocInv(p, t, i + 1, AllocStep(p, t, i, st))
  {
    StepRanges(p, t, i, st);
    StepLiveDistinct(p, t, i, st);
    StepFreeDisjoint(p, t, i, st);
    StepPersistAlone(p, t, i, st);
    StepRenamed(p, t, i, st);
  }

  lemma InitInv(p: BooleanProgram, t: WireReuse)
    requires DenseProgram(p)
    ensures AllocInv(p, t, 0, AllocInit(p))
  {
  }

  /** Every reachable allocator state satisfies the invariant. */
  lemma {:induction false} RunInv(p: BooleanProgram, t: WireReuse, n: nat)
    requires DenseProgram(p) && n <= |p.gates|
    ensures AllocInv(p, t, n, CompactRun(p, t, n))
  {
    if n == 0 {
      InitInv(p, t);
    } else {
      var st := CompactRun(p, t, n - 1);
      RunInv(p, t, n - 1);
      assert GateOk(p, n - 1);
      assert CompactRun(p, t, n) == AllocStep(p, t, n - 1, st);
      StepInv(p, t, n - 1, st);
    }
  }

  // ---- compaction preserves meaning ----

  ghost predicate SlotsHold<W>(c: Context<W>, p: BooleanProgram, t: WireReuse, i: nat, nid: seq<nat>, source: Store<W>,
                               compact: Store<W>)
    requires i <= |p.gates| && |nid| == p.numWires
  {
    forall w :: 0 <= w < p.numWires && Live(p, t, i, w) ==> Read(c, compact, nid[w]) == Read(c, source, w)
  }

  function GateStep<W>(c: Context<W>, g: Gate, m: Store<W>): Store<W> {
    m[g.out := GateValue(c, g, m)]
  }

  lemma RenamedGateAgrees<W>(c: Context<W>, p: BooleanProgram, t: WireReuse, i: nat, nid: seq<nat>, slot: nat,
                             source: Store<W>, compact: Store<W>)
    requires DenseProgram(p) && i < |p.gates| && |nid| == p.numWires && GateOk(p, i)
    requires SlotsHold(c, p, t, i, nid, source, compact)
    ensures GateValue(c, Rename(p.gates[i], nid[p.gates[i].out := slot]), compact) == GateValue(c, p.gates[i], source)
  {
    var g := p.gates[i];
    GateFacts(p, t, i);
    if !g.IsConst() {
      assert g.Reads(g.in0);
      if !g.IsNot() {
        assert g.Reads(g.in1);
      }
    }
    GateValueAgree(c, g, Rename(g, nid[g.out := slot]), source, compact);
  }

  lemma SlotsHoldNext<W>(c: Context<W>, p: BooleanProgram, t: WireReuse, i: nat, nid: seq<nat>, slot: nat,
                         source: Store<W>, compact: Store<W>)
    requires DenseProgram(p) && i < |p.gates| && |nid| == p.numWires && GateOk(p, i)
    requires forall w :: 0 <= w < p.numWires && Live(p, t, i, w) ==> nid[w] != slot
    requires SlotsHold(c, p, t, i, nid, source, compact)
    ensures var g, nid' := p.gates[i], nid[p.gates[i].out := slot];
            SlotsHold(c, p, t, i + 1, nid', GateStep(c, g, source), GateStep(c, Rename(g, nid'), compact))
  {
    var g, nid' := p.gates[i], nid[p.gates[i].out := slot];
    RenamedGateAgrees(c, p, t, i, nid, slot, source, compact);
    forall w | 0 <= w < p.numWires && Live(p, t, i + 1, w)
      ensures Read(c, GateStep(c, Rename(g, nid'), compact), nid'[w]) == Read(c, GateStep(c, g, source), w)
    {
      LiveNext(p, t, i, w);
    }
  }

  /** One gate of a reachable run, as far as the meaning is concerned. */
  lemma RunStep(p: BooleanProgram, t: WireReuse, i: nat) returns (slot: nat)
    requires DenseProgram(p) && i < |p.gates|
    ensures GateOk(p, i)
    ensures forall w :: 0 <= w < p.numWires && Live(p, t, i, w) ==> CompactRun(p, t, i).nid[w] != slot
    ensures CompactRun(p, t, i + 1).nid == CompactRun(p, t, i).nid[p.gates[i].out := slot]
    ensures CompactRun(p, t, i + 1).gates
         == CompactRun(p, t, i).gates + [Rename(p.gates[i], CompactRun(p, t, i + 1).nid)]
  {
    assert GateOk(p, i);
    var st := CompactRun(p, t, i);
    slot := SlotFor(p, t, i, st);
    RunInv(p, t, i);
    SlotForFacts(p, t, i, st);
  }

  /** One gate of the two executions side by side. */
  lemma SlotsHoldRun<W>(c: Context<W>, p: BooleanProgram, t: WireReuse, n: nat, m: Store<W>, nid': seq<nat>,
                        source': Store<W>, compact': Store<W>)
    requires DenseProgram(p) && 1 <= n <= |p.gates|
    requires SlotsHold(c, p, t, n - 1, CompactRun(p, t, n - 1).nid, ExecTo(c, p.gates, n - 1, m),
                       ExecTo(c, CompactRun(p, t, n - 1).gates, n - 1, m))
    requires nid' == CompactRun(p, t, n).nid && source' == ExecTo(c, p.gates, n, m) &&
             compact' == ExecTo(c, CompactRun(p, t, n).gates, n, m)
    ensures SlotsHold(c, p, t, n, nid', source', compact')
  {
    var i, st := n - 1, CompactRun(p, t, n - 1);
    var slot := RunStep(p, t, i);
    var g, h := p.gates[i], Rename(p.gates[i], nid');
    var source, compact := ExecTo(c, p.gates, i, m), ExecTo(c, st.gates, i, m);
    assert compact' == GateStep(c, h, compact) by {
      ExecSnoc(c, st.gates, h, m);
    }
    assert source' == GateStep(c, g, source);
    SlotsHoldNext(c, p, t, i, st.nid, slot, source, compact);
  }

  /** While a wire is live, its slot holds its value. */
  lemma {:induction false} LiveSlotsHoldValues<W>(c: Context<W>, p: BooleanProgram, t: WireReuse, n: nat, m: Store<W>)
    requires DenseProgram(p) && n <= |p.gates|
    ensures SlotsHold(c, p, t, n, CompactRun(p, t, n).nid, ExecTo(c, p.gates, n, m),
                      ExecTo(c, CompactRun(p, t, n).gates, n, m))
  {
    if n > 0 {
      LiveSlotsHoldValues(c, p, t, n - 1, m);
      SlotsHoldRun(c, p, t, n, m, CompactRun(p, t, n).nid, ExecTo(c, p.gates, n, m),
                   ExecTo(c, CompactRun(p, t, n).gates, n, m));
    }
  }

  /** Compaction at either level computes the same function in every context. */
  lemma CompactPreservesMeaning<W>(c: Context<W>, p: BooleanProgram, t: WireReuse, inputs: seq<W>)
    requires DenseProgram(p)
    ensures Eval(c, Compacted(p, t), inputs) == Eval(c, p, inputs)
  {
    var n := |p.gates|;
    LiveSlotsHoldValues(c, p, t, n, Seed(inputs));
    forall k | 0 <= k < |p.outputs|
      ensures Eval(c, Compacted(p, t), inputs)[k] == Eval(c, p, inputs)[k]
    {
      assert p.outputs[k] in p.outputs;
      assert Live(p, t, n, p.outputs[k]);
    }
  }

  /** A wire that has been defined has had its slot written. */
  lemma SlotWritten(p: BooleanProgram, t: WireReuse, j: nat, w: nat)
    requires DenseProgram(p) && j <= |p.gates| && w < p.numWires && Written(p, j, w)
    ensures CompactRun(p, t, |p.gates|).nid[w] < Compacted(p, t).numWires
    ensures Written(Compacted(p, t), j, CompactRun(p, t, |p.gates|).nid[w])
  {
    var n := |p.gates|;
    RunInv(p, t, n);
    WrittenLater(p, j, n, w);
    if w >= p.numInputs {
      var k :| 0 <= k < j && p.gates[k].out == w;
      assert GateOk(p, k) && Compacted(p, t).gates[k].out == CompactRun(p, t, n).nid[w];
    }
  }

  lemma RenamedGateOk(p: BooleanProgram, t: WireReuse, j: nat)
    requires DenseProgram(p) && j < |p.gates|
    ensures |Compacted(p, t).gates| == |p.gates| && GateOk(Compacted(p, t), j)
  {
    var n, q, g := |p.gates|, Compacted(p, t), p.gates[j];
    assert GateOk(p, j);
    assert q.gates[j] == Rename(g, CompactRun(p, t, n).nid) && p.numInputs <= q.gates[j].out by {
      RunInv(p, t, n);
      WrittenLater(p, j + 1, n, g.out);
    }
    SlotWritten(p, t, j + 1, g.out);
    if !g.IsConst() {
      assert g.Reads(g.in0);
      SlotWritten(p, t, j, g.in0);
      if !g.IsNot() {
        assert g.Reads(g.in1);
        SlotWritten(p, t, j, g.in1);
      }
    }
  }

  /** The compacted program passes validation. */
  lemma CompactIsValid(p: BooleanProgram, t: WireReuse)
    requires DenseProgram(p) && !t.Dense?
    ensures Valid(Compacted(p, t))
  {
    var q := Compacted(p, t);
    forall j | 0 <= j < |p.gates| ensures GateOk(q, j) {
      RenamedGateOk(p, t, j);
    }
    forall k | 0 <= k < |p.outputs| ensures q.outputs[k] < q.numWires && Written(q, |p.gates|, q.outputs[k]) {
      SlotWritten(p, t, |p.gates|, p.outputs[k]);
    }
    assert p.numInputs <= q.numWires <= p.numInputs + |p.gates| by {
      RunInv(p, t, |p.gates|);
    }
  }

  lemma WrittenLater(p: BooleanProgram, i: nat, j: nat, w: nat)
    requires i <= j <= |p.gates| && Written(p, i, w)
    ensures Written(p, j, w)
  {
  }

  /** Under Linear an And output's slot is written by its own gate and by no other. */
  lemma LinearWritesAndSlotsOnce(p: BooleanProgram, i: nat, j: nat)
    requires DenseProgram(p) && i < |p.gates| && j < |p.gates| && i != j && p.gates[i].IsAnd()
    ensures Compacted(p, Linear).gates[i].out != Compacted(p, Linear).gates[j].out
  {
    RunInv(p, Linear, |p.gates|);
    assert GateOk(p, i) && GateOk(p, j);
    assert Persist(p, Linear, p.gates[i].out);
    assert Written(p, |p.gates|, p.gates[i].out) && Written(p, |p.gates|, p.gates[j].out);
  }

  // ---- how many slots each level needs ----

  /** Full frees at every gate at least what Linear frees. */
  lemma {:induction false} FullFreesMore(p: BooleanProgram, gi: nat, n: nat)
    ensures |Frees(p, Linear, gi, n)| <= |Frees(p, Full, gi, n)|
  {
    if n > 0 {
      FullFreesMore(p, gi, n - 1);
    }
  }

  /** Two runs side by side: Full occupies no more slots than Linear, and has claimed no more. */
  lemma {:induction false} FullStaysBelowLinear(p: BooleanProgram, n: nat)
    requires DenseProgram(p) && n <= |p.gates|
    ensures var f, l := CompactRun(p, Full, n), CompactRun(p, Linear, n);
            && f.next <= l.next
            && f.next - |f.freelist| <= l.next - |l.freelist|
  {
    if n > 0 {
      FullStaysBelowLinear(p, n - 1);
      FullFreesMore(p, n - 1, p.numWires);
      assert GateOk(p, n - 1);
    }
  }

  /** Full <= Linear <= dense, for the slot counts of every dense program. */
  lemma SlotCounts(p: BooleanProgram)
    requires DenseProgram(p)
    ensures Compacted(p, Full).numWires <= Compacted(p, Linear).numWires <= p.numWires
  {
    FullStaysBelowLinear(p, |p.gates|);
    RunInv(p, Linear, |p.gates|);
  }

  // ---- uncompact ----

  /** cur[slot] is the dense id living in `slot`; gate n-1 defines id numInputs + n - 1. */
  datatype Relabel = Relabel(cur: seq<nat>, gates: seq<Gate>)

  function RelabelInit(p: BooleanProgram): Relabel {
    Relabel(seq(p.numWires, w => if w < p.numInputs then w else NIL), [])
  }

  function RelabelGate(g: Gate, cur: seq<nat>, out: nat): Gate
    requires forall w: nat :: g.Reads(w) ==> w < |cur|
  {
    Gate(if g.IsConst() then 0 else assert g.Reads(g.in0); cur[g.in0],
         if g.IsConst() || g.IsNot() then 0 else assert g.Reads(g.in1); cur[g.in1],
         out, g.op)
  }

  ghost function UncompactRun(p: BooleanProgram, n: nat): (r: Relabel)
    requires Executable(p) && n <= |p.gates|
    ensures |r.cur| == p.numWires && |r.gates| == n
  {
    if n == 0 then RelabelInit(p)
    else
      var r := UncompactRun(p, n - 1);
      var g := p.gates[n - 1];
      assert GateOk(p, n - 1);
      Relabel(r.cur[g.out := p.numInputs + n - 1],
              r.gates + [RelabelGate(g, r.cur, p.numInputs + n - 1)])
  }

  ghost function Uncompacted(p: BooleanProgram): BooleanProgram
    requires Executable(p)
  {
    var r := UncompactRun(p, |p.gates|);
    BooleanProgram(p.numInputs + |p.gates|, p.numInputs, Dense, r.gates, Slots(r.cur, p.outputs))
  }

  lemma {:induction false} UncompactRanges(p: BooleanProgram, n: nat, w: nat)
    requires Executable(p) && n <= |p.gates| && w < p.numWires && Written(p, n, w)
    ensures UncompactRun(p, n).cur[w] < p.numInputs + n
    ensures w < p.numInputs ==> UncompactRun(p, n).cur[w] == w
  {
    if n > 0 {
      assert GateOk(p, n - 1);
      if w != p.gates[n - 1].out {
        UncompactRanges(p, n - 1, w);
      }
    }
  }

  ghost predicate RelabelHolds<W>(c: Context<W>, p: BooleanProgram, i: nat, cur: seq<nat>, source: Store<W>,
                                  dense: Store<W>)
    requires i <= |p.gates| && |cur| == p.numWires
  {
    forall w :: 0 <= w < p.numWires && Written(p, i, w) ==>
      cur[w] < p.numInputs + i && Read(c, dense, cur[w]) == Read(c, source, w)
  }

  lemma RelabelledAgrees<W>(c: Context<W>, p: BooleanProgram, i: nat, cur: seq<nat>, source: Store<W>, dense: Store<W>)
    requires i < |p.gates| && |cur| == p.numWires && GateOk(p, i)
    requires RelabelHolds(c, p, i, cur, source, dense)
    ensures GateValue(c, RelabelGate(p.gates[i], cur, p.numInputs + i), dense) == GateValue(c, p.gates[i], source)
  {
    var g := p.gates[i];
    if !g.IsConst() {
      assert g.Reads(g.in0);
      if !g.IsNot() {
        assert g.Reads(g.in1);
      }
    }
    GateValueAgree(c, g, RelabelGate(g, cur, p.numInputs + i), source, dense);
  }

  lemma RelabelWrite<W>(c: Context<W>, p: BooleanProgram, i: nat, cur: seq<nat>, source: Store<W>, dense: Store<W>,
                        v: W)
    requires i < |p.gates| && |cur| == p.numWires && p.gates[i].out < p.numWires
    requires RelabelHolds(c, p, i, cur, source, dense)
    ensures RelabelHolds(c, p, i + 1, cur[p.gates[i].out := p.numInputs + i], source[p.gates[i].out := v],
                         dense[p.numInputs + i := v])
  {
    var o := p.gates[i].out;
    forall w | 0 <= w < p.numWires && Written(p, i + 1, w) && w != o
      ensures cur[w] < p.numInputs + i && Read(c, dense[p.numInputs + i := v], cur[w]) == Read(c, source[o := v], w)
    {
      WrittenNext(p, i, w);
    }
  }

  lemma RelabelHoldsNext<W>(c: Context<W>, p: BooleanProgram, i: nat, cur: seq<nat>, source: Store<W>, dense: Store<W>)
    requires i < |p.gates| && |cur| == p.numWires && GateOk(p, i)
    requires RelabelHolds(c, p, i, cur, source, dense)
    ensures var g, o := p.gates[i], p.numInputs + i;
            RelabelHolds(c, p, i + 1, cur[g.out := o], GateStep(c, g, source),
                         GateStep(c, RelabelGate(g, cur, o), dense))
  {
    RelabelledAgrees(c, p, i, cur, source, dense);
    RelabelWrite(c, p, i, cur, source, dense, GateValue(c, p.gates[i], source));
  }

  /** One gate of the relabelling walk. */
  lemma UncompactStep(p: BooleanProgram, i: nat)
    requires Executable(p) && i < |p.gates|
    ensures GateOk(p, i)
    ensures var r, r' := UncompactRun(p, i), UncompactRun(p, i + 1);
            && r'.cur == r.cur[p.gates[i].out := p.numInputs + i]
            && r'.gates == r.gates + [RelabelGate(p.gates[i], r.cur, p.numInputs + i)]
  {
    assert GateOk(p, i);
  }

  /** Executing an appended gate. */
  lemma ExecSnoc<W>(c: Context<W>, gates: seq<Gate>, g: Gate, m: Store<W>)
    ensures ExecTo(c, gates + [g], |gates| + 1, m) == GateStep(c, g, ExecTo(c, gates, |gates|, m))
  {
    ExecPrefix(c, gates, gates + [g], |gates|, m);
  }

  lemma RelabelInitHolds<W>(c: Context<W>, p: BooleanProgram, m: Store<W>)
    ensures RelabelHolds(c, p, 0, RelabelInit(p).cur, m, m)
  {
  }

  /** One relabelled gate, of the run that has reached gate n. */
  lemma UncompactHoldsNext<W>(c: Context<W>, p: BooleanProgram, n: nat, m: Store<W>,
                              cur: seq<nat>, source: Store<W>, dense: Store<W>)
    requires Executable(p) && 1 <= n <= |p.gates|
    requires RelabelHolds(c, p, n - 1, UncompactRun(p, n - 1).cur,
                          ExecTo(c, p.gates, n - 1, m), ExecTo(c, UncompactRun(p, n - 1).gates, n - 1, m))
    requires cur == UncompactRun(p, n).cur
    requires source == ExecTo(c, p.gates, n, m) && dense == ExecTo(c, UncompactRun(p, n).gates, n, m)
    ensures RelabelHolds(c, p, n, cur, source, dense)
  {
    var i, r := n - 1, UncompactRun(p, n - 1);
    UncompactStep(p, i);
    var h := RelabelGate(p.gates[i], r.cur, p.numInputs + i);
    assert dense == GateStep(c, h, ExecTo(c, r.gates, i, m)) by {
      ExecSnoc(c, r.gates, h, m);
    }
    RelabelHoldsNext(c, p, i, r.cur, ExecTo(c, p.gates, i, m), ExecTo(c, r.gates, i, m));
  }

  lemma {:induction false} UncompactHoldsValues<W>(c: Context<W>, p: BooleanProgram, n: nat, m: Store<W>)
    requires Executable(p) && n <= |p.gates|
    ensures RelabelHolds(c, p, n, UncompactRun(p, n).cur, ExecTo(c, p.gates, n, m),
                         ExecTo(c, UncompactRun(p, n).gates, n, m))
  {
    if n == 0 {
      RelabelInitHolds(c, p, m);
    } else {
      UncompactHoldsValues(c, p, n - 1, m);
      UncompactHoldsNext(c, p, n, m, UncompactRun(p, n).cur, ExecTo(c, p.gates, n, m),
                         ExecTo(c, UncompactRun(p, n).gates, n, m));
    }
  }

  /** Every accepted program has a dense form that computes the same function. */
  lemma UncompactPreservesMeaning<W>(c: Context<W>, p: BooleanProgram, inputs: seq<W>)
    requires Executable(p)
    ensures Eval(c, Uncompacted(p), inputs) == Eval(c, p, inputs)
  {
    UncompactHoldsValues(c, p, |p.gates|, Seed(inputs));
    forall k | 0 <= k < |p.outputs|
      ensures Eval(c, Uncompacted(p), inputs)[k] == Eval(c, p, inputs)[k]
    {
      assert Written(p, |p.gates|, p.outputs[k]);
    }
  }

  lemma {:induction false} UncompactGate(p: BooleanProgram, n: nat, j: nat)
    requires Executable(p) && j < n <= |p.gates|
    ensures GateOk(p, j)
    ensures UncompactRun(p, n).gates[j] == RelabelGate(p.gates[j], UncompactRun(p, j).cur, p.numInputs + j)
  {
    assert GateOk(p, j);
    if j < n - 1 {
      UncompactGate(p, n - 1, j);
    }
  }

  /** The result is dense, valid and emission-canonical. */
  lemma UncompactIsValid(p: BooleanProgram)
    requires Executable(p)
    ensures DenseProgram(Uncompacted(p)) && Emission(Uncompacted(p))
  {
    var q := Uncompacted(p);
    forall j | 0 <= j < |p.gates|
      ensures q.gates[j].out == p.numInputs + j && Canonical(q.gates[j])
      ensures forall w: nat :: q.gates[j].Reads(w) ==> w < p.numInputs + j
    {
      UncompactGate(p, |p.gates|, j);
      var g := p.gates[j];
      if !g.IsConst() {
        assert g.Reads(g.in0);
        UncompactRanges(p, j, g.in0);
        if !g.IsNot() {
          assert g.Reads(g.in1);
          UncompactRanges(p, j, g.in1);
        }
      }
    }
    forall j, w: nat | 0 <= j <= |p.gates| && w < p.numInputs + j ensures Written(q, j, w) {
      if w >= p.numInputs {
        assert q.gates[w - p.numInputs].out == w;
      }
    }
    forall j | 0 <= j < |p.gates| ensures GateOk(q, j) {
    }
    forall k | 0 <= k < |p.outputs| ensures q.outputs[k] < p.numInputs + |p.gates| {
      UncompactRanges(p, |p.gates|, p.outputs[k]);
    }
  }

  lemma {:induction false} EmissionRelabelsToItself(p: BooleanProgram, n: nat, w: nat)
    requires Executable(p) && Emission(p) && n <= |p.gates| && w < p.numWires && Written(p, n, w)
    ensures UncompactRun(p, n).cur[w] == w
  {
    if n > 0 {
      assert GateOk(p, n - 1);
      if w != p.gates[n - 1].out {
        EmissionRelabelsToItself(p, n - 1, w);
      }
    }
  }

  /** On dense programs uncompact is the identity exactly when the numbering is emission order. */
  lemma UncompactIdentity(p: BooleanProgram)
    requires DenseProgram(p)
    ensures Uncompacted(p) == p <==> Emission(p)
  {
    UncompactIsValid(p);
    if Emission(p) {
      var q := Uncompacted(p);
      forall j | 0 <= j < |p.gates| ensures q.gates[j] == p.gates[j] {
        UncompactGate(p, |p.gates|, j);
        var g := p.gates[j];
        if !g.IsConst() {
          assert g.Reads(g.in0);
          EmissionRelabelsToItself(p, j, g.in0);
          if !g.IsNot() {
            assert g.Reads(g.in1);
            EmissionRelabelsToItself(p, j, g.in1);
          }
        }
      }
      forall k | 0 <= k < |p.outputs| ensures q.outputs[k] == p.outputs[k] {
        EmissionRelabelsToItself(p, |p.gates|, p.outputs[k]);
      }
      assert q.gates == p.gates && q.outputs == p.outputs;
    }
  }

  /** A dense program numbered against emission order, which uncompact renumbers. */
  lemma UncompactRenumbersSomeDense()
    ensures var p := BooleanProgram(2, 0, Dense, [Gate(0, 0, 1, Const0), Gate(0, 0, 0, Const1)], [0]);
            DenseProgram(p) && Uncompacted(p) != p
  {
    var p := BooleanProgram(2, 0, Dense, [Gate(0, 0, 1, Const0), Gate(0, 0, 0, Const1)], [0]);
    assert p.gates[1].out == 0;
    assert DenseProgram(p);
    assert p.gates[0].out != p.numInputs + 0;
    UncompactIdentity(p);
  }

  /** The gate compaction emits at i, found in the finished program. */
  lemma CompactedGate(p: BooleanProgram, t: WireReuse, i: nat)
    requires DenseProgram(p) && i < |p.gates|
    ensures GateOk(p, i)
    ensures Compacted(p, t).gates[i].out == CompactRun(p, t, i + 1).nid[p.gates[i].out]
  {
    assert GateOk(p, i);
    RunRenamed(p, t, |p.gates|, i);
    NidStable(p, t, i + 1, |p.gates|, p.gates[i].out);
  }

  lemma RunRenamed(p: BooleanProgram, t: WireReuse, n: nat, i: nat)
    requires DenseProgram(p) && i < n <= |p.gates|
    ensures GateOk(p, i) && CompactRun(p, t, n).gates[i] == Rename(p.gates[i], CompactRun(p, t, n).nid)
  {
    assert GateOk(p, i);
    var st := CompactRun(p, t, n);
    assert Renamed(p, n, st) by {
      RunInv(p, t, n);
    }
  }

  lemma SlotInRange(p: BooleanProgram, t: WireReuse, n: nat, w: nat)
    requires DenseProgram(p) && n <= |p.gates| && w < p.numWires && Written(p, n, w)
    ensures CompactRun(p, t, n).nid[w] < Compacted(p, t).numWires
  {
    RunInv(p, t, n);
    NextGrows(p, t, n, |p.gates|);
  }

  /** Compacting and then relabelling wire w, as of gate n, is relabelling it. */
  ghost predicate RelabelsAlike(p: BooleanProgram, t: WireReuse, n: nat, w: nat)
    requires DenseProgram(p) && Executable(Compacted(p, t)) && n <= |p.gates| && w < p.numWires
  {
    && n <= |Compacted(p, t).gates| && CompactRun(p, t, n).nid[w] < Compacted(p, t).numWires
    && UncompactRun(Compacted(p, t), n).cur[CompactRun(p, t, n).nid[w]] == UncompactRun(p, n).cur[w]
  }

  lemma RelabelsAlikeNext(p: BooleanProgram, t: WireReuse, i: nat, w: nat)
    requires DenseProgram(p) && Executable(Compacted(p, t)) && i < |p.gates| && w < p.numWires && Live(p, t, i + 1, w)
    requires |Compacted(p, t).gates| == |p.gates|
    requires w != p.gates[i].out ==> Live(p, t, i, w) && RelabelsAlike(p, t, i, w)
    ensures RelabelsAlike(p, t, i + 1, w)
  {
    SlotInRange(p, t, i + 1, w);
    var slot := RunStep(p, t, i);
    UncompactStep(p, i);
    UncompactStep(Compacted(p, t), i);
    CompactedGate(p, t, i);
  }

  lemma {:induction false} CompactThenRelabel(p: BooleanProgram, t: WireReuse, n: nat, w: nat)
    requires DenseProgram(p) && Executable(Compacted(p, t)) && n <= |p.gates| && w < p.numWires && Live(p, t, n, w)
    requires |Compacted(p, t).gates| == |p.gates|
    ensures RelabelsAlike(p, t, n, w)
  {
    if n == 0 {
      SlotInRange(p, t, 0, w);
    } else {
      LiveNext(p, t, n - 1, w);
      if w != p.gates[n - 1].out {
        CompactThenRelabel(p, t, n - 1, w);
      }
      RelabelsAlikeNext(p, t, n - 1, w);
    }
  }

  lemma {:induction false} NextGrows(p: BooleanProgram, t: WireReuse, i: nat, n: nat)
    requires DenseProgram(p) && i <= n <= |p.gates|
    ensures CompactRun(p, t, i).next <= CompactRun(p, t, n).next
  {
    if i < n {
      NextGrows(p, t, i, n - 1);
      assert GateOk(p, n - 1);
    }
  }

  lemma {:induction false} NidStable(p: BooleanProgram, t: WireReuse, i: nat, n: nat, w: nat)
    requires DenseProgram(p) && i <= n <= |p.gates| && w < p.numWires && Written(p, i, w)
    ensures CompactRun(p, t, n).nid[w] == CompactRun(p, t, i).nid[w]
  {
    if i < n {
      NidStable(p, t, i, n - 1, w);
      WrittenLater(p, i, n - 1, w);
      assert GateOk(p, n - 1) && w != p.gates[n - 1].out by {
        GateFacts(p, t, n - 1);
      }
    }
  }

  /** Uncompact undoes compact: it gives the emission-order form of the original, and so exactly
      the original when that was in emission order. */
  lemma UncompactUndoesCompact(p: BooleanProgram, t: WireReuse)
    requires DenseProgram(p) && !t.Dense?
    ensures Valid(Compacted(p, t))
    ensures Uncompacted(Compacted(p, t)) == Uncompacted(p)
    ensures Emission(p) <==> Uncompacted(Compacted(p, t)) == p
  {
    CompactIsValid(p, t);
    UncompactIdentity(p);
    var q, n := Compacted(p, t), |p.gates|;
    var a, b := Uncompacted(q), Uncompacted(p);
    RunInv(p, t, n);
    forall j | 0 <= j < n ensures a.gates[j] == b.gates[j] {
      UncompactGate(p, n, j);
      UncompactGate(q, n, j);
      GateFacts(p, t, j);
      var g := p.gates[j];
      if !g.IsConst() {
        assert g.Reads(g.in0);
        CompactThenRelabel(p, t, j, g.in0);
        NidStable(p, t, j, n, g.in0);
        if !g.IsNot() {
          assert g.Reads(g.in1);
          CompactThenRelabel(p, t, j, g.in1);
          NidStable(p, t, j, n, g.in1);
        }
      }
    }
    forall k | 0 <= k < |p.outputs| ensures a.outputs[k] == b.outputs[k] {
      assert p.outputs[k] in p.outputs;
      CompactThenRelabel(p, t, n, p.outputs[k]);
    }
    assert a.gates == b.gates && a.outputs == b.outputs;
  }
}
