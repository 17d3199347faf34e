/** How far compaction compacts (emp-tool/ir/transform.h): a fresh slot is claimed only when no dead
    one is left, and the slot taken is the one freed last. */
module Reuse {

  import opened Program
  import opened Compact

  /** Wire w keeps its slot busy when i gates have run: it is an input or an output, or an And output
      under Linear, or some gate from i on reads it, or no gate ever does, so that nothing frees it. */
  ghost predicate Busy(p: BooleanProgram, t: WireReuse, i: nat, w: nat)
    requires i <= |p.gates|
  {
    && w < p.numWires
    && (w < p.numInputs || exists j :: 0 <= j < i && p.gates[j].out == w)
    && (|| w < p.numInputs || w in p.outputs
        || (t.Linear? && exists j :: 0 <= j < |p.gates| && p.gates[j].IsAnd() && p.gates[j].out == w)
        || (exists j :: i <= j < |p.gates| && p.gates[j].Reads(w))
        || (forall j :: 0 <= j < |p.gates| ==> !p.gates[j].Reads(w)))
  }

  ghost predicate BusySlot(p: BooleanProgram, t: WireReuse, i: nat, nid: seq<nat>, s: nat)
    requires i <= |p.gates| && |nid| == p.numWires
  {
    exists w :: 0 <= w < p.numWires && nid[w] == s && Busy(p, t, i, w)
  }

  /** The same through the tables of the allocator. */
  ghost predicate Held(p: BooleanProgram, t: WireReuse, i: nat, w: nat)
    requires i <= |p.gates|
  {
    w < p.numWires && Written(p, i, w) && (Persist(p, t, w) || LastUseIn(p, w) >= i || LastUseIn(p, w) == -1)
  }

  lemma BusyIs(p: BooleanProgram, t: WireReuse, i: nat, w: nat)
    requires i <= |p.gates|
    ensures Busy(p, t, i, w) <==> Held(p, t, i, w)
  {
    var k := LastUseIn(p, w);
    if k >= 0 {
      assert p.gates[k].Reads(w);
    }
  }

  /** v was freed before w: by an earlier gate, or by the same gate and with the smaller id. */
  predicate FreedBefore(p: BooleanProgram, v: nat, w: nat) {
    LastUseIn(p, v) < LastUseIn(p, w) || (LastUseIn(p, v) == LastUseIn(p, w) && v < w)
  }

  // ---- one step ----

  lemma HeldNext(p: BooleanProgram, t: WireReuse, i: nat, w: nat)
    requires DenseProgram(p) && i < |p.gates|
    ensures Held(p, t, i + 1, w) <==> w == p.gates[i].out || (Held(p, t, i, w) && !FreedAt(p, t, i, w))
  {
    WrittenNext(p, i, w);
    GateFacts(p, t, i);
    if w == p.gates[i].out {
      OutUnread(p, i);
    }
  }

  lemma WrittenUpTo(p: BooleanProgram, k: nat, i: nat, w: nat)
    requires k <= i <= |p.gates| && Written(p, k, w)
    ensures Written(p, i, w)
  {
  }

  /** No gate up to i reads what gate i defines. */
  lemma OutUnread(p: BooleanProgram, i: nat)
    requires DenseProgram(p) && i < |p.gates|
    ensures !(0 <= LastUseIn(p, p.gates[i].out) <= i)
  {
    var k := LastUseIn(p, p.gates[i].out);
    if 0 <= k < i {
      GateFacts(p, Full, k);
      WrittenUpTo(p, k, i, p.gates[i].out);
    }
    GateFacts(p, Full, i);
  }

  /** Held wires have slots of their own. */
  ghost predicate HeldApart(p: BooleanProgram, t: WireReuse, i: nat, nid: seq<nat>)
    requires i <= |p.gates| && |nid| == p.numWires
  {
    forall v: nat, w: nat :: Held(p, t, i, v) && Held(p, t, i, w) && v != w ==> nid[v] != nid[w]
  }

  /** Free slots hold no held wire. */
  ghost predicate FreeUnheld(p: BooleanProgram, t: WireReuse, i: nat, nid: seq<nat>, free: seq<nat>)
    requires i <= |p.gates| && |nid| == p.numWires
  {
    forall w: nat, k: nat :: Held(p, t, i, w) && k < |free| ==> nid[w] != free[k]
  }

  /** What the step does to table and freelist. */
  lemma StepShape(p: BooleanProgram, t: WireReuse, i: nat, st: Alloc)
    requires DenseProgram(p) && i < |p.gates| && |st.nid| == p.numWires && |st.gates| == i && AllocInv(p, t, i, st)
    ensures GateOk(p, i)
    ensures
      var st', slot := AllocStep(p, t, i, st), SlotFor(p, t, i, st);
      && st'.nid == st.nid[p.gates[i].out := slot]
      && st'.freelist == Kept(p, t, i, st) + Slots(st.nid, Frees(p, t, i, p.numWires))
      && (forall k :: 0 <= k < |Kept(p, t, i, st)| ==> st.freelist[k] != slot)
      && (!TakesFree(p, t, i, st) ==>
            forall w :: 0 <= w < p.numWires && Written(p, i, w) ==> st.nid[w] != slot)
      && (TakesFree(p, t, i, st) ==> st.freelist != [] && slot == st.freelist[|st.freelist| - 1])
    ensures !Written(p, i, p.gates[i].out) && p.gates[i].out < p.numWires
  {
    assert GateOk(p, i);
    GateFacts(p, t, i);
    FreelistNext(p, t, i, st);
    SlotForFacts(p, t, i, st);
    forall k | 0 <= k < |Kept(p, t, i, st)|
      ensures st.freelist[k] != SlotFor(p, t, i, st)
    {
      KeptFacts(p, t, i, st, k);
    }
  }

  lemma SlotUnheld(p: BooleanProgram, t: WireReuse, i: nat, st: Alloc, w: nat)
    requires DenseProgram(p) && i < |p.gates| && |st.nid| == p.numWires && |st.gates| == i && AllocInv(p, t, i, st)
    requires FreeUnheld(p, t, i, st.nid, st.freelist) && Held(p, t, i, w)
    ensures st.nid[w] != SlotFor(p, t, i, st)
  {
    StepShape(p, t, i, st);
    if TakesFree(p, t, i, st) {
      assert st.nid[w] != st.freelist[|st.freelist| - 1];
    }
  }

  lemma HeldApartNext(p: BooleanProgram, t: WireReuse, i: nat, st: Alloc)
    requires DenseProgram(p) && i < |p.gates| && |st.nid| == p.numWires && |st.gates| == i && AllocInv(p, t, i, st)
    requires HeldApart(p, t, i, st.nid) && FreeUnheld(p, t, i, st.nid, st.freelist)
    ensures GateOk(p, i) && HeldApart(p, t, i + 1, AllocStep(p, t, i, st).nid)
  {
    StepShape(p, t, i, st);
    var nid := AllocStep(p, t, i, st).nid;
    forall v: nat, w: nat | Held(p, t, i + 1, v) && Held(p, t, i + 1, w) && v != w
      ensures nid[v] != nid[w]
    {
      HeldNext(p, t, i, v);
      HeldNext(p, t, i, w);
      if v == p.gates[i].out {
        SlotUnheld(p, t, i, st, w);
      } else if w == p.gates[i].out {
        SlotUnheld(p, t, i, st, v);
      }
    }
  }

  lemma FreeUnheldNext(p: BooleanProgram, t: WireReuse, i: nat, st: Alloc)
    requires DenseProgram(p) && i < |p.gates| && |st.nid| == p.numWires && |st.gates| == i && AllocInv(p, t, i, st)
    requires HeldApart(p, t, i, st.nid) && FreeUnheld(p, t, i, st.nid, st.freelist)
    ensures GateOk(p, i) && FreeUnheld(p, t, i + 1, AllocStep(p, t, i, st).nid, AllocStep(p, t, i, st).freelist)
  {
    StepShape(p, t, i, st);
    var nid, free := AllocStep(p, t, i, st).nid, AllocStep(p, t, i, st).freelist;
    forall w: nat, k: nat | Held(p, t, i + 1, w) && k < |free|
      ensures nid[w] != free[k]
    {
      FreeUnheldAt(p, t, i, st, w, k);
    }
  }

  lemma FreeUnheldAt(p: BooleanProgram, t: WireReuse, i: nat, st: Alloc, w: nat, k: nat)
    requires DenseProgram(p) && i < |p.gates| && |st.nid| == p.numWires && |st.gates| == i && AllocInv(p, t, i, st)
    requires HeldApart(p, t, i, st.nid) && FreeUnheld(p, t, i, st.nid, st.freelist) && GateOk(p, i)
    requires Held(p, t, i + 1, w) && k < |AllocStep(p, t, i, st).freelist|
    ensures AllocStep(p, t, i, st).nid[w] != AllocStep(p, t, i, st).freelist[k]
  {
    StepShape(p, t, i, st);
    HeldNext(p, t, i, w);
    var kept, frees := Kept(p, t, i, st), Frees(p, t, i, p.numWires);
    if k < |kept| {
      assert AllocStep(p, t, i, st).freelist[k] == st.freelist[k];
    } else {
      FreedUnheld(p, t, i, st, w, frees[k - |kept|]);
    }
  }

  lemma FreedUnheld(p: BooleanProgram, t: WireReuse, i: nat, st: Alloc, w: nat, v: nat)
    requires DenseProgram(p) && i < |p.gates| && |st.nid| == p.numWires && |st.gates| == i && AllocInv(p, t, i, st)
    requires HeldApart(p, t, i, st.nid) && FreeUnheld(p, t, i, st.nid, st.freelist) && GateOk(p, i)
    requires Held(p, t, i + 1, w) && v < p.numWires && FreedAt(p, t, i, v)
    ensures AllocStep(p, t, i, st).nid[w] != st.nid[v]
  {
    HeldNext(p, t, i, w);
    FreedWasLive(p, t, i, v);
    assert Held(p, t, i, v);
    if w == p.gates[i].out {
      SlotUnheld(p, t, i, st, v);
    }
  }

  // ---- the freelist, wire by wire ----

  /** Free slot k was freed by wire w, the last of the wires that held it. */
  ghost predicate FreedEntry(p: BooleanProgram, i: nat, nid: seq<nat>, slot: nat, w: nat)
    requires i <= |p.gates| && |nid| == p.numWires
  {
    && w < p.numWires && Written(p, i, w) && 0 <= LastUseIn(p, w) < i && nid[w] == slot
    && (forall v :: 0 <= v < p.numWires && Written(p, i, v) && nid[v] == slot ==>
          v == w || LastUseIn(p, v) < LastUseIn(p, w))
  }

  ghost predicate FreedBy(p: BooleanProgram, i: nat, st: Alloc, fw: seq<nat>)
    requires i <= |p.gates| && |st.nid| == p.numWires
  {
    |fw| == |st.freelist| && forall k :: 0 <= k < |fw| ==> FreedEntry(p, i, st.nid, st.freelist[k], fw[k])
  }

  ghost predicate InOrder(p: BooleanProgram, fw: seq<nat>) {
    forall j, k :: 0 <= j < k < |fw| ==> FreedBefore(p, fw[j], fw[k])
  }

  /** What remains of the list of freed wires after the pop, and what the gate appends. */
  function FreedNext(p: BooleanProgram, t: WireReuse, i: nat, st: Alloc, fw: seq<nat>): seq<nat>
    requires i < |p.gates| && |fw| == |st.freelist|
  {
    fw[..|Kept(p, t, i, st)|] + Frees(p, t, i, p.numWires)
  }

  lemma InOrderNext(p: BooleanProgram, t: WireReuse, i: nat, st: Alloc, fw: seq<nat>)
    requires i < |p.gates| && |st.nid| == p.numWires && FreedBy(p, i, st, fw) && InOrder(p, fw)
    ensures InOrder(p, FreedNext(p, t, i, st, fw))
  {
    var next := FreedNext(p, t, i, st, fw);
    var n := if TakesFree(p, t, i, st) then |fw| - 1 else |fw|;
    forall j, k | 0 <= j < k < |next|
      ensures FreedBefore(p, next[j], next[k])
    {
      if k < n {
        assert next[j] == fw[j] && next[k] == fw[k];
      } else if j < n {
        assert next[j] == fw[j] && LastUseIn(p, next[k]) == i;
        assert FreedEntry(p, i, st.nid, st.freelist[j], fw[j]);
      }
    }
  }

  /** A slot the step leaves on the freelist. */
  lemma EntryKept(p: BooleanProgram, t: WireReuse, i: nat, st: Alloc, k: nat, w: nat)
    requires DenseProgram(p) && i < |p.gates| && |st.nid| == p.numWires && |st.gates| == i && AllocInv(p, t, i, st)
    requires k < |Kept(p, t, i, st)| && FreedEntry(p, i, st.nid, st.freelist[k], w)
    ensures GateOk(p, i) && FreedEntry(p, i + 1, AllocStep(p, t, i, st).nid, st.freelist[k], w)
  {
    StepShape(p, t, i, st);
    var nid, slot := AllocStep(p, t, i, st).nid, st.freelist[k];
    WrittenNext(p, i, w);
    forall v | 0 <= v < p.numWires && Written(p, i + 1, v) && nid[v] == slot
      ensures v == w || LastUseIn(p, v) < LastUseIn(p, w)
    {
      WrittenNext(p, i, v);
    }
  }

  /** A slot the step frees. */
  lemma EntryPushed(p: BooleanProgram, t: WireReuse, i: nat, st: Alloc, w: nat)
    requires DenseProgram(p) && i < |p.gates| && |st.nid| == p.numWires && |st.gates| == i && AllocInv(p, t, i, st)
    requires HeldApart(p, t, i, st.nid) && FreeUnheld(p, t, i, st.nid, st.freelist)
    requires w < p.numWires && FreedAt(p, t, i, w)
    ensures GateOk(p, i) && FreedEntry(p, i + 1, AllocStep(p, t, i, st).nid, st.nid[w], w)
  {
    StepShape(p, t, i, st);
    FreedWasLive(p, t, i, w);
    WrittenNext(p, i, w);
    assert Held(p, t, i, w);
    SlotUnheld(p, t, i, st, w);
    var nid := AllocStep(p, t, i, st).nid;
    forall v | 0 <= v < p.numWires && Written(p, i + 1, v) && nid[v] == st.nid[w]
      ensures v == w || LastUseIn(p, v) < LastUseIn(p, w)
    {
      WrittenNext(p, i, v);
      assert v != w ==> !Held(p, t, i, v);
    }
  }

  /** Two lists in step, cut to the same length and extended by wires and by what a table holds for them. */
  lemma InStep(free: seq<nat>, fw: seq<nat>, n: nat, nid: seq<nat>, ws: seq<nat>, k: nat)
    requires n <= |free| == |fw| && k < n + |ws| && forall j :: 0 <= j < |ws| ==> ws[j] < |nid|
    ensures k < n ==> (free[..n] + Slots(nid, ws))[k] == free[k] && (fw[..n] + ws)[k] == fw[k]
    ensures k >= n ==>
      ws[k - n] < |nid| && (free[..n] + Slots(nid, ws))[k] == nid[ws[k - n]] && (fw[..n] + ws)[k] == ws[k - n]
  {
  }

  lemma KeptIsPrefix(p: BooleanProgram, t: WireReuse, i: nat, st: Alloc)
    requires i < |p.gates|
    ensures |Kept(p, t, i, st)| <= |st.freelist|
    ensures Kept(p, t, i, st) == st.freelist[..|Kept(p, t, i, st)|]
  {
  }

  /** Which slot and which wire stand at place k of the lists after the step. */
  lemma FreedPlace(p: BooleanProgram, t: WireReuse, i: nat, st: Alloc, fw: seq<nat>, free: seq<nat>, next: seq<nat>,
                   k: nat)
    requires i < |p.gates| && |st.nid| == p.numWires && |fw| == |st.freelist|
    requires free == Kept(p, t, i, st) + Slots(st.nid, Frees(p, t, i, p.numWires)) && k < |free|
    requires next == FreedNext(p, t, i, st, fw)
    ensures |next| == |free|
    ensures k < |Kept(p, t, i, st)| ==> k < |fw| && free[k] == st.freelist[k] && next[k] == fw[k]
    ensures k >= |Kept(p, t, i, st)| ==>
      next[k] < p.numWires && FreedAt(p, t, i, next[k]) && free[k] == st.nid[next[k]]
  {
    KeptIsPrefix(p, t, i, st);
    InStep(st.freelist, fw, |Kept(p, t, i, st)|, st.nid, Frees(p, t, i, p.numWires), k);
  }

  lemma FreedByNextAt(p: BooleanProgram, t: WireReuse, i: nat, st: Alloc, fw: seq<nat>, free: seq<nat>, k: nat)
    requires DenseProgram(p) && i < |p.gates| && |st.nid| == p.numWires && |st.gates| == i && AllocInv(p, t, i, st)
    requires HeldApart(p, t, i, st.nid) && FreeUnheld(p, t, i, st.nid, st.freelist) && FreedBy(p, i, st, fw)
    requires GateOk(p, i) && free == AllocStep(p, t, i, st).freelist && k < |free|
    ensures |FreedNext(p, t, i, st, fw)| == |free|
    ensures FreedEntry(p, i + 1, AllocStep(p, t, i, st).nid, free[k], FreedNext(p, t, i, st, fw)[k])
  {
    FreelistNext(p, t, i, st);
    FreedPlace(p, t, i, st, fw, free, FreedNext(p, t, i, st, fw), k);
    if k < |Kept(p, t, i, st)| {
      EntryKept(p, t, i, st, k, fw[k]);
    } else {
      EntryPushed(p, t, i, st, FreedNext(p, t, i, st, fw)[k]);
    }
  }

  lemma FreedByNext(p: BooleanProgram, t: WireReuse, i: nat, st: Alloc, fw: seq<nat>)
    requires DenseProgram(p) && i < |p.gates| && |st.nid| == p.numWires && |st.gates| == i && AllocInv(p, t, i, st)
    requires HeldApart(p, t, i, st.nid) && FreeUnheld(p, t, i, st.nid, st.freelist) && FreedBy(p, i, st, fw)
    ensures GateOk(p, i) && FreedBy(p, i + 1, AllocStep(p, t, i, st), FreedNext(p, t, i, st, fw))
  {
    FreelistNext(p, t, i, st);
    var next, free := FreedNext(p, t, i, st, fw), AllocStep(p, t, i, st).freelist;
    forall k | 0 <= k < |next|
      ensures FreedEntry(p, i + 1, AllocStep(p, t, i, st).nid, free[k], next[k])
    {
      FreedByNextAt(p, t, i, st, fw, free, k);
    }
  }

  // ---- no slot is lost ----

  ghost predicate HeldSlot(p: BooleanProgram, t: WireReuse, i: nat, nid: seq<nat>, s: nat)
    requires i <= |p.gates| && |nid| == p.numWires
  {
    exists w :: 0 <= w < p.numWires && nid[w] == s && Held(p, t, i, w)
  }

  /** Every slot is free or held. */
  ghost predicate Covered(p: BooleanProgram, t: WireReuse, i: nat, st: Alloc)
    requires i <= |p.gates| && |st.nid| == p.numWires
  {
    forall s: nat :: s < st.next ==> s in st.freelist || HeldSlot(p, t, i, st.nid, s)
  }

  lemma HeldSlotNext(p: BooleanProgram, t: WireReuse, i: nat, st: Alloc, w: nat)
    requires DenseProgram(p) && i < |p.gates| && |st.nid| == p.numWires && |st.gates| == i && GateOk(p, i)
    requires Held(p, t, i, w)
    ensures st.nid[w] in AllocStep(p, t, i, st).freelist || HeldSlot(p, t, i + 1, AllocStep(p, t, i, st).nid, st.nid[w])
  {
    FreelistNext(p, t, i, st);
    GateFacts(p, t, i);
    HeldNext(p, t, i, w);
    if FreedAt(p, t, i, w) {
      var frees := Frees(p, t, i, p.numWires);
      var k :| 0 <= k < |frees| && frees[k] == w;
      assert Slots(st.nid, frees)[k] == st.nid[w];
    } else {
      assert AllocStep(p, t, i, st).nid[w] == st.nid[w];
    }
  }

  lemma CoveredSlot(p: BooleanProgram, t: WireReuse, i: nat, st: Alloc, s: nat)
    requires DenseProgram(p) && i < |p.gates| && |st.nid| == p.numWires && |st.gates| == i && GateOk(p, i)
    requires Covered(p, t, i, st) && s < AllocStep(p, t, i, st).next
    ensures s in AllocStep(p, t, i, st).freelist || HeldSlot(p, t, i + 1, AllocStep(p, t, i, st).nid, s)
  {
    FreelistNext(p, t, i, st);
    var st', out := AllocStep(p, t, i, st), p.gates[i].out;
    if s == SlotFor(p, t, i, st) {
      HeldNext(p, t, i, out);
      assert st'.nid[out] == s;
    } else if s in st.freelist {
      var k :| 0 <= k < |st.freelist| && st.freelist[k] == s;
      assert s == Kept(p, t, i, st)[k];
    } else {
      var w :| 0 <= w < p.numWires && st.nid[w] == s && Held(p, t, i, w);
      HeldSlotNext(p, t, i, st, w);
    }
  }

  lemma CoveredNext(p: BooleanProgram, t: WireReuse, i: nat, st: Alloc)
    requires DenseProgram(p) && i < |p.gates| && |st.nid| == p.numWires && |st.gates| == i && GateOk(p, i)
    requires AllocInv(p, t, i, st) && Covered(p, t, i, st)
    ensures Covered(p, t, i + 1, AllocStep(p, t, i, st))
  {
    forall s: nat | s < AllocStep(p, t, i, st).next
      ensures s in AllocStep(p, t, i, st).freelist || HeldSlot(p, t, i + 1, AllocStep(p, t, i, st).nid, s)
    {
      CoveredSlot(p, t, i, st, s);
    }
  }

  // ---- every reachable state ----

  ghost predicate Tight(p: BooleanProgram, t: WireReuse, i: nat, st: Alloc, fw: seq<nat>)
    requires i <= |p.gates| && |st.nid| == p.numWires
  {
    && HeldApart(p, t, i, st.nid) && FreeUnheld(p, t, i, st.nid, st.freelist)
    && FreedBy(p, i, st, fw) && InOrder(p, fw) && Covered(p, t, i, st)
  }

  lemma TightStart(p: BooleanProgram, t: WireReuse)
    requires DenseProgram(p)
    ensures Tight(p, t, 0, AllocInit(p), [])
  {
    var st := AllocInit(p);
    forall s: nat | s < st.next
      ensures HeldSlot(p, t, 0, st.nid, s)
    {
      assert st.nid[s] == s && Held(p, t, 0, s);
    }
  }

  lemma TightNext(p: BooleanProgram, t: WireReuse, i: nat, fw: seq<nat>) returns (next: seq<nat>)
    requires DenseProgram(p) && i < |p.gates| && Tight(p, t, i, CompactRun(p, t, i), fw)
    ensures Tight(p, t, i + 1, CompactRun(p, t, i + 1), next)
  {
    var st := CompactRun(p, t, i);
    RunInv(p, t, i);
    assert GateOk(p, i);
    next := FreedNext(p, t, i, st, fw);
    HeldApartNext(p, t, i, st);
    FreeUnheldNext(p, t, i, st);
    FreedByNext(p, t, i, st, fw);
    InOrderNext(p, t, i, st, fw);
    CoveredNext(p, t, i, st);
  }

  /** The freelist of every reachable state, by the wires that were freed. */
  lemma {:induction false} FreelistIs(p: BooleanProgram, t: WireReuse, n: nat) returns (fw: seq<nat>)
    requires DenseProgram(p) && n <= |p.gates|
    ensures Tight(p, t, n, CompactRun(p, t, n), fw)
  {
    if n == 0 {
      TightStart(p, t);
      fw := [];
    } else {
      fw := FreelistIs(p, t, n - 1);
      fw := TightNext(p, t, n - 1, fw);
    }
  }

  // ---- what it means ----

  lemma BusySlotIs(p: BooleanProgram, t: WireReuse, i: nat, nid: seq<nat>, s: nat)
    requires i <= |p.gates| && |nid| == p.numWires
    ensures BusySlot(p, t, i, nid, s) <==> HeldSlot(p, t, i, nid, s)
  {
    forall w: nat
      ensures Busy(p, t, i, w) <==> Held(p, t, i, w)
    {
      BusyIs(p, t, i, w);
    }
  }

  /** The gate's wire is pinned to a slot of its own: an output, or an And output under Linear. */
  predicate Pinned(p: BooleanProgram, t: WireReuse, i: nat)
    requires i < |p.gates|
  {
    p.gates[i].out in p.outputs || (t.Linear? && p.gates[i].IsAnd())
  }

  lemma OutsApart(p: BooleanProgram, i: nat, j: nat)
    requires DenseProgram(p) && i < j < |p.gates|
    ensures p.gates[i].out != p.gates[j].out
  {
  }

  lemma PinnedIs(p: BooleanProgram, t: WireReuse, i: nat)
    requires DenseProgram(p) && i < |p.gates|
    ensures Persist(p, t, p.gates[i].out) <==> Pinned(p, t, i)
  {
    GateFacts(p, t, i);
    forall j | 0 <= j < |p.gates| && j != i
      ensures p.gates[j].out != p.gates[i].out
    {
      OutsApart(p, if j < i then j else i, if j < i then i else j);
    }
  }

  /** A gate's wire takes a fresh slot if and only if it is pinned or every slot claimed so far is
      busy; otherwise it takes a slot that is not busy. */
  lemma NoSlotWasted(p: BooleanProgram, t: WireReuse, i: nat)
    requires DenseProgram(p) && i < |p.gates|
    ensures p.gates[i].out < p.numWires
    ensures
      var st, st', out := CompactRun(p, t, i), CompactRun(p, t, i + 1), p.gates[i].out;
      if Pinned(p, t, i) || forall s: nat :: s < st.next ==> BusySlot(p, t, i, st.nid, s)
      then st'.next == st.next + 1 && st'.nid[out] == st.next
      else st'.next == st.next && st'.nid[out] < st.next && !BusySlot(p, t, i, st.nid, st'.nid[out])
  {
    assert GateOk(p, i);
    var fw := FreelistIs(p, t, i);
    var st := CompactRun(p, t, i);
    RunInv(p, t, i);
    StepShape(p, t, i, st);
    PinnedIs(p, t, i);
    forall s: nat | s < st.next
      ensures BusySlot(p, t, i, st.nid, s) <==> s !in st.freelist
    {
      BusySlotIs(p, t, i, st.nid, s);
    }
    if st.freelist != [] {
      var s := st.freelist[|st.freelist| - 1];
      assert s in st.freelist && s < st.next;
      assert !BusySlot(p, t, i, st.nid, s);
    }
  }

  /** A wire whose slot is not busy was freed before the wire that freed the last free slot. */
  lemma IdleFreedBefore(p: BooleanProgram, t: WireReuse, i: nat, st: Alloc, fw: seq<nat>, v: nat)
    requires i <= |p.gates| && |st.nid| == p.numWires && v < p.numWires && Written(p, i, v)
    requires FreedBy(p, i, st, fw) && InOrder(p, fw) && Covered(p, t, i, st) && st.nid[v] < st.next
    requires !BusySlot(p, t, i, st.nid, st.nid[v])
    ensures fw != [] && (v == fw[|fw| - 1] || FreedBefore(p, v, fw[|fw| - 1]))
  {
    BusySlotIs(p, t, i, st.nid, st.nid[v]);
    assert st.nid[v] in st.freelist;
    var k :| 0 <= k < |fw| && st.freelist[k] == st.nid[v];
    assert FreedEntry(p, i, st.nid, st.freelist[k], fw[k]);
  }

  /** Of all slots that are not busy, the one taken was freed last: the wire that held it last was freed
      after every other wire whose slot is not busy. */
  lemma LastFreedFirst(p: BooleanProgram, t: WireReuse, i: nat) returns (w: nat)
    requires DenseProgram(p) && i < |p.gates| && CompactRun(p, t, i + 1).next == CompactRun(p, t, i).next
    ensures p.gates[i].out < p.numWires && w < p.numWires && Written(p, i, w)
    ensures
      var st, slot := CompactRun(p, t, i), CompactRun(p, t, i + 1).nid[p.gates[i].out];
      && st.nid[w] == slot && !BusySlot(p, t, i, st.nid, slot)
      && forall v :: 0 <= v < p.numWires && Written(p, i, v) && !BusySlot(p, t, i, st.nid, st.nid[v]) ==>
           v == w || FreedBefore(p, v, w)
  {
    assert GateOk(p, i);
    NoSlotWasted(p, t, i);
    var fw := FreelistIs(p, t, i);
    var st := CompactRun(p, t, i);
    RunInv(p, t, i);
    StepShape(p, t, i, st);
    var n := |fw| - 1;
    w := fw[n];
    assert FreedEntry(p, i, st.nid, st.freelist[n], w);
    forall v | 0 <= v < p.numWires && Written(p, i, v) && !BusySlot(p, t, i, st.nid, st.nid[v])
      ensures v == w || FreedBefore(p, v, w)
    {
      IdleFreedBefore(p, t, i, st, fw, v);
    }
  }

  /** Gate i reuses: its wire is not pinned and some slot is idle. */
  ghost predicate Reuses(p: BooleanProgram, t: WireReuse, i: nat)
    requires DenseProgram(p) && i < |p.gates|
  {
    !Pinned(p, t, i) && exists s: nat :: s < CompactRun(p, t, i).next && !BusySlot(p, t, i, CompactRun(p, t, i).nid, s)
  }

  lemma ClaimOrReuse(p: BooleanProgram, t: WireReuse, i: nat)
    requires DenseProgram(p) && i < |p.gates|
    ensures CompactRun(p, t, i + 1).next == CompactRun(p, t, i).next + if Reuses(p, t, i) then 0 else 1
  {
    NoSlotWasted(p, t, i);
  }

  ghost predicate SomeReuse(p: BooleanProgram, t: WireReuse, n: nat)
    requires DenseProgram(p) && n <= |p.gates|
  {
    exists i :: 0 <= i < n && Reuses(p, t, i)
  }

  lemma SomeReuseNext(p: BooleanProgram, t: WireReuse, n: nat)
    requires DenseProgram(p) && n < |p.gates|
    ensures SomeReuse(p, t, n + 1) <==> SomeReuse(p, t, n) || Reuses(p, t, n)
  {
  }

  lemma {:induction false} SavedSoFar(p: BooleanProgram, t: WireReuse, n: nat)
    requires DenseProgram(p) && n <= |p.gates|
    ensures CompactRun(p, t, n).next <= p.numInputs + n
    ensures CompactRun(p, t, n).next < p.numInputs + n <==> SomeReuse(p, t, n)
  {
    if n > 0 {
      SavedSoFar(p, t, n - 1);
      ClaimOrReuse(p, t, n - 1);
      SomeReuseNext(p, t, n - 1);
    }
  }

  /** The compacted program has fewer wires than the dense one if and only if some gate reuses. */
  lemma SavesIff(p: BooleanProgram, t: WireReuse)
    requires DenseProgram(p)
    ensures Compacted(p, t).numWires < p.numWires <==> exists i :: 0 <= i < |p.gates| && Reuses(p, t, i)
  {
    SavedSoFar(p, t, |p.gates|);
  }
}
