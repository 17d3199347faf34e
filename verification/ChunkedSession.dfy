/** The session object (emp-tool/ir/session/chunk_recorder.h,
    emp-tool/ir/session/chunked_session.h): fields updated in place, each method proved to
    take the step of module Session. A returned fault stands for the source's fatal error. */
module ChunkedSessions {
  import opened Program
  import opened Wrappers
  import opened Execute
  import opened FlushPlan
  import opened Session
  import opened SessionProof
  import Materialized
  import PlanFlush

  /** The concrete outcome agrees with a specified one. */
  ghost predicate Agrees(spec: Outcome, fault: Option<Fault>, state: State) {
    match spec
    case Done(s, _) => fault.None? && state == s
    case Failed(f) => fault == Some(f)
  }

  /** How many members of the set are below n. */
  ghost function Rank(need: set<nat>, n: nat): nat {
    if n == 0 then 0 else Rank(need, n - 1) + if n - 1 in need then 1 else 0
  }

  lemma {:induction false} RankIsPosition(need: set<nat>, n: nat)
    ensures Rank(need, n) == |InOrder(need, n)|
  {
    if n > 0 {
      RankIsPosition(need, n - 1);
      InOrderStep(need, n - 1);
    }
  }

  lemma {:induction false} AndsByRank(gates: seq<Gate>, need: set<nat>, prog: seq<Gate>, n: nat)
    requires n <= |gates|
    requires forall gi :: 0 <= gi < |gates| && gi in need ==>
      Rank(need, gi) < |prog| && prog[Rank(need, gi)].IsAnd() == gates[gi].IsAnd()
    ensures Rank(need, n) <= |prog|
    ensures AndCount(prog, Rank(need, n)) == NeededAnds(gates, need, n)
  {
    if n > 0 {
      AndsByRank(gates, need, prog, n - 1);
    }
  }

  /** The emitted program has as many Ands as the needed gates. */
  lemma EmittedAnds(gates: seq<Gate>, need: set<nat>, inputIds: seq<nat>, remap: Remap, prog: seq<Gate>)
    requires Numbered(gates, need, inputIds, remap) && Emitted(gates, need, inputIds, remap, prog)
    ensures AndCount(prog, |prog|) == NeededAnds(gates, need, |gates|)
  {
    forall gi | 0 <= gi < |gates| && gi in need
      ensures Rank(need, gi) < |prog| && prog[Rank(need, gi)].IsAnd() == gates[gi].IsAnd()
    {
      RankIsPosition(need, gi);
      EmittedGate(gates, need, inputIds, remap, prog, gi);
    }
    AndsByRank(gates, need, prog, |gates|);
    RankIsPosition(need, |gates|);
  }

  class ChunkedSession {
    var rc: seq<int>
    var gates: seq<Gate>
    var pending: set<nat>
    var const0: Option<nat>
    var const1: Option<nat>
    var carried: map<nat, bool>
    var numAnd: nat
    var handles: map<Handle, nat>

    ghost function State(): State
      reads this
    {
      Session.State(rc, gates, pending, const0, const1, carried, numAnd, handles)
    }

    constructor ()
      ensures State() == INITIAL && Inv(State())
    {
      rc, gates, pending, const0, const1 := [0], [], {}, None, None;
      carried, numAnd, handles := map[], 0, map[];
    }

    /** A wire object constructed on an id: one table increment, none for the null id. */
    method BindHandle(h: Handle, id: nat)
      modifies this
      ensures State() == Bind(old(State()), h, id)
    {
      if id != 0 && id < |rc| { rc := rc[id := rc[id] + 1]; }
      handles := handles[h := id];
    }

    method RecordGate(h: Handle, in0: nat, in1: nat, op: Op) returns (fault: Option<Fault>)
      modifies this
      ensures Agrees(Record(old(State()), h, in0, in1, op), fault, State())
      ensures fault == if |old(rc)| >= UINT32_MAX then Some(Overflow) else None
      ensures fault.None? ==>
        && (old(rc) != [] ==> rc == old(rc) + [1]) && gates == old(gates) + [Gate(in0, in1, |old(rc)|, op)]
        && pending == old(pending) + {|old(rc)|} && handles == old(handles)[h := |old(rc)|]
    {
      if |rc| >= UINT32_MAX { return Some(Overflow); }
      var o := |rc|;
      rc := rc + [0];
      gates := gates + [Gate(in0, in1, o, op)];
      pending := pending + {o};
      BindHandle(h, o);
      return None;
    }

    method MakePublicBit(h: Handle, v: bool) returns (fault: Option<Fault>)
      modifies this
      ensures Agrees(RecordConst(old(State()), h, v), fault, State())
    {
      var cached := if v then const1 else const0;
      if cached.Some? {
        BindHandle(h, cached.value);
        return None;
      }
      var o := |rc|;
      fault := RecordGate(h, 0, 0, if v then Const1 else Const0);
      if fault.None? {
        if v { const1 := Some(o); } else { const0 := Some(o); }
      }
    }

    /** The protocol's authentication of the bits into consecutive ids. */
    method Authenticate(first: nat, bits: seq<bool>)
      modifies this
      ensures State() == old(State()).(carried := Fill(old(carried), first, bits, |bits|))
    {
      for k := 0 to |bits|
        invariant State() == old(State()).(carried := Fill(old(carried), first, bits, k))
      {
        carried := carried[first + k := bits[k]];
      }
    }

    /** Wires on consecutive ids. */
    method BindHandles(hs: seq<Handle>, first: nat)
      modifies this
      ensures State() == BindAll(old(State()), hs, first, |hs|)
    {
      for k := 0 to |hs|
        invariant State() == BindAll(old(State()), hs, first, k)
      {
        BindHandle(hs[k], first + k);
      }
    }

    /** reserve_ids, authentication, then the value's wires. */
    method MaterializeBits(hs: seq<Handle>, bits: seq<bool>) returns (fault: Option<Fault>)
      requires |hs| == |bits|
      modifies this
      ensures fault == if |old(rc)| + |bits| > UINT32_MAX then Some(Overflow) else None
      ensures Agrees(Materialize(old(State()), hs, bits), fault, State())
    {
      if |rc| + |bits| > UINT32_MAX { return Some(Overflow); }
      var o := |rc|;
      rc := rc + Zeros(|bits|);
      Authenticate(o, bits);
      BindHandles(hs, o);
      return None;
    }

    method CopyHandle(h: Handle, src: Handle)
      requires h !in handles && src in handles
      modifies this
      ensures State() == Bind(old(State()), h, old(handles)[src])
    {
      BindHandle(h, handles[src]);
    }

    /** Move construction steals the id and leaves the source null. */
    method MoveHandle(h: Handle, src: Handle)
      requires h !in handles && src in handles
      modifies this
      ensures State() == old(State()).(handles := old(handles)[h := old(handles)[src]][src := 0])
    {
      handles := handles[h := handles[src]];
      handles := handles[src := 0];
    }

    method AssignHandle(h: Handle, src: Handle)
      requires h in handles && src in handles && Inv(State())
      modifies this
      ensures Agrees(Step(old(State()), Assign(h, src)), None, State())
    {
      if handles[h] != handles[src] {
        UnpinId(handles[h]);
        BindHandle(h, handles[src]);
      }
    }

    method MoveAssignHandle(h: Handle, src: Handle)
      requires h in handles && src in handles && Inv(State())
      modifies this
      ensures Agrees(Step(old(State()), MoveAssign(h, src)), None, State())
    {
      if h != src {
        UnpinId(handles[h]);
        handles := handles[h := handles[src]];
        handles := handles[src := 0];
      }
    }

    method DestroyHandle(h: Handle)
      requires h in handles && Inv(State())
      modifies this
      ensures Agrees(Step(old(State()), Destroy(h)), None, State())
    {
      UnpinId(handles[h]);
      handles := handles - {h};
    }

    method UnpinId(id: nat)
      modifies this
      ensures State() == old(State()).(rc := Unpin(old(rc), id))
    {
      if id != 0 && id < |rc| { rc := rc[id := rc[id] - 1]; }
    }

    method LivePendingIds() returns (live: seq<nat>)
      ensures live == LivePending(State(), |gates|)
    {
      live := [];
      for i := 0 to |gates|
        invariant live == LivePending(State(), i)
      {
        var o := gates[i].out;
        if o < |rc| && rc[o] > 0 { live := live + [o]; }
      }
    }

    method Drop()
      modifies this
      ensures State() == DropChunk(old(State()))
    {
      gates, pending, const0, const1 := [], {}, None, None;
    }

    /** The engine hook: gather the inputs, run the program, store the outputs. */
    method RunProgramInto(prog: BooleanProgram, inIds: seq<nat>, outIds: seq<nat>)
      requires Executable(prog) && |inIds| == prog.numInputs && |outIds| == |prog.outputs|
      requires forall i, j :: 0 <= i < j < |outIds| ==> outIds[i] != outIds[j]
      modifies this
      ensures State() == old(State()).(carried := carried)
      ensures forall id :: id in carried <==> id in old(carried) || id in outIds
      ensures forall id :: id in old(carried) && id !in outIds ==> carried[id] == old(carried)[id]
      ensures forall k :: 0 <= k < |outIds| ==>
                outIds[k] in carried &&
                  carried[outIds[k]] == Eval(Clear(), prog, ReadAll(Clear(), old(carried), inIds))[k]
    {
      var inputs := ReadAll(Clear(), carried, inIds);
      var scratch := new CircuitScratch<bool>();
      var r := ExecuteProgram(Clear(), prog, inputs, scratch);
      StoreOutputs(outIds, r.value);
    }

    method StoreOutputs(outIds: seq<nat>, vals: seq<bool>)
      requires |outIds| == |vals| && forall i, j :: 0 <= i < j < |outIds| ==> outIds[i] != outIds[j]
      modifies this
      ensures State() == old(State()).(carried := carried)
      ensures forall id :: id in carried <==> id in old(carried) || id in outIds
      ensures forall id :: id in old(carried) && id !in outIds ==> carried[id] == old(carried)[id]
      ensures forall k :: 0 <= k < |outIds| ==> outIds[k] in carried && carried[outIds[k]] == vals[k]
    {
      for k := 0 to |outIds|
        invariant State() == old(State()).(carried := carried)
        invariant forall id :: id in carried <==> id in old(carried) || id in outIds[..k]
        invariant forall id :: id in old(carried) && id !in outIds[..k] ==> carried[id] == old(carried)[id]
        invariant forall i :: 0 <= i < k ==> outIds[i] in carried && carried[outIds[i]] == vals[i]
      {
        carried := carried[outIds[k] := vals[k]];
        assert outIds[..k + 1] == outIds[..k] + [outIds[k]];
      }
      assert outIds[..|outIds|] == outIds;
    }

    method CountAnds(prog: BooleanProgram)
      modifies this
      ensures State() == old(State()).(numAnd := old(numAnd) + AndCount(prog.gates, |prog.gates|))
    {
      for i := 0 to |prog.gates|
        invariant State() == old(State()).(numAnd := old(numAnd) + AndCount(prog.gates, i))
      {
        if prog.gates[i].IsAnd() { numAnd := numAnd + 1; }
      }
    }

    /** The two scans of the keep list. */
    method ScanKeep(keep: seq<nat>) returns (stale: bool, anyPending: bool)
      ensures stale <==> exists id :: id in keep && Stale(State(), id)
      ensures anyPending <==> !forall id :: id in keep ==> id !in State().pending
    {
      stale, anyPending := false, false;
      for k := 0 to |keep|
        invariant stale <==> exists i :: 0 <= i < k && Stale(State(), keep[i])
        invariant anyPending <==> exists i :: 0 <= i < k && keep[i] in pending
      {
        if keep[k] !in pending && keep[k] !in carried { stale := true; }
        if keep[k] in pending { anyPending := true; }
      }
    }

    /** Plan the chunk, run the planned program, count its Ands. */
    method RunKept(keep: seq<nat>) returns (ok: bool)
      requires Inv(State())
      modifies this
      ensures ok <==> !ReadsStale(old(gates), NeededSet(old(gates), keep), old(carried).Keys)
      ensures ok ==> State() == old(State()).(carried := old(carried) + KeptValues(old(State()), keep),
                                              numAnd := old(numAnd) +
                                                NeededAnds(old(gates), NeededSet(old(gates), keep), |old(gates)|))
    {
      ghost var s := State();
      var plan, remap := PlanFlush.Plan(gates, keep, carried.Keys);
      ok := plan.ok;
      if ok {
        RunProgramInto(plan.prog, plan.inputIds, plan.outputIds);
        KeptAreOutputs(s, keep, plan.outputIds, Eval(Clear(), plan.prog, ReadAll(Clear(), s.carried, plan.inputIds)),
                       carried);
        CountAnds(plan.prog);
        PlanAnds(s.gates, keep, plan, remap);
      }
    }

    /** flush_: refuse a stale keep, drop an unneeded chunk, else run what is kept and drop. */
    method FlushChunk(keep: seq<nat>) returns (fault: Option<Fault>)
      requires Inv(State())
      modifies this
      ensures Agrees(Flush(old(State()), keep), fault, State())
    {
      var stale, anyPending := ScanKeep(keep);
      if stale { return Some(StaleWire); }
      if anyPending {
        var ok := RunKept(keep);
        if !ok { return Some(StaleWire); }
      }
      Drop();
      return None;
    }

    /** reveal: keep what is in scope, what is revealed and what the caller lists, flush, decode. */
    method RevealValue(hs: seq<Handle>, keep: seq<Handle>, mine: bool)
      returns (fault: Option<Fault>, out: Option<seq<bool>>)
      requires Inv(State()) && forall k :: 0 <= k < |hs| ==> hs[k] in handles
      requires forall k :: 0 <= k < |keep| ==> keep[k] in handles
      modifies this
      ensures Agrees(RevealStep(old(State()), IdsOf(old(handles), hs), IdsOf(old(handles), keep), mine), fault, State())
      ensures fault.None? ==>
        out == RevealStep(old(State()), IdsOf(old(handles), hs), IdsOf(old(handles), keep), mine).out
    {
      var live := LivePendingIds();
      var ids := IdsOf(handles, hs);
      fault := FlushChunk(live + ids + IdsOf(handles, keep));
      out := if mine then Some(Decode(carried, ids)) else None;
    }

    /** checkpoint(): flush what is in scope, prune the rest. */
    method CheckpointScope() returns (fault: Option<Fault>)
      requires Inv(State())
      modifies this
      ensures Agrees(CheckpointStep(old(State())), fault, State())
      ensures fault.None? && gates == [] && pending == {} && handles == old(handles)
      ensures forall id :: id in carried <==> id != 0 && exists h :: h in handles && handles[h] == id
      ensures forall id :: id in carried ==> carried[id] == Value(old(State()), id)
    {
      Materialized.CheckpointExact(State());
      var live := LivePendingIds();
      fault := FlushChunk(live);
      if fault.None? {
        carried := Pruned(rc, carried);
      }
    }

    /** checkpoint(keep...): flush and prune to the given wires only. */
    method CheckpointKeep(keep: seq<nat>) returns (fault: Option<Fault>)
      requires Inv(State())
      modifies this
      ensures Agrees(CheckpointKeepStep(old(State()), keep), fault, State())
      ensures (forall id :: id in keep ==> Backed(old(State()), id)) ==>
        fault.None? && carried.Keys == (set id | id in keep) &&
          forall id :: id in keep ==> carried[id] == Value(old(State()), id)
    {
      if forall id :: id in keep ==> Backed(State(), id) {
        Materialized.CheckpointKeepExact(State(), keep);
      }
      fault := FlushChunk(keep);
      if fault.None? {
        carried := KeptOnly(carried, keep);
      }
    }

    /** run(circuit): arguments must be materialized and of the right width. */
    method RunCircuit(prog: BooleanProgram, args: seq<Handle>, outs: seq<Handle>) returns (fault: Option<Fault>)
      requires Executable(prog) && |outs| == |prog.outputs| && forall k :: 0 <= k < |args| ==> args[k] in handles
      modifies this
      ensures Agrees(RunStep(old(State()), prog, IdsOf(old(handles), args), outs), fault, State())
    {
      var ids := IdsOf(handles, args);
      for k := 0 to |ids|
        invariant State() == old(State())
        invariant forall i :: 0 <= i < k ==> ids[i] in carried
      {
        if ids[k] !in carried { return Some(Unflushed); }
      }
      if |ids| != prog.numInputs { return Some(Width); }
      var scratch := new CircuitScratch<bool>();
      var r := ExecuteProgram(Clear(), prog, Decode(carried, ids), scratch);
      fault := MaterializeBits(outs, r.value);
      if fault.None? {
        CountAnds(prog);
      }
    }
  }

  /** The engine's outputs are the values the pending kept ids have in the chunk. */
  lemma KeptAreOutputs(s: State, keep: seq<nat>, outputIds: seq<nat>, outputs: seq<bool>, carried': map<nat, bool>)
    requires PendingExact(s) && outputIds == PendingKeeps(s.gates, keep) && |outputs| == |outputIds|
    requires forall k :: 0 <= k < |outputIds| ==> outputs[k] == Value(s, outputIds[k])
    requires forall id :: id in carried' <==> id in s.carried || id in outputIds
    requires forall id :: id in s.carried && id !in outputIds ==> carried'[id] == s.carried[id]
    requires forall k :: 0 <= k < |outputIds| ==> outputIds[k] in carried' && carried'[outputIds[k]] == outputs[k]
    ensures carried' == s.carried + KeptValues(s, keep)
  {
    var m := s.carried + KeptValues(s, keep);
    forall id ensures id in outputIds <==> id in keep && id in s.pending {
    }
    assert forall id :: id in carried' <==> id in m;
    forall id | id in m ensures carried'[id] == m[id] {
      if id in outputIds {
        var k :| 0 <= k < |outputIds| && outputIds[k] == id;
      }
    }
  }

  lemma PlanAnds(gates: seq<Gate>, keep: seq<nat>, plan: FlushPlan, remap: Remap)
    requires Planned(gates, keep, plan, remap)
    ensures AndCount(plan.prog.gates, |plan.prog.gates|) == NeededAnds(gates, NeededSet(gates, keep), |gates|)
  {
    EmittedAnds(gates, NeededSet(gates, keep), plan.inputIds, remap, plan.prog.gates);
  }
}
