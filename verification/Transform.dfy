/** The loops of emp-tool/ir/passes.h and emp-tool/ir/transform.h, proved to compute the
    specifications of module Compact. */
module Transform {
  import opened Program
  import opened Wrappers
  import opened Execute
  import opened Compact

  /** lastUse[w] is the last gate reading w, firstDef[w] the gate producing it, -1 for none. */
  method LivenessPass(p: BooleanProgram) returns (lastUse: seq<int>, firstDef: seq<int>)
    requires DenseProgram(p)
    ensures |lastUse| == |firstDef| == p.numWires
    ensures forall w :: 0 <= w < p.numWires ==> lastUse[w] == LastUseIn(p, w)
    ensures forall w :: 0 <= w < p.numInputs ==> firstDef[w] == -1
    ensures forall j :: 0 <= j < |p.gates| ==> p.gates[j].out < p.numWires && firstDef[p.gates[j].out] == j
  {
    lastUse := seq(p.numWires, _ => -1);
    firstDef := seq(p.numWires, _ => -1);
    for gi := 0 to |p.gates|
      invariant |lastUse| == |firstDef| == p.numWires
      invariant forall w :: 0 <= w < p.numWires ==> lastUse[w] == LastUse(p.gates, gi, w)
      invariant forall w :: 0 <= w < p.numInputs ==> firstDef[w] == -1
      invariant forall j :: 0 <= j < gi ==> p.gates[j].out < p.numWires && firstDef[p.gates[j].out] == j
    {
      var g := p.gates[gi];
      assert GateOk(p, gi);
      firstDef := firstDef[g.out := gi];
      if g.IsConst() { continue; }
      assert g.Reads(g.in0);
      lastUse := lastUse[g.in0 := gi];
      if !g.IsNot() {
        assert g.Reads(g.in1);
        lastUse := lastUse[g.in1 := gi];
      }
    }
  }

  /** The persist flags. */
  method PersistFlags(p: BooleanProgram, t: WireReuse) returns (persist: seq<bool>)
    requires DenseProgram(p)
    ensures |persist| == p.numWires
    ensures forall w :: 0 <= w < p.numWires ==> (persist[w] <==> Persist(p, t, w))
  {
    persist := seq(p.numWires, w => w < p.numInputs);
    for k := 0 to |p.outputs|
      invariant |persist| == p.numWires
      invariant forall w :: 0 <= w < p.numWires ==> (persist[w] <==> w < p.numInputs || w in p.outputs[..k])
    {
      persist := persist[p.outputs[k] := true];
      assert p.outputs[..k + 1] == p.outputs[..k] + [p.outputs[k]];
    }
    assert p.outputs[..|p.outputs|] == p.outputs;
    if t.Linear? {
      ghost var before := persist;
      for gi := 0 to |p.gates|
        invariant |persist| == p.numWires
        invariant forall w :: 0 <= w < p.numWires ==>
          (persist[w] <==> before[w] || exists j :: 0 <= j < gi && p.gates[j].IsAnd() && p.gates[j].out == w)
      {
        assert GateOk(p, gi);
        if p.gates[gi].IsAnd() {
          persist := persist[p.gates[gi].out := true];
        }
      }
    }
  }

  /** frees[gi]: the recyclable wires whose last read is gate gi. */
  method FreeLists(p: BooleanProgram, t: WireReuse, lastUse: seq<int>,
                   persist: seq<bool>) returns (frees: seq<seq<nat>>)
    requires DenseProgram(p) && |lastUse| == |persist| == p.numWires
    requires forall w :: 0 <= w < p.numWires ==> lastUse[w] == LastUseIn(p, w)
    requires forall w :: 0 <= w < p.numWires ==> (persist[w] <==> Persist(p, t, w))
    ensures |frees| == |p.gates|
    ensures forall gi :: 0 <= gi < |p.gates| ==> frees[gi] == Frees(p, t, gi, p.numWires)
  {
    frees := seq(|p.gates|, _ => []);
    for w := 0 to p.numWires
      invariant |frees| == |p.gates|
      invariant forall gi :: 0 <= gi < |p.gates| ==> frees[gi] == Frees(p, t, gi, w)
    {
      if lastUse[w] >= 0 && !persist[w] {
        frees := frees[lastUse[w] := frees[lastUse[w]] + [w]];
      }
    }
  }

  /** One gate of make_compact's forward loop. */
  method AllocateGate(p: BooleanProgram, t: WireReuse, gi: nat, persist: seq<bool>, freed: seq<nat>,
                      st: Alloc) returns (st': Alloc)
    requires gi < |p.gates| && GateOk(p, gi) && |persist| == |st.nid| == p.numWires
    requires persist[p.gates[gi].out] <==> Persist(p, t, p.gates[gi].out)
    requires freed == Frees(p, t, gi, p.numWires)
    ensures st' == AllocStep(p, t, gi, st)
  {
    var g := p.gates[gi];
    var out, next, freelist := st.next, st.next, st.freelist;
    if !persist[g.out] && freelist != [] {
      out := freelist[|freelist| - 1];
      freelist := freelist[..|freelist| - 1];
    } else {
      next := next + 1;
    }
    var nid := st.nid[g.out := out];
    assert !g.IsConst() ==> g.Reads(g.in0);
    assert !g.IsConst() && !g.IsNot() ==> g.Reads(g.in1);
    var in0 := if g.IsConst() then 0 else nid[g.in0];
    var in1 := if g.IsConst() || g.IsNot() then 0 else nid[g.in1];
    return Alloc(next, freelist + Slots(nid, freed), nid, st.gates + [Gate(in0, in1, out, g.op)]);
  }

  /** The forward loop of make_compact. */
  method Allocate(p: BooleanProgram, t: WireReuse, persist: seq<bool>, frees: seq<seq<nat>>) returns (st: Alloc)
    requires DenseProgram(p) && |persist| == p.numWires && |frees| == |p.gates|
    requires forall w :: 0 <= w < p.numWires ==> (persist[w] <==> Persist(p, t, w))
    requires forall gi :: 0 <= gi < |p.gates| ==> frees[gi] == Frees(p, t, gi, p.numWires)
    ensures st == CompactRun(p, t, |p.gates|)
  {
    st := AllocInit(p);
    for gi := 0 to |p.gates|
      invariant |st.nid| == p.numWires
      invariant st == CompactRun(p, t, gi)
    {
      assert GateOk(p, gi);
      st := AllocateGate(p, t, gi, persist, frees[gi], st);
    }
  }

  /** Refuses a Dense target, a reuse input and an invalid input; otherwise the result is the
      specified program, it is valid, and it computes what `p` computes on all plain inputs
      (`CompactPreservesMeaning` has every context). */
  method MakeCompact(p: BooleanProgram, t: WireReuse) returns (r: Option<(BooleanProgram, seq<nat>)>)
    ensures r.Some? <==> !t.Dense? && DenseProgram(p)
    ensures r.Some? ==> r.value.0 == Compacted(p, t) && Valid(r.value.0) && r.value.0.wireReuse == t
    ensures r.Some? ==> r.value.1 == CompactRun(p, t, |p.gates|).nid
    ensures r.Some? ==> forall inputs: seq<bool> :: Eval(Clear(), r.value.0, inputs) == Eval(Clear(), p, inputs)
  {
    if t.Dense? || !p.wireReuse.Dense? { return None; }
    var ok := ValidateProgram(p);
    if !ok { return None; }
    var lastUse, _ := LivenessPass(p);
    var persist := PersistFlags(p, t);
    var frees := FreeLists(p, t, lastUse, persist);

    var st := Allocate(p, t, persist, frees);
    var q := BooleanProgram(st.next, p.numInputs, t, st.gates, Slots(st.nid, p.outputs));
    CompactIsValid(p, t);
    forall inputs: seq<bool> ensures Eval(Clear(), q, inputs) == Eval(Clear(), p, inputs) {
      CompactPreservesMeaning(Clear(), p, t, inputs);
    }
    return Some((q, st.nid));
  }

  /** Refuses an invalid input; otherwise the result is the specified dense program. */
  method Uncompact(p: BooleanProgram) returns (r: Option<BooleanProgram>)
    ensures r.Some? <==> Valid(p)
    ensures r.Some? ==> r.value == Uncompacted(p) && DenseProgram(r.value) && Emission(r.value)
    ensures r.Some? ==> forall inputs: seq<bool> :: Eval(Clear(), r.value, inputs) == Eval(Clear(), p, inputs)
  {
    var ok := ValidateProgram(p);
    if !ok { return None; }
    var cur: seq<nat> := seq(p.numWires, w => if w < p.numInputs then w else NIL);
    var next, gates: seq<Gate> := p.numInputs, [];
    for gi := 0 to |p.gates|
      invariant |cur| == p.numWires && next == p.numInputs + gi
      invariant UncompactRun(p, gi) == Relabel(cur, gates)
    {
      var g := p.gates[gi];
      assert GateOk(p, gi);
      assert !g.IsConst() ==> g.Reads(g.in0);
      assert !g.IsConst() && !g.IsNot() ==> g.Reads(g.in1);
      var in0 := if g.IsConst() then 0 else cur[g.in0];
      var in1 := if g.IsConst() || g.IsNot() then 0 else cur[g.in1];
      gates := gates + [Gate(in0, in1, next, g.op)];
      cur := cur[g.out := next];
      next := next + 1;
    }
    UncompactIsValid(p);
    var q := BooleanProgram(next, p.numInputs, Dense, gates, Slots(cur, p.outputs));
    forall inputs: seq<bool> ensures Eval(Clear(), q, inputs) == Eval(Clear(), p, inputs) {
      UncompactPreservesMeaning(Clear(), p, inputs);
    }
    return Some(q);
  }
}
