/** Validation and value execution over a reusable scratch buffer
    (emp-tool/ir/validate.h, emp-tool/ir/execute.h). */
module Execute {
  import opened Wrappers
  import opened Program

  /** One pass over the gates with a flag per non-input slot. Accepts exactly the valid programs
      of either mode; the flags decide "read before written" and, for a dense program,
      "defined more than once". */
  method ValidateProgram(p: BooleanProgram) returns (ok: bool)
    ensures ok <==> Valid(p)
  {
    if p.numInputs > p.numWires { return false; }
    var nonInputs := p.numWires - p.numInputs;
    if p.wireReuse.Dense? {
      if |p.gates| != nonInputs { return false; }
    } else {
      if p.numWires > p.numInputs + |p.gates| { return false; }
    }
    var written := new bool[nonInputs](_ => false);
    for gi := 0 to |p.gates|
      invariant forall i :: 0 <= i < gi ==> GateOk(p, i)
      invariant p.wireReuse.Dense? ==> forall i, j :: 0 <= i < j < gi ==> p.gates[i].out != p.gates[j].out
      invariant forall w :: 0 <= w < nonInputs ==> (written[w] <==> Written(p, gi, p.numInputs + w))
    {
      var g := p.gates[gi];
      if !Canonical(g) { assert !GateOk(p, gi); return false; }
      if !g.IsConst() {
        if !CheckRead(p, written[..], g.in0) { assert g.Reads(g.in0); assert !GateOk(p, gi); return false; }
        if !g.IsNot() && !CheckRead(p, written[..], g.in1) {
          assert g.Reads(g.in1);
          assert !GateOk(p, gi);
          return false;
        }
      }
      if g.out >= p.numWires || g.out < p.numInputs { assert !GateOk(p, gi); return false; }
      assert GateOk(p, gi);
      var o := g.out - p.numInputs;
      if p.wireReuse.Dense? && written[o] {
        assert Written(p, gi, g.out);
        var j :| 0 <= j < gi && p.gates[j].out == g.out;
        assert !SingleDef(p);
        return false;
      }
      assert p.wireReuse.Dense? ==> !Written(p, gi, g.out);
      written[o] := true;
      forall w | 0 <= w < nonInputs ensures written[w] <==> Written(p, gi + 1, p.numInputs + w) {
        assert p.gates[gi].out == p.numInputs + o;
      }
    }
    ok := CheckOutputs(p, written[..]);
  }

  method CheckOutputs(p: BooleanProgram, written: seq<bool>) returns (ok: bool)
    requires p.numInputs + |written| == p.numWires
    requires forall w :: 0 <= w < |written| ==> (written[w] <==> Written(p, |p.gates|, p.numInputs + w))
    ensures ok <==> OutputsOk(p)
  {
    for k := 0 to |p.outputs|
      invariant forall i :: 0 <= i < k ==> p.outputs[i] < p.numWires && Written(p, |p.gates|, p.outputs[i])
    {
      if !CheckRead(p, written, p.outputs[k]) { assert !OutputsOk(p); return false; }
    }
    return true;
  }

  /** The range and definedness test on one operand or output. */
  predicate CheckRead(p: BooleanProgram, written: seq<bool>, w: nat)
    requires p.numInputs + |written| == p.numWires
  {
    w < p.numWires && (w < p.numInputs || written[w - p.numInputs])
  }

  /** The reusable wire buffer; it only ever grows and is never cleared. */
  class CircuitScratch<W(0)> {
    var wires: array<W>

    constructor ()
      ensures fresh(wires)
    {
      wires := new W[0];
    }

    /** resize: what was there stays. */
    method Ensure(n: nat)
      modifies this
      ensures wires == old(wires) || fresh(wires)
      ensures wires.Length == if old(wires.Length) < n then n else old(wires.Length)
      ensures forall i :: 0 <= i < old(wires.Length) ==> wires[i] == old(wires[i])
    {
      if wires.Length < n {
        var was, grown := wires, new W[n];
        for i := 0 to was.Length
          invariant wires == was && forall k :: 0 <= k < i ==> grown[k] == was[k]
          invariant forall k :: 0 <= k < was.Length ==> was[k] == old(wires[k])
        {
          grown[i] := was[i];
        }
        wires := grown;
      }
    }
  }

  /** Every slot written by the first n gates holds its value. */
  ghost predicate Filled<W>(c: Context<W>, p: BooleanProgram, n: nat, w: seq<W>, m: Store<W>)
    requires n <= |p.gates|
  {
    |w| >= p.numWires && forall k :: 0 <= k < p.numWires && Written(p, n, k) ==>
      w[k] == Read(c, ExecTo(c, p.gates, n, m), k)
  }

  /** One gate of the walk. */
  method RunGate<W>(c: Context<W>, p: BooleanProgram, gi: nat, w: array<W>, ghost m: Store<W>)
    requires gi < |p.gates| && GateOk(p, gi) && Filled(c, p, gi, w[..], m)
    modifies w
    ensures Filled(c, p, gi + 1, w[..], m)
    ensures forall k :: 0 <= k < w.Length && k != p.gates[gi].out ==> w[k] == old(w[k])
  {
    var g := p.gates[gi];
    assert !g.IsConst() ==> g.Reads(g.in0);
    assert !g.IsConst() && !g.IsNot() ==> g.Reads(g.in1);
    match g.op {
    case And => w[g.out] := c.and(w[g.in0], w[g.in1]);
    case Xor => w[g.out] := c.xor(w[g.in0], w[g.in1]);
    case Not => w[g.out] := c.not(w[g.in0]);
    case Const0 => w[g.out] := c.bit(false);
    case Const1 => w[g.out] := c.bit(true);
    }
    ghost var next := ExecTo(c, p.gates, gi + 1, m);
    assert w[g.out] == Read(c, next, g.out);
    forall k | 0 <= k < p.numWires && Written(p, gi + 1, k)
      ensures w[k] == Read(c, next, k)
    {
      assert k != g.out ==> Written(p, gi, k);
    }
  }

  /** Walks the gates. Input slots and slots the program does not own are never written. */
  method RunGates<W>(c: Context<W>, p: BooleanProgram, w: array<W>, ghost m: Store<W>)
    requires Executable(p) && Filled(c, p, 0, w[..], m)
    modifies w
    ensures Filled(c, p, |p.gates|, w[..], m)
    ensures forall k :: 0 <= k < w.Length && (k < p.numInputs || p.numWires <= k) ==> w[k] == old(w[k])
  {
    for gi := 0 to |p.gates|
      invariant Filled(c, p, gi, w[..], m)
      invariant forall k :: 0 <= k < w.Length && (k < p.numInputs || p.numWires <= k) ==> w[k] == old(w[k])
    {
      assert GateOk(p, gi);
      RunGate(c, p, gi, w, m);
    }
  }

  /** Seed the input slots, walk the gates in order, read the output slots. Whatever the scratch
      held before, the result is the program's meaning; a wrong input count is refused. Afterwards the
      input slots hold the inputs, and slots from numWires on hold what they held. */
  method ExecuteProgram<W(0)>(c: Context<W>, p: BooleanProgram, inputs: seq<W>, scratch: CircuitScratch<W>)
      returns (r: Option<seq<W>>)
    requires Executable(p)
    modifies scratch, scratch.wires
    ensures r == if |inputs| == p.numInputs then Some(Eval(c, p, inputs)) else None
    ensures scratch.wires == old(scratch.wires) || fresh(scratch.wires)
    ensures scratch.wires.Length >= old(scratch.wires.Length)
    ensures r.None? ==> scratch.wires == old(scratch.wires) && scratch.wires[..] == old(scratch.wires[..])
    ensures r.Some? ==> |inputs| <= scratch.wires.Length
    ensures r.Some? ==> forall k :: 0 <= k < |inputs| ==> scratch.wires[k] == inputs[k]
    ensures r.Some? ==>
      forall k :: p.numWires <= k < old(scratch.wires.Length) ==> scratch.wires[k] == old(scratch.wires[k])
  {
    if |inputs| != p.numInputs { return None; }
    scratch.Ensure(p.numWires);
    var w := scratch.wires;
    SeedInputs(inputs, w);
    assert Filled(c, p, 0, w[..], Seed(inputs));
    RunGates(c, p, w, Seed(inputs));
    var out := ReadOutputs(c, p, inputs, w);
    return Some(out);
  }

  method SeedInputs<W>(inputs: seq<W>, w: array<W>)
    requires |inputs| <= w.Length
    modifies w
    ensures forall k :: 0 <= k < |inputs| ==> w[k] == inputs[k]
    ensures forall k :: |inputs| <= k < w.Length ==> w[k] == old(w[k])
  {
    for i := 0 to |inputs|
      invariant forall k :: 0 <= k < i ==> w[k] == inputs[k]
      invariant forall k :: i <= k < w.Length ==> w[k] == old(w[k])
    {
      w[i] := inputs[i];
    }
  }

  method ReadOutputs<W>(c: Context<W>, p: BooleanProgram, ghost inputs: seq<W>, w: array<W>) returns (out: seq<W>)
    requires Executable(p) && Filled(c, p, |p.gates|, w[..], Seed(inputs))
    ensures out == Eval(c, p, inputs)
  {
    out := [];
    for k := 0 to |p.outputs|
      invariant |out| == k
      invariant forall j :: 0 <= j < k ==> out[j] == Eval(c, p, inputs)[j]
    {
      out := out + [w[p.outputs[k]]];
    }
  }
}
