/** The Boolean-circuit IR (emp-tool/ir/program.h) and its one-pass meaning
    (emp-tool/ir/visit.h, emp-tool/ir/execute.h).

    The meaning is generic over the wire type W and over the operations a context
    realizes on it, so every theorem about programs holds for every context. */
module Program {

  datatype Op = And | Xor | Not | Const0 | Const1

  /** `in1` is meaningful for And and Xor only, `in0` for every op but the constants. */
  datatype Gate = Gate(in0: nat, in1: nat, out: nat, op: Op) {
    predicate IsAnd() { op.And? }
    predicate IsNot() { op.Not? }
    predicate IsConst() { op.Const0? || op.Const1? }
    predicate Reads(w: nat) {
      (!IsConst() && w == in0) || (!IsConst() && !IsNot() && w == in1)
    }
  }

  datatype WireReuse = Dense | Linear | Full

  datatype BooleanProgram = BooleanProgram(
    numWires: nat, numInputs: nat, wireReuse: WireReuse, gates: seq<Gate>, outputs: seq<nat>)

  /** What a BooleanContext supplies: the four gate operations on its wires. */
  datatype Context<!W> = Context(and: (W, W) -> W, xor: (W, W) -> W, not: W -> W, bit: bool -> W)

  /** Plaintext evaluation (emp-tool/ir/context/clear.h). */
  function Clear(): Context<bool> {
    Context((a: bool, b: bool) => a && b, (a: bool, b: bool) => a != b, (a: bool) => !a, (v: bool) => v)
  }

  /** Wire slots that hold a value. A read of any other slot yields the context's 0, so that
      the meaning is total; accepted programs never depend on it (`ScratchIndependence`). */
  type Store<W> = map<nat, W>

  function Read<W>(c: Context<W>, m: Store<W>, w: nat): W {
    if w in m then m[w] else c.bit(false)
  }

  function GateValue<W>(c: Context<W>, g: Gate, m: Store<W>): W {
    match g.op
    case And => c.and(Read(c, m, g.in0), Read(c, m, g.in1))
    case Xor => c.xor(Read(c, m, g.in0), Read(c, m, g.in1))
    case Not => c.not(Read(c, m, g.in0))
    case Const0 => c.bit(false)
    case Const1 => c.bit(true)
  }

  /** The store after the first `n` gates, starting from `m`. */
  function ExecTo<W>(c: Context<W>, gates: seq<Gate>, n: nat, m: Store<W>): Store<W>
    requires n <= |gates|
  {
    if n == 0 then m
    else
      var before := ExecTo(c, gates, n - 1, m);
      before[gates[n - 1].out := GateValue(c, gates[n - 1], before)]
  }

  function Seed<W>(inputs: seq<W>): Store<W> {
    map i | 0 <= i < |inputs| :: inputs[i]
  }

  function ReadAll<W>(c: Context<W>, m: Store<W>, ws: seq<nat>): (r: seq<W>)
    ensures |r| == |ws|
    ensures forall k :: 0 <= k < |ws| ==> r[k] == Read(c, m, ws[k])
  {
    seq(|ws|, k requires 0 <= k < |ws| => Read(c, m, ws[k]))
  }

  /** The function a program computes. */
  function Eval<W>(c: Context<W>, p: BooleanProgram, inputs: seq<W>): (r: seq<W>)
    ensures |r| == |p.outputs|
  {
    ReadAll(c, ExecTo(c, p.gates, |p.gates|, Seed(inputs)), p.outputs)
  }

  // ---- validity (emp-tool/ir/validate.h) ----

  ghost predicate Written(p: BooleanProgram, n: nat, w: nat)
    requires n <= |p.gates|
  {
    w < p.numInputs || exists j :: 0 <= j < n && p.gates[j].out == w
  }

  predicate Canonical(g: Gate) {
    (g.IsNot() ==> g.in1 == 0) && (g.IsConst() ==> g.in0 == 0 && g.in1 == 0)
  }

  ghost predicate GateOk(p: BooleanProgram, i: nat)
    requires i < |p.gates|
  {
    && Canonical(p.gates[i])
    && (forall w: nat :: p.gates[i].Reads(w) ==> w < p.numWires && Written(p, i, w))
    && p.numInputs <= p.gates[i].out < p.numWires
  }

  ghost predicate OutputsOk(p: BooleanProgram) {
    forall k :: 0 <= k < |p.outputs| ==> p.outputs[k] < p.numWires && Written(p, |p.gates|, p.outputs[k])
  }

  /** What a reuse program (Linear or Full) must satisfy to be executable. */
  ghost predicate Executable(p: BooleanProgram) {
    && p.numInputs <= p.numWires
    && (forall i :: 0 <= i < |p.gates| ==> GateOk(p, i))
    && OutputsOk(p)
  }

  ghost predicate SingleDef(p: BooleanProgram) {
    forall i, j :: 0 <= i < j < |p.gates| ==> p.gates[i].out != p.gates[j].out
  }

  ghost predicate Valid(p: BooleanProgram) {
    && Executable(p)
    && p.numWires <= p.numInputs + |p.gates|
    && (p.wireReuse.Dense? ==> p.numWires == p.numInputs + |p.gates| && SingleDef(p))
  }

  /** Emission-canonical: gate i defines wire numInputs + i. */
  ghost predicate Emission(p: BooleanProgram) {
    forall i :: 0 <= i < |p.gates| ==> p.gates[i].out == p.numInputs + i
  }

  // ---- basic facts about execution ----

  /** Two stores that agree on what a gate reads give it the same value. */
  lemma GateValueAgree<W>(c: Context<W>, g: Gate, h: Gate, m: Store<W>, n: Store<W>)
    requires g.op == h.op
    requires !g.IsConst() ==> Read(c, m, g.in0) == Read(c, n, h.in0)
    requires !g.IsConst() && !g.IsNot() ==> Read(c, m, g.in1) == Read(c, n, h.in1)
    ensures GateValue(c, g, m) == GateValue(c, h, n)
  {
  }

  /** Executing gates of one list on two stores: slots written so far, or that agreed at the
      start, agree. */
  lemma {:induction false} ExecAgree<W>(c: Context<W>, p: BooleanProgram, n: nat, m: Store<W>, m': Store<W>, w: nat)
    requires Executable(p) && n <= |p.gates|
    requires forall i :: 0 <= i < p.numInputs ==> Read(c, m, i) == Read(c, m', i)
    requires Written(p, n, w)
    ensures Read(c, ExecTo(c, p.gates, n, m), w) == Read(c, ExecTo(c, p.gates, n, m'), w)
  {
    if n > 0 {
      var g := p.gates[n - 1];
      assert GateOk(p, n - 1);
      if g.out == w {
        if !g.IsConst() {
          assert g.Reads(g.in0);
          ExecAgree(c, p, n - 1, m, m', g.in0);
          if !g.IsNot() {
            assert g.Reads(g.in1);
            ExecAgree(c, p, n - 1, m, m', g.in1);
          }
        }
      } else {
        ExecAgree(c, p, n - 1, m, m', w);
      }
    }
  }

  /** The outputs of an accepted program do not depend on what its scratch slots held. */
  lemma ScratchIndependence<W>(c: Context<W>, p: BooleanProgram, m: Store<W>, m': Store<W>)
    requires Executable(p)
    requires forall i :: 0 <= i < p.numInputs ==> Read(c, m, i) == Read(c, m', i)
    ensures ReadAll(c, ExecTo(c, p.gates, |p.gates|, m), p.outputs)
         == ReadAll(c, ExecTo(c, p.gates, |p.gates|, m'), p.outputs)
  {
    forall k | 0 <= k < |p.outputs|
      ensures Read(c, ExecTo(c, p.gates, |p.gates|, m), p.outputs[k])
           == Read(c, ExecTo(c, p.gates, |p.gates|, m'), p.outputs[k])
    {
      ExecAgree(c, p, |p.gates|, m, m', p.outputs[k]);
    }
  }

  /** A slot that no later gate writes keeps its value. */
  lemma {:induction false} ExecFrame<W>(c: Context<W>, gates: seq<Gate>, a: nat, b: nat, m: Store<W>, w: nat)
    requires a <= b <= |gates|
    requires forall j :: a <= j < b ==> gates[j].out != w
    ensures Read(c, ExecTo(c, gates, b, m), w) == Read(c, ExecTo(c, gates, a, m), w)
  {
    if a < b {
      ExecFrame(c, gates, a, b - 1, m, w);
    }
  }

  /** Only the executed prefix matters. */
  lemma {:induction false} ExecPrefix<W>(c: Context<W>, gates: seq<Gate>, gates': seq<Gate>, n: nat, m: Store<W>)
    requires n <= |gates| && n <= |gates'|
    requires forall j :: 0 <= j < n ==> gates[j] == gates'[j]
    ensures ExecTo(c, gates, n, m) == ExecTo(c, gates', n, m)
  {
    if n > 0 {
      ExecPrefix(c, gates, gates', n - 1, m);
    }
  }
}
