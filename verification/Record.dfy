/** Recording a kernel (emp-tool/ir/context/record.h) and hashing its gate stream
    (emp-tool/ir/context/digest.h), over every sequence of context calls. */
module Record {

  import opened Program
  import opened Wrappers
  import opened Execute
  import Compact

  const UINT32_MAX: nat := 0xFFFF_FFFF

  /** The state of a RecordCtx; c0 and c1 are the shared constants. */
  datatype Rec = Rec(gates: seq<Gate>, nextId: nat, numInputs: nat, c0: Option<nat>, c1: Option<nat>, closed: bool)

  /** What a call returns: the new state and the wires handed out. */
  datatype Made = Made(rec: Rec, wires: seq<nat>)

  const FRESH := Rec([], 0, 0, None, None, false)

  function Inputs(s: Rec, n: nat): Option<Made> {
    if s.closed || n == 0 || n > UINT32_MAX - s.nextId || n > UINT32_MAX - s.numInputs then None
    else Some(Made(s.(nextId := s.nextId + n, numInputs := s.numInputs + n), seq(n, k => s.nextId + k)))
  }

  function Emit(s: Rec, in0: nat, in1: nat, op: Op): Option<Made> {
    if s.nextId == UINT32_MAX then None
    else Some(Made(s.(gates := s.gates + [Gate(in0, in1, s.nextId, op)], nextId := s.nextId + 1, closed := true),
                   [s.nextId]))
  }

  function Bit(s: Rec, v: bool): Option<Made> {
    var c := if v then s.c1 else s.c0;
    if c.Some? then Some(Made(s, [c.value]))
    else match Emit(s, 0, 0, if v then Const1 else Const0)
      case None => None
      case Some(m) => Some(m.(rec := if v then m.rec.(c1 := Some(s.nextId)) else m.rec.(c0 := Some(s.nextId))))
  }

  /** The program `finish` builds. */
  function Finished(s: Rec, outputs: seq<nat>): BooleanProgram {
    BooleanProgram(s.nextId, s.numInputs, Dense, s.gates, outputs)
  }

  // ---- kernels ----

  /** A context call; operands are numbered in the order in which wires were handed out. */
  datatype Call = Input(n: nat) | PublicBit(v: bool) | AndGate(a: nat, b: nat) | XorGate(a: nat,
                                                                                         b: nat) | NotGate(a: nat)

  predicate OperandsKnown(call: Call, n: nat) {
    (call.AndGate? || call.XorGate? ==> call.a < n && call.b < n) && (call.NotGate? ==> call.a < n)
  }

  function RecCall(s: Rec, call: Call, ids: seq<nat>): Option<Made>
    requires OperandsKnown(call, |ids|)
  {
    match call
    case Input(n) => Inputs(s, n)
    case PublicBit(v) => Bit(s, v)
    case AndGate(a, b) => Emit(s, ids[a], ids[b], And)
    case XorGate(a, b) => Emit(s, ids[a], ids[b], Xor)
    case NotGate(a) => Emit(s, ids[a], 0, Not)
  }

  /** The same call on live wires; inputs are taken in order. */
  function LiveCall<W>(c: Context<W>, call: Call, vals: seq<W>, taken: nat, inputs: seq<W>): seq<W>
    requires OperandsKnown(call, |vals|)
  {
    match call
    case Input(n) => seq(n, k requires 0 <= k < n => Read(c, Seed(inputs), taken + k))
    case PublicBit(v) => [c.bit(v)]
    case AndGate(a, b) => [c.and(vals[a], vals[b])]
    case XorGate(a, b) => [c.xor(vals[a], vals[b])]
    case NotGate(a) => [c.not(vals[a])]
  }

  /** A recorded run after some calls: the state and all wires handed out. */
  datatype Trace = Trace(rec: Rec, ids: seq<nat>)

  function RecRun(calls: seq<Call>, n: nat): Option<Trace>
    requires n <= |calls|
  {
    if n == 0 then Some(Trace(FRESH, []))
    else match RecRun(calls, n - 1)
      case None => None
      case Some(t) =>
        if !OperandsKnown(calls[n - 1], |t.ids|) then None
        else match RecCall(t.rec, calls[n - 1], t.ids)
          case None => None
          case Some(m) => Some(Trace(m.rec, t.ids + m.wires))
  }

  function Taken(calls: seq<Call>, n: nat): nat
    requires n <= |calls|
  {
    if n == 0 then 0 else Taken(calls, n - 1) + if calls[n - 1].Input? then calls[n - 1].n else 0
  }

  /** The values the live run hands out. */
  function LiveRun<W>(c: Context<W>, calls: seq<Call>, n: nat, inputs: seq<W>): seq<W>
    requires n <= |calls|
  {
    if n == 0 then []
    else
      var vals := LiveRun(c, calls, n - 1, inputs);
      if OperandsKnown(calls[n - 1], |vals|) then vals + LiveCall(c, calls[n - 1], vals, Taken(calls, n - 1), inputs)
        else vals
  }

  // ---- what recording keeps ----

  ghost predicate SharedBit(s: Rec, w: Option<nat>, op: Op) {
    w.Some? ==> s.numInputs <= w.value < s.nextId && s.nextId == s.numInputs + |s.gates|
                && s.gates[w.value - s.numInputs] == Gate(0, 0, w.value, op)
  }

  ghost predicate RecOk(s: Rec) {
    && s.nextId == s.numInputs + |s.gates| <= UINT32_MAX
    && (!s.closed ==> s.gates == [])
    && (forall i :: 0 <= i < |s.gates| ==> GateRecorded(s, i))
    && SharedBit(s, s.c0, Const0) && SharedBit(s, s.c1, Const1)
  }

  ghost predicate GateRecorded(s: Rec, i: nat)
    requires i < |s.gates|
  {
    && Canonical(s.gates[i]) && s.gates[i].out == s.numInputs + i
    && forall w: nat :: s.gates[i].Reads(w) ==> w < s.numInputs + i
  }

  function Replay<W>(c: Context<W>, s: Rec, inputs: seq<W>): Store<W> {
    ExecTo(c, s.gates, |s.gates|, Seed(inputs))
  }

  /** The wires handed out replay to the live values. */
  ghost predicate Mirrors<W>(c: Context<W>, s: Rec, ids: seq<nat>, vals: seq<W>, inputs: seq<W>) {
    && |ids| == |vals|
    && (forall k :: 0 <= k < |ids| ==> ids[k] < s.nextId && Read(c, Replay(c, s, inputs), ids[k]) == vals[k])
  }

  lemma EmitOk(s: Rec, in0: nat, in1: nat, op: Op)
    requires RecOk(s) && s.nextId < UINT32_MAX
    requires Canonical(Gate(in0, in1, s.nextId, op)) && forall w: nat :: Gate(in0, in1, s.nextId, op).Reads(w) ==>
      w < s.nextId
    ensures RecOk(Emit(s, in0, in1, op).value.rec)
  {
    var r := Emit(s, in0, in1, op).value.rec;
    forall i | 0 <= i < |r.gates|
      ensures GateRecorded(r, i)
    {
      assert i < |s.gates| ==> GateRecorded(s, i);
    }
  }

  lemma EmitMirrors<W>(c: Context<W>, s: Rec, in0: nat, in1: nat, op: Op, ids: seq<nat>, vals: seq<W>, inputs: seq<W>)
    requires RecOk(s) && s.nextId < UINT32_MAX && Mirrors(c, s, ids, vals, inputs)
    ensures
      var r := Emit(s, in0, in1, op).value.rec;
      && Mirrors(c, r, ids, vals, inputs)
      && Read(c, Replay(c, r, inputs), s.nextId) == GateValue(c, Gate(in0, in1, s.nextId, op), Replay(c, s, inputs))
  {
    Compact.ExecSnoc(c, s.gates, Gate(in0, in1, s.nextId, op), Seed(inputs));
  }

  /** A shared constant still replays to its bit. */
  lemma SharedBitReplays<W>(c: Context<W>, s: Rec, w: nat, v: bool, inputs: seq<W>)
    requires RecOk(s) && SharedBit(s, Some(w), if v then Const1 else Const0)
    ensures Read(c, Replay(c, s, inputs), w) == c.bit(v)
  {
    var i := w - s.numInputs;
    forall j | i + 1 <= j < |s.gates|
      ensures s.gates[j].out != w
    {
      assert GateRecorded(s, j);
    }
    ExecFrame(c, s.gates, i + 1, |s.gates|, Seed(inputs), w);
  }

  lemma InputsMirror<W>(c: Context<W>, s: Rec, n: nat, ids: seq<nat>, vals: seq<W>, inputs: seq<W>)
    requires RecOk(s) && Inputs(s, n).Some? && Mirrors(c, s, ids, vals, inputs)
    ensures
      var m := Inputs(s, n).value;
      && RecOk(m.rec)
      && Mirrors(c, m.rec, ids + m.wires, vals + LiveCall(c, Input(n), vals, s.numInputs, inputs), inputs)
  {
  }

  lemma BitMirrors<W>(c: Context<W>, s: Rec, v: bool, ids: seq<nat>, vals: seq<W>, inputs: seq<W>)
    requires RecOk(s) && Bit(s, v).Some? && Mirrors(c, s, ids, vals, inputs)
    ensures var m := Bit(s, v).value; RecOk(m.rec) && Mirrors(c, m.rec, ids + m.wires, vals + [c.bit(v)], inputs)
  {
    var w := if v then s.c1 else s.c0;
    if w.Some? {
      SharedBitReplays(c, s, w.value, v, inputs);
    } else {
      var op := if v then Const1 else Const0;
      EmitOk(s, 0, 0, op);
      EmitMirrors(c, s, 0, 0, op, ids, vals, inputs);
      BitStateOk(s, v);
    }
  }

  lemma BitStateOk(s: Rec, v: bool)
    requires RecOk(s) && s.nextId < UINT32_MAX && RecOk(Emit(s, 0, 0, if v then Const1 else Const0).value.rec)
    requires (if v then s.c1 else s.c0).None?
    ensures RecOk(Bit(s, v).value.rec)
  {
    var r, b := Emit(s, 0, 0, if v then Const1 else Const0).value.rec, Bit(s, v).value.rec;
    forall i | 0 <= i < |b.gates|
      ensures GateRecorded(b, i)
    {
      assert GateRecorded(r, i);
    }
  }

  lemma GateMirrors<W>(c: Context<W>, s: Rec, call: Call, ids: seq<nat>, vals: seq<W>, inputs: seq<W>)
    requires call.AndGate? || call.XorGate? || call.NotGate?
    requires RecOk(s) && OperandsKnown(call, |ids|) && RecCall(s, call, ids).Some? && Mirrors(c, s, ids, vals, inputs)
    ensures
      var m := RecCall(s, call, ids).value;
      RecOk(m.rec) && Mirrors(c, m.rec, ids + m.wires, vals + LiveCall(c, call, vals, s.numInputs, inputs), inputs)
  {
    var in0 := ids[call.a];
    var in1 := if call.NotGate? then 0 else ids[call.b];
    var op := if call.AndGate? then And else if call.XorGate? then Xor else Not;
    EmitOk(s, in0, in1, op);
    EmitMirrors(c, s, in0, in1, op, ids, vals, inputs);
  }

  lemma {:induction false} RunMirrors<W>(c: Context<W>, calls: seq<Call>, n: nat, inputs: seq<W>)
    requires n <= |calls| && RecRun(calls, n).Some?
    ensures
      var t := RecRun(calls, n).value;
      && RecOk(t.rec) && Taken(calls, n) == t.rec.numInputs
      && Mirrors(c, t.rec, t.ids, LiveRun(c, calls, n, inputs), inputs)
  {
    if n > 0 {
      RunMirrors(c, calls, n - 1, inputs);
      var t, call, vals := RecRun(calls, n - 1).value, calls[n - 1], LiveRun(c, calls, n - 1, inputs);
      match call
      case Input(k) => InputsMirror(c, t.rec, k, t.ids, vals, inputs);
      case PublicBit(v) => BitMirrors(c, t.rec, v, t.ids, vals, inputs);
      case AndGate(_, _) => GateMirrors(c, t.rec, call, t.ids, vals, inputs);
      case XorGate(_, _) => GateMirrors(c, t.rec, call, t.ids, vals, inputs);
      case NotGate(_) => GateMirrors(c, t.rec, call, t.ids, vals, inputs);
    }
  }

  lemma FinishedValid(s: Rec, outputs: seq<nat>)
    requires RecOk(s) && forall k :: 0 <= k < |outputs| ==> outputs[k] < s.nextId
    ensures Valid(Finished(s, outputs)) && Emission(Finished(s, outputs))
  {
    var p := Finished(s, outputs);
    forall i | 0 <= i < |p.gates|
      ensures GateOk(p, i) && p.gates[i].out == p.numInputs + i
    {
      assert GateRecorded(s, i);
      forall w: nat | p.gates[i].Reads(w)
        ensures Written(p, i, w)
      {
        RecordedWritten(s, p, i, w);
      }
    }
    forall k | 0 <= k < |outputs|
      ensures Written(p, |p.gates|, outputs[k])
    {
      RecordedWritten(s, p, |p.gates|, outputs[k]);
    }
  }

  lemma RecordedWritten(s: Rec, p: BooleanProgram, i: nat, w: nat)
    requires RecOk(s) && p.gates == s.gates && p.numInputs == s.numInputs && i <= |p.gates| && w < s.numInputs + i
    ensures Written(p, i, w)
  {
    if w >= s.numInputs {
      assert GateRecorded(s, w - s.numInputs);
    }
  }

  /** For every sequence of calls the recorder accepts and every choice of outputs, the program is
      valid and computes, in every context, what the live run computes. */
  lemma RecordedReplays<W>(c: Context<W>, calls: seq<Call>, outs: seq<nat>, inputs: seq<W>)
    requires RecRun(calls, |calls|).Some?
    requires forall k :: 0 <= k < |outs| ==> outs[k] < |RecRun(calls, |calls|).value.ids|
    ensures
      var t, vals := RecRun(calls, |calls|).value, LiveRun(c, calls, |calls|, inputs);
      var outputs := seq(|outs|, k requires 0 <= k < |outs| => t.ids[outs[k]]);
      var p := Finished(t.rec, outputs);
      && |vals| == |t.ids| && Valid(p) && Emission(p)
      && Eval(c, p, inputs) == seq(|outs|, k requires 0 <= k < |outs| => vals[outs[k]])
  {
    RunMirrors(c, calls, |calls|, inputs);
    var t := RecRun(calls, |calls|).value;
    FinishedValid(t.rec, seq(|outs|, k requires 0 <= k < |outs| => t.ids[outs[k]]));
  }

  // ---- the recorder object ----

  class RecordCtx {
    var gates: seq<Gate>
    var nextId: nat
    var numInputs: nat
    var c0: Option<nat>
    var c1: Option<nat>
    var inputsClosed: bool

    ghost function State(): Rec
      reads this
    {
      Rec(gates, nextId, numInputs, c0, c1, inputsClosed)
    }

    constructor ()
      ensures State() == FRESH
    {
      gates, nextId, numInputs, c0, c1, inputsClosed := [], 0, 0, None, None, false;
    }

    /** alloc_ and push_back; a refusal leaves the state alone. */
    method Push(in0: nat, in1: nat, op: Op) returns (w: Option<nat>)
      modifies this
      ensures match Emit(old(State()), in0, in1, op)
        case None => w == None && State() == old(State())
        case Some(m) => w == Some(m.wires[0]) && State() == m.rec
      ensures w == if old(nextId) == UINT32_MAX then None else Some(old(nextId))
      ensures w.Some? ==>
        gates == old(gates) + [Gate(in0, in1, old(nextId), op)] && nextId == old(nextId) + 1 && inputsClosed
    {
      if nextId == UINT32_MAX { return None; }
      inputsClosed := true;
      w := Some(nextId);
      gates := gates + [Gate(in0, in1, nextId, op)];
      nextId := nextId + 1;
    }

    method ExternalInput(n: nat) returns (w: Option<nat>)
      modifies this
      ensures match Inputs(old(State()), n)
        case None => w == None && State() == old(State())
        case Some(m) => w == Some(m.wires[0]) && State() == m.rec
      ensures w.None? <==>
        old(inputsClosed) || n == 0 || old(nextId) + n > UINT32_MAX || old(numInputs) + n > UINT32_MAX
      ensures w.Some? ==> w.value == old(nextId) && nextId == old(nextId) + n && numInputs == old(numInputs) + n
    {
      if inputsClosed || n == 0 || n > UINT32_MAX - nextId || n > UINT32_MAX - numInputs { return None; }
      w := Some(nextId);
      nextId, numInputs := nextId + n, numInputs + n;
    }

    method MakeBit(v: bool) returns (w: Option<nat>)
      modifies this
      ensures match Bit(old(State()), v)
        case None => w == None && State() == old(State())
        case Some(m) => w == Some(m.wires[0]) && State() == m.rec
      ensures w.Some? ==> w == if v then c1 else c0
      ensures w.None? ==> old(nextId) == UINT32_MAX
      ensures old(if v then c1 else c0).Some? ==> w == old(if v then c1 else c0) && State() == old(State())
      ensures old(if v then c1 else c0).None? && w.Some? ==>
        gates == old(gates) + [Gate(0, 0, old(nextId), if v then Const1 else Const0)]
    {
      w := if v then c1 else c0;
      if w.None? {
        w := Push(0, 0, if v then Const1 else Const0);
        if w.Some? {
          if v {
            c1 := w;
          } else {
            c0 := w;
          }
        }
      }
    }

    /** The closing validation accepts whatever was recorded over wires of this context. */
    method Finish(outputs: seq<nat>) returns (p: BooleanProgram)
      requires RecOk(State()) && forall k :: 0 <= k < |outputs| ==> outputs[k] < nextId
      ensures p == Finished(State(), outputs) && Valid(p)
    {
      p := BooleanProgram(nextId, numInputs, Dense, gates, outputs);
      FinishedValid(State(), outputs);
      var ok := ValidateProgram(p);
      assert ok;
    }
  }
}
