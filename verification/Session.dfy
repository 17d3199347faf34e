/** The chunked session as a state machine: refcounted wire handles, a pending chunk,
    materialized values and the flush (emp-tool/ir/session/chunk_recorder.h,
    emp-tool/ir/session/chunked_session.h). It is proved to look like a session that evaluates
    every gate at once. Protocol hooks act on `carried`, the materialized bits. */
module Session {
  import opened Program
  import opened Wrappers
  import opened Execute
  import opened FlushPlan

  const UINT32_MAX: nat := 0xFFFF_FFFF

  /** The address of one ChunkWire object in scope. */
  type Handle = nat

  /** Ids are 1-based, 0 is the null id of a default or moved-from wire; |rc| is the next id. */
  datatype State = State(
    rc: seq<int>, gates: seq<Gate>, pending: set<nat>, const0: Option<nat>, const1: Option<nat>,
    carried: map<nat, bool>, numAnd: nat, handles: map<Handle, nat>)

  datatype Call =
    | Input(dst: seq<Handle>, bits: seq<bool>)
    | PublicBit(h: Handle, v: bool)
    | AndGate(h: Handle, a: Handle, b: Handle)
    | XorGate(h: Handle, a: Handle, b: Handle)
    | NotGate(h: Handle, a: Handle)
    | Copy(h: Handle, src: Handle)
    | Move(h: Handle, src: Handle)
    | Assign(h: Handle, src: Handle)
    | MoveAssign(h: Handle, src: Handle)
    | Destroy(h: Handle)
    | Reveal(hs: seq<Handle>, keep: seq<Handle>, mine: bool)
    | Checkpoint
    | Run(prog: BooleanProgram, args: seq<Handle>, outs: seq<Handle>)

  datatype Fault = Overflow | Unflushed | Width | StaleWire

  datatype Outcome = Done(state: State, out: Option<seq<bool>>) | Failed(fault: Fault)

  const INITIAL := State([0], [], {}, None, None, map[], 0, map[])

  // ---- the eager session ----

  datatype Cell = Null | Bit(v: bool)

  type Env = map<Handle, Cell>

  function Bits(env: Env, hs: seq<Handle>): (r: seq<bool>)
    requires forall k :: 0 <= k < |hs| ==> hs[k] in env && env[hs[k]].Bit?
    ensures |r| == |hs| && forall k :: 0 <= k < |hs| ==> r[k] == env[hs[k]].v
  {
    seq(|hs|, k requires 0 <= k < |hs| => env[hs[k]].v)
  }

  /** The first n handles get their bits. */
  function SetBits(env: Env, hs: seq<Handle>, bits: seq<bool>, n: nat): Env
    requires n <= |hs| == |bits|
  {
    if n == 0 then env else SetBits(env, hs, bits, n - 1)[hs[n - 1] := Bit(bits[n - 1])]
  }

  ghost predicate FreshHandles(env: Env, hs: seq<Handle>) {
    && (forall k :: 0 <= k < |hs| ==> hs[k] !in env)
    && (forall i, j :: 0 <= i < j < |hs| ==> hs[i] != hs[j])
  }

  ghost predicate HoldsBit(env: Env, h: Handle) {
    h in env && env[h].Bit?
  }

  ghost predicate HoldBits(env: Env, hs: seq<Handle>) {
    forall k :: 0 <= k < |hs| ==> hs[k] in env && env[hs[k]].Bit?
  }

  /** What C++ object lifetimes and the API demand of a caller. */
  ghost predicate Usable(env: Env, call: Call) {
    match call
    case Input(dst, bits) => |dst| == |bits| && FreshHandles(env, dst)
    case PublicBit(h, _) => h !in env
    case AndGate(h, a, b) => h !in env && HoldsBit(env, a) && HoldsBit(env, b)
    case XorGate(h, a, b) => h !in env && HoldsBit(env, a) && HoldsBit(env, b)
    case NotGate(h, a) => h !in env && HoldsBit(env, a)
    case Copy(h, src) => h !in env && src in env
    case Move(h, src) => h !in env && src in env
    case Assign(h, src) => h in env && src in env
    case MoveAssign(h, src) => h in env && src in env
    case Destroy(h) => h in env
    case Reveal(hs, keep, _) => HoldBits(env, hs) && HoldBits(env, keep)
    case Checkpoint => true
    case Run(prog, args, outs) =>
      Executable(prog) && HoldBits(env, args) && |outs| == |prog.outputs| && FreshHandles(env, outs)
  }

  /** Evaluate at once; reveal reads, checkpoint does nothing. */
  ghost function EagerStep(env: Env, call: Call): (Env, Option<seq<bool>>)
    requires Usable(env, call)
  {
    match call
    case Input(dst, bits) => (SetBits(env, dst, bits, |bits|), None)
    case PublicBit(h, v) => (env[h := Bit(v)], None)
    case AndGate(h, a, b) => (env[h := Bit(env[a].v && env[b].v)], None)
    case XorGate(h, a, b) => (env[h := Bit(env[a].v != env[b].v)], None)
    case NotGate(h, a) => (env[h := Bit(!env[a].v)], None)
    case Copy(h, src) => (env[h := env[src]], None)
    case Move(h, src) => (env[h := env[src]][src := Null], None)
    case Assign(h, src) => (env[h := env[src]], None)
    case MoveAssign(h, src) => (if h == src then env else env[h := env[src]][src := Null], None)
    case Destroy(h) => (env - {h}, None)
    case Reveal(hs, _, mine) => (env, if mine then Some(Bits(env, hs)) else None)
    case Checkpoint => (env, None)
    case Run(prog, args, outs) => (SetBits(env, outs, Eval(Clear(), prog, Bits(env, args)), |outs|), None)
  }

  // ---- the lazy session ----

  function Pin(rc: seq<int>, id: nat): seq<int> {
    if 0 < id < |rc| then rc[id := rc[id] + 1] else rc
  }

  function Unpin(rc: seq<int>, id: nat): seq<int> {
    if 0 < id < |rc| then rc[id := rc[id] - 1] else rc
  }

  /** A new handle on an id. */
  function Bind(s: State, h: Handle, id: nat): State {
    s.(rc := Pin(s.rc, id), handles := s.handles[h := id])
  }

  /** The first n handles on consecutive ids. */
  function BindAll(s: State, hs: seq<Handle>, first: nat, n: nat): State
    requires n <= |hs|
  {
    if n == 0 then s else Bind(BindAll(s, hs, first, n - 1), hs[n - 1], first + n - 1)
  }

  function Zeros(n: nat): (r: seq<int>)
    ensures |r| == n && forall k :: 0 <= k < n ==> r[k] == 0
  {
    seq(n, _ => 0)
  }

  /** record_: allocate an id, append the gate, hand out a wire. */
  function Record(s: State, h: Handle, in0: nat, in1: nat, op: Op): Outcome {
    var o := |s.rc|;
    if o >= UINT32_MAX then Failed(Overflow)
    else
      Done(Bind(s.(rc := s.rc + [0], gates := s.gates + [Gate(in0, in1, o, op)], pending := s.pending + {o}), h, o),
           None)
  }

  function RecordConst(s: State, h: Handle, v: bool): Outcome {
    var cached := if v then s.const1 else s.const0;
    if cached.Some? then Done(Bind(s, h, cached.value), None)
    else
      var r := Record(s, h, 0, 0, if v then Const1 else Const0);
      if r.Failed? then r
      else if v then Done(r.state.(const1 := Some(|s.rc|)), None)
      else Done(r.state.(const0 := Some(|s.rc|)), None)
  }

  /** Bits for the ids first, first + 1, ... */
  function Fill(m: map<nat, bool>, first: nat, bits: seq<bool>, n: nat): map<nat, bool>
    requires n <= |bits|
  {
    if n == 0 then m else Fill(m, first, bits, n - 1)[first + n - 1 := bits[n - 1]]
  }

  /** Materialize fresh ids with the given bits, then hand out wires. */
  function Materialize(s: State, hs: seq<Handle>, bits: seq<bool>): Outcome
    requires |hs| == |bits|
  {
    var o := |s.rc|;
    if o + |bits| > UINT32_MAX then Failed(Overflow)
    else
      Done(BindAll(s.(rc := s.rc + Zeros(|bits|), carried := Fill(s.carried, o, bits, |bits|)), hs, o, |hs|), None)
  }

  function DropChunk(s: State): State {
    s.(gates := [], pending := {}, const0 := None, const1 := None)
  }

  /** The bit an id stands for: evaluate the whole chunk over the materialized bits. */
  function Value(s: State, id: nat): bool {
    Read(Clear(), ExecTo(Clear(), s.gates, |s.gates|, s.carried), id)
  }

  predicate InScope(s: State, id: nat) {
    id < |s.rc| && s.rc[id] > 0
  }

  /** Pending ids that some handle holds, in emission order. */
  function LivePending(s: State, n: nat): (r: seq<nat>)
    requires n <= |s.gates|
    ensures forall w :: w in r <==> exists i :: 0 <= i < n && s.gates[i].out == w && InScope(s, w)
  {
    if n == 0 then []
    else
      var o := s.gates[n - 1].out;
      LivePending(s, n - 1) + (if InScope(s, o) then [o] else [])
  }

  function AndCount(gates: seq<Gate>, n: nat): nat
    requires n <= |gates|
  {
    if n == 0 then 0 else AndCount(gates, n - 1) + (if gates[n - 1].IsAnd() then 1 else 0)
  }

  ghost function NeededAnds(gates: seq<Gate>, need: set<nat>, n: nat): nat
    requires n <= |gates|
  {
    if n == 0 then 0 else NeededAnds(gates, need, n - 1) + (if n - 1 in need && gates[n - 1].IsAnd() then 1 else 0)
  }

  predicate Stale(s: State, id: nat) {
    id !in s.pending && id !in s.carried
  }

  function KeptValues(s: State, keep: seq<nat>): map<nat, bool> {
    map id | id in keep && id in s.pending :: Value(s, id)
  }

  /** flush_: materialize the pending kept ids, drop the chunk. */
  ghost function Flush(s: State, keep: seq<nat>): Outcome {
    var need := NeededSet(s.gates, keep);
    if exists id :: id in keep && Stale(s, id) then Failed(StaleWire)
    else if forall id :: id in keep ==> id !in s.pending then Done(DropChunk(s), None)
    else if ReadsStale(s.gates, need, s.carried.Keys) then Failed(StaleWire)
    else
      Done(DropChunk(s).(carried := s.carried + KeptValues(s, keep),
                         numAnd := s.numAnd + NeededAnds(s.gates, need, |s.gates|)), None)
  }

  function IdsOf(handles: map<Handle, nat>, hs: seq<Handle>): (r: seq<nat>)
    requires forall k :: 0 <= k < |hs| ==> hs[k] in handles
    ensures |r| == |hs| && forall k :: 0 <= k < |hs| ==> r[k] == handles[hs[k]]
  {
    seq(|hs|, k requires 0 <= k < |hs| => handles[hs[k]])
  }

  function Ids(s: State, hs: seq<Handle>): (r: seq<nat>)
    requires forall k :: 0 <= k < |hs| ==> hs[k] in s.handles
    ensures |r| == |hs| && forall k :: 0 <= k < |hs| ==> r[k] == s.handles[hs[k]]
  {
    IdsOf(s.handles, hs)
  }

  function Decode(m: map<nat, bool>, ids: seq<nat>): (r: seq<bool>)
    ensures |r| == |ids| && forall k :: 0 <= k < |ids| ==> r[k] == Read(Clear(), m, ids[k])
  {
    ReadAll(Clear(), m, ids)
  }

  /** reveal: flush what is in scope, what is revealed and what the caller lists, then decode. */
  ghost function RevealStep(s: State, ids: seq<nat>, keep: seq<nat>, mine: bool): Outcome {
    var r := Flush(s, LivePending(s, |s.gates|) + ids + keep);
    if r.Failed? then r else Done(r.state, if mine then Some(Decode(r.state.carried, ids)) else None)
  }

  /** The materialized bits some handle still refers to. */
  function Pruned(rc: seq<int>, carried: map<nat, bool>): map<nat, bool> {
    map id | id in carried && id < |rc| && rc[id] > 0 :: carried[id]
  }

  /** checkpoint(): flush what is in scope, then forget every materialized id that is not. */
  ghost function CheckpointStep(s: State): Outcome {
    var r := Flush(s, LivePending(s, |s.gates|));
    if r.Failed? then r
    else Done(r.state.(carried := Pruned(r.state.rc, r.state.carried)), None)
  }

  function KeptOnly(carried: map<nat, bool>, keep: seq<nat>): map<nat, bool> {
    map id | id in carried && id in keep :: carried[id]
  }

  /** checkpoint(keep...): flush and prune to the given ids only. */
  ghost function CheckpointKeepStep(s: State, keep: seq<nat>): Outcome {
    var r := Flush(s, keep);
    if r.Failed? then r
    else Done(r.state.(carried := KeptOnly(r.state.carried, keep)), None)
  }

  function RunStep(s: State, prog: BooleanProgram, ids: seq<nat>, outs: seq<Handle>): Outcome
    requires |outs| == |prog.outputs|
  {
    if exists k :: 0 <= k < |ids| && ids[k] !in s.carried then Failed(Unflushed)
    else if |ids| != prog.numInputs then Failed(Width)
    else
      var r := Materialize(s, outs, Eval(Clear(), prog, Decode(s.carried, ids)));
      if r.Failed? then r
      else Done(r.state.(numAnd := r.state.numAnd + AndCount(prog.gates, |prog.gates|)), None)
  }

  ghost function Step(s: State, call: Call): Outcome
    requires Usable(EnvOf(s), call)
  {
    match call
    case Input(dst, bits) => Materialize(s, dst, bits)
    case PublicBit(h, v) => RecordConst(s, h, v)
    case AndGate(h, a, b) => Record(s, h, s.handles[a], s.handles[b], And)
    case XorGate(h, a, b) => Record(s, h, s.handles[a], s.handles[b], Xor)
    case NotGate(h, a) => Record(s, h, s.handles[a], 0, Not)
    case Copy(h, src) => Done(Bind(s, h, s.handles[src]), None)
    case Move(h, src) => Done(s.(handles := s.handles[h := s.handles[src]][src := 0]), None)
    case Assign(h, src) =>
      Done(if s.handles[h] == s.handles[src] then s
           else s.(rc := Pin(Unpin(s.rc, s.handles[h]), s.handles[src]),
                   handles := s.handles[h := s.handles[src]]), None)
    case MoveAssign(h, src) =>
      Done(if h == src then s
           else s.(rc := Unpin(s.rc, s.handles[h]), handles := s.handles[h := s.handles[src]][src := 0]), None)
    case Destroy(h) => Done(s.(rc := Unpin(s.rc, s.handles[h]), handles := s.handles - {h}), None)
    case Reveal(hs, keep, mine) => RevealStep(s, Ids(s, hs), Ids(s, keep), mine)
    case Checkpoint => CheckpointStep(s)
    case Run(prog, args, outs) => RunStep(s, prog, Ids(s, args), outs)
  }

  /** The eager view of a lazy state. */
  ghost function EnvOf(s: State): (env: Env)
    ensures env.Keys == s.handles.Keys
  {
    map h | h in s.handles :: if s.handles[h] == 0 then Null else Bit(Value(s, s.handles[h]))
  }

  // ---- the invariant ----

  function Holders(handles: map<Handle, nat>, id: nat): set<Handle> {
    set h | h in handles && handles[h] == id
  }

  /** The count of every non-null id is the number of handles on it. */
  ghost predicate Counted(rc: seq<int>, handles: map<Handle, nat>) {
    && (forall h :: h in handles ==> handles[h] < |rc|)
    && (forall id :: 0 < id < |rc| ==> rc[id] == |Holders(handles, id)|)
  }

  ghost predicate Backed(s: State, id: nat) {
    id in s.pending || id in s.carried
  }

  ghost predicate PendingExact(s: State) {
    && (forall i :: 0 <= i < |s.gates| ==> 0 < s.gates[i].out < |s.rc|)
    && (forall id :: id in s.pending <==> Local(s.gates, id))
  }

  /** What a recorded gate reads is still there. */
  ghost predicate OperandsBacked(s: State) {
    forall i, w: nat :: 0 <= i < |s.gates| && s.gates[i].Reads(w) ==> Backed(s, w)
  }

  ghost predicate CachedConst(gates: seq<Gate>, cached: Option<nat>, op: Op) {
    cached.Some? ==> exists i :: 0 <= i < |gates| && gates[i] == Gate(0, 0, cached.value, op)
  }

  ghost predicate ChunkOk(s: State) {
    && Recorded(s.gates)
    && PendingExact(s)
    && OperandsBacked(s)
    && CachedConst(s.gates, s.const0, Const0)
    && CachedConst(s.gates, s.const1, Const1)
  }

  ghost predicate Inv(s: State) {
    && |s.rc| > 0
    && ChunkOk(s)
    && (forall id :: id in s.carried ==> 0 < id < |s.rc| && id !in s.pending)
    && (forall h :: h in s.handles ==> s.handles[h] == 0 || Backed(s, s.handles[h]))
    && Counted(s.rc, s.handles)
  }
}
