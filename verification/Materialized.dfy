/** What the session's calls leave materialized, and how often they run or record a gate
    (emp-tool/ir/session/chunked_session.h): each statement is over handles, gates and values alone. */
module Materialized {
  import opened Program
  import opened Wrappers
  import opened FlushPlan
  import opened Session
  import opened SessionProof

  // ---- counting Ands ----

  lemma OneMore(before: set<nat>, all: set<nat>, n: nat, more: bool)
    requires n !in before && all == if more then before + {n} else before
    ensures |all| == |before| + if more then 1 else 0
  {
  }

  /** The count of a gate list is the number of its And positions. */
  lemma {:induction false} AndCountIs(gates: seq<Gate>, n: nat)
    requires n <= |gates|
    ensures AndCount(gates, n) == |set i | 0 <= i < n && gates[i].op == And|
  {
    if n > 0 {
      AndCountIs(gates, n - 1);
      var before := set i | 0 <= i < n - 1 && gates[i].op == And;
      OneMore(before, (set i | 0 <= i < n && gates[i].op == And), n - 1, gates[n - 1].op == And);
    }
  }

  ghost function AndsIn(gates: seq<Gate>, need: set<nat>, n: nat): set<nat>
    requires n <= |gates|
  {
    set i | 0 <= i < n && i in need && gates[i].op == And
  }

  /** What a flush adds to the count is the number of needed And gates. */
  lemma {:induction false} NeededAndsIs(gates: seq<Gate>, need: set<nat>, n: nat)
    requires n <= |gates|
    ensures NeededAnds(gates, need, n) == |AndsIn(gates, need, n)|
  {
    if n > 0 {
      NeededAndsIs(gates, need, n - 1);
      OneMore(AndsIn(gates, need, n - 1), AndsIn(gates, need, n), n - 1, n - 1 in need && gates[n - 1].IsAnd());
    }
  }

  lemma NothingNeeded(gates: seq<Gate>, keep: seq<nat>)
    requires forall i :: 0 <= i < |gates| ==> gates[i].out !in keep
    ensures NeededSet(gates, keep) == {}
  {
    forall gi | 0 <= gi < |gates| ensures !Needed(gates, keep, gi) {
      NotNeeded(gates, keep, gi);
    }
  }

  lemma {:induction false} NotNeeded(gates: seq<Gate>, keep: seq<nat>, gi: nat)
    requires gi < |gates| && forall i :: 0 <= i < |gates| ==> gates[i].out !in keep
    ensures !Needed(gates, keep, gi)
    decreases |gates| - gi
  {
    forall gj | gi < gj < |gates| ensures !Needed(gates, keep, gj) {
      NotNeeded(gates, keep, gj);
    }
  }

  /** A flush runs each And gate a kept id depends on once, and no other. */
  lemma FlushRunsNeededAnds(s: State, keep: seq<nat>)
    requires Inv(s) && forall id :: id in keep ==> Backed(s, id)
    ensures Flush(s, keep).Done?
    ensures Flush(s, keep).state.numAnd
         == s.numAnd + |set i | 0 <= i < |s.gates| && s.gates[i].op == And && Needed(s.gates, keep, i)|
  {
    FlushSucceeds(s, keep);
    NeededAndsIs(s.gates, NeededSet(s.gates, keep), |s.gates|);
    assert (set i | 0 <= i < |s.gates| && s.gates[i].op == And && Needed(s.gates, keep, i))
        == AndsIn(s.gates, NeededSet(s.gates, keep), |s.gates|);
    if forall id :: id in keep ==> id !in s.pending {
      forall i | 0 <= i < |s.gates| ensures s.gates[i].out !in keep {
        assert Local(s.gates, s.gates[i].out);
      }
      NothingNeeded(s.gates, keep);
    }
  }

  // ---- what is materialized ----

  /** Some handle is on the id. */
  ghost predicate IsHeld(s: State, id: nat) {
    id != 0 && exists h :: h in s.handles && s.handles[h] == id
  }

  /** The chunk is gone, handles and counts are as before. */
  ghost predicate ChunkGone(s: State, s': State) {
    s'.gates == [] && s'.pending == {} && s'.const0 == None && s'.const1 == None
    && s'.handles == s.handles && s'.rc == s.rc
  }

  /** A flush materializes the kept ids with their values, keeps what was materialized, and no more. */
  lemma FlushExact(s: State, keep: seq<nat>)
    requires Inv(s) && forall id :: id in keep ==> Backed(s, id)
    ensures Flush(s, keep).Done? && ChunkGone(s, Flush(s, keep).state)
    ensures forall id :: id in Flush(s, keep).state.carried <==> id in s.carried || id in keep
    ensures forall id :: id in Flush(s, keep).state.carried ==> Flush(s, keep).state.carried[id] == Value(s, id)
  {
    FlushSucceeds(s, keep);
    var m := s.carried + KeptValues(s, keep);
    forall id | id in m ensures m[id] == Value(s, id) {
      KeptHolds(s, keep, id);
    }
  }

  lemma LivePendingIs(s: State)
    requires Inv(s)
    ensures forall id :: id in LivePending(s, |s.gates|) <==> id in s.pending && IsHeld(s, id)
    ensures forall id :: id in LivePending(s, |s.gates|) ==> Backed(s, id)
  {
    forall id: nat
      ensures id in LivePending(s, |s.gates|) <==> id in s.pending && IsHeld(s, id)
    {
      if id in s.pending {
        BackedInRange(s, id);
        CountMeansHeld(s, id);
        assert Local(s.gates, id);
      }
    }
  }

  /** reveal leaves materialized what was, what a handle holds, what is revealed and what is listed. */
  lemma RevealExact(s: State, ids: seq<nat>, keep: seq<nat>, mine: bool)
    requires Inv(s) && forall id :: id in ids + keep ==> Backed(s, id)
    ensures RevealStep(s, ids, keep, mine).Done? && ChunkGone(s, RevealStep(s, ids, keep, mine).state)
    ensures forall id :: id in RevealStep(s, ids, keep, mine).state.carried <==>
              id in s.carried || IsHeld(s, id) || id in ids || id in keep
    ensures forall id :: id in RevealStep(s, ids, keep, mine).state.carried ==>
              RevealStep(s, ids, keep, mine).state.carried[id] == Value(s, id)
  {
    var live := LivePending(s, |s.gates|);
    LivePendingIs(s);
    forall id | id in live + ids + keep ensures Backed(s, id) {
      assert id in live || id in ids + keep;
    }
    FlushExact(s, live + ids + keep);
    forall id | IsHeld(s, id) ensures id in s.carried || id in live {
      HeldIsBacked(s, id);
    }
  }

  lemma HeldIsBacked(s: State, id: nat)
    requires Inv(s) && IsHeld(s, id)
    ensures Backed(s, id) && 0 < id < |s.rc| && InScope(s, id)
  {
    BackedInRange(s, id);
    CountMeansHeld(s, id);
  }

  /** checkpoint() leaves materialized exactly what some handle is on. */
  lemma CheckpointExact(s: State)
    requires Inv(s)
    ensures CheckpointStep(s).Done? && ChunkGone(s, CheckpointStep(s).state)
    ensures forall id :: id in CheckpointStep(s).state.carried <==>
              id != 0 && exists h :: h in s.handles && s.handles[h] == id
    ensures forall id :: id in CheckpointStep(s).state.carried ==> CheckpointStep(s).state.carried[id] == Value(s, id)
  {
    var live := LivePending(s, |s.gates|);
    LivePendingIs(s);
    FlushExact(s, live);
    var m := Flush(s, live).state.carried;
    forall id: nat
      ensures id in CheckpointStep(s).state.carried <==> IsHeld(s, id)
    {
      if id in m {
        BackedInRange(s, id);
        CountMeansHeld(s, id);
      } else if IsHeld(s, id) {
        HeldIsBacked(s, id);
        assert false;
      }
    }
  }

  /** checkpoint(keep...) leaves materialized exactly the ids it was given. */
  lemma CheckpointKeepExact(s: State, keep: seq<nat>)
    requires Inv(s) && forall id :: id in keep ==> Backed(s, id)
    ensures CheckpointKeepStep(s, keep).Done? && ChunkGone(s, CheckpointKeepStep(s, keep).state)
    ensures forall id :: id in CheckpointKeepStep(s, keep).state.carried <==> id in keep
    ensures forall id :: id in keep ==> CheckpointKeepStep(s, keep).state.carried[id] == Value(s, id)
  {
    FlushExact(s, keep);
  }

  // ---- constants ----

  /** The cache knows whether the constant is in the chunk, which holds it at most once. */
  ghost predicate AtMostOnce(gates: seq<Gate>, cached: Option<nat>, op: Op) {
    && (cached.Some? <==> exists i :: 0 <= i < |gates| && gates[i].op == op)
    && (forall i, j :: 0 <= i < j < |gates| ==> gates[i].op != op || gates[j].op != op)
  }

  ghost predicate ConstsOnce(s: State) {
    AtMostOnce(s.gates, s.const0, Const0) && AtMostOnce(s.gates, s.const1, Const1)
  }

  lemma OnceAppend(gates: seq<Gate>, g: Gate, cached: Option<nat>, cached': Option<nat>, op: Op)
    requires AtMostOnce(gates, cached, op)
    requires if g.op == op then cached.None? && cached'.Some? else cached' == cached
    ensures AtMostOnce(gates + [g], cached', op)
  {
    var all := gates + [g];
    if g.op == op {
      assert all[|gates|].op == op;
    } else if i :| 0 <= i < |gates| && gates[i].op == op {
      assert all[i].op == op;
    }
  }

  lemma {:induction false} BindAllKeeps(s: State, hs: seq<Handle>, first: nat, n: nat)
    requires n <= |hs|
    ensures var s' := BindAll(s, hs, first, n);
            s'.gates == s.gates && s'.const0 == s.const0 && s'.const1 == s.const1
  {
    if n > 0 {
      BindAllKeeps(s, hs, first, n - 1);
    }
  }

  lemma MaterializeKeeps(s: State, hs: seq<Handle>, bits: seq<bool>)
    requires |hs| == |bits| && Materialize(s, hs, bits).Done?
    ensures var s' := Materialize(s, hs, bits).state;
            s'.gates == s.gates && s'.const0 == s.const0 && s'.const1 == s.const1
  {
    BindAllKeeps(s.(rc := s.rc + Zeros(|bits|), carried := Fill(s.carried, |s.rc|, bits, |bits|)), hs, |s.rc|, |hs|);
  }

  lemma RecordOnce(s: State, h: Handle, in0: nat, in1: nat, op: Op)
    requires ConstsOnce(s) && Record(s, h, in0, in1, op).Done? && (op == And || op == Xor || op == Not)
    ensures ConstsOnce(Record(s, h, in0, in1, op).state)
  {
    var g := Gate(in0, in1, |s.rc|, op);
    OnceAppend(s.gates, g, s.const0, s.const0, Const0);
    OnceAppend(s.gates, g, s.const1, s.const1, Const1);
  }

  lemma RecordConstOnce(s: State, h: Handle, v: bool)
    requires ConstsOnce(s) && RecordConst(s, h, v).Done?
    ensures ConstsOnce(RecordConst(s, h, v).state)
  {
    var cached := if v then s.const1 else s.const0;
    if cached.None? {
      var g, s' := Gate(0, 0, |s.rc|, if v then Const1 else Const0), RecordConst(s, h, v).state;
      OnceAppend(s.gates, g, s.const0, s'.const0, Const0);
      OnceAppend(s.gates, g, s.const1, s'.const1, Const1);
    }
  }

  lemma HandleConstsOnce(s: State, call: Call)
    requires Usable(EnvOf(s), call) && ConstsOnce(s)
    requires call.Copy? || call.Move? || call.Assign? || call.MoveAssign? || call.Destroy?
    ensures Step(s, call).Done? && ConstsOnce(Step(s, call).state)
  {
  }

  lemma FlushConstsOnce(s: State, call: Call)
    requires Usable(EnvOf(s), call) && (call.Reveal? || call.Checkpoint?) && Step(s, call).Done?
    ensures ConstsOnce(Step(s, call).state)
  {
  }

  /** At the start and after every call each constant is in the chunk at most once. */
  lemma StepConstsOnce(s: State, call: Call)
    requires Usable(EnvOf(s), call) && ConstsOnce(s) && Step(s, call).Done?
    ensures ConstsOnce(INITIAL) && ConstsOnce(Step(s, call).state)
  {
    match call
    case Input(dst, bits) => MaterializeKeeps(s, dst, bits);
    case PublicBit(h, v) => RecordConstOnce(s, h, v);
    case AndGate(h, a, b) => RecordOnce(s, h, s.handles[a], s.handles[b], And);
    case XorGate(h, a, b) => RecordOnce(s, h, s.handles[a], s.handles[b], Xor);
    case NotGate(h, a) => RecordOnce(s, h, s.handles[a], 0, Not);
    case Run(prog, args, outs) =>
      MaterializeKeeps(s, outs, Eval(Clear(), prog, Decode(s.carried, Ids(s, args))));
    case Reveal(_, _, _) => FlushConstsOnce(s, call);
    case Checkpoint => FlushConstsOnce(s, call);
    case _ => HandleConstsOnce(s, call);
  }

  lemma OnlyOne(gates: seq<Gate>, cached: Option<nat>, op: Op, i: nat, j: nat)
    requires AtMostOnce(gates, cached, op) && i < |gates| && j < |gates| && gates[i].op == gates[j].op == op
    ensures i == j
  {
  }

  /** A constant that is in the chunk is handed out again: no gate, no id. */
  lemma ConstShared(s: State, h: Handle, v: bool, i: nat)
    requires Inv(s) && ConstsOnce(s) && i < |s.gates| && s.gates[i].op == if v then Const1 else Const0
    ensures RecordConst(s, h, v).Done?
    ensures var s' := RecordConst(s, h, v).state;
            s'.gates == s.gates && |s'.rc| == |s.rc| && s'.handles == s.handles[h := s.gates[i].out]
  {
    var cached, op := if v then s.const1 else s.const0, if v then Const1 else Const0;
    assert AtMostOnce(s.gates, cached, op);
    assert CachedConst(s.gates, cached, op);
    var j :| 0 <= j < |s.gates| && s.gates[j] == Gate(0, 0, cached.value, op);
    OnlyOne(s.gates, cached, op, i, j);
  }

  // ---- refusals ----

  /** The call needs more ids than are left. */
  ghost predicate RunsOut(s: State, call: Call) {
    match call
    case Input(dst, _) => |s.rc| + |dst| > UINT32_MAX
    case PublicBit(_, v) =>
      |s.rc| >= UINT32_MAX && forall i :: 0 <= i < |s.gates| ==> s.gates[i].op != if v then Const1 else Const0
    case AndGate(_, _, _) => |s.rc| >= UINT32_MAX
    case XorGate(_, _, _) => |s.rc| >= UINT32_MAX
    case NotGate(_, _) => |s.rc| >= UINT32_MAX
    case Run(prog, args, outs) => !UnflushedArg(s, args) && |args| == prog.numInputs && |s.rc| + |outs| > UINT32_MAX
    case _ => false
  }

  ghost predicate UnflushedArg(s: State, args: seq<Handle>) {
    exists k :: 0 <= k < |args| && args[k] in s.handles && s.handles[args[k]] in s.pending
  }

  lemma RunFailsIff(s: State, prog: BooleanProgram, args: seq<Handle>, outs: seq<Handle>)
    requires Inv(s) && Usable(EnvOf(s), Run(prog, args, outs))
    ensures
      var r := Step(s, Run(prog, args, outs));
      && (r == Failed(Unflushed) <==> UnflushedArg(s, args))
      && (r == Failed(Width) <==> !UnflushedArg(s, args) && |args| != prog.numInputs)
      && (r == Failed(Overflow) <==> RunsOut(s, Run(prog, args, outs)))
  {
    RunRefusal(s, prog, args, outs);
    if UnflushedArg(s, args) {
      var k :| 0 <= k < |args| && args[k] in s.handles && s.handles[args[k]] in s.pending;
      assert 0 <= k < |args| && s.handles[args[k]] in s.pending;
    }
  }

  /** A call is refused exactly when ids run out, or a circuit's argument is pending, or their number is wrong. */
  lemma StepFailsIff(s: State, call: Call)
    requires Inv(s) && ConstsOnce(s) && Usable(EnvOf(s), call)
    ensures Step(s, call) == Failed(Overflow) <==> RunsOut(s, call)
    ensures Step(s, call) == Failed(Unflushed) <==> call.Run? && UnflushedArg(s, call.args)
    ensures Step(s, call) == Failed(Width) <==>
              call.Run? && !UnflushedArg(s, call.args) && |call.args| != call.prog.numInputs
    ensures Step(s, call) != Failed(StaleWire)
  {
    StepMatches(s, call);
    match call
    case Run(prog, args, outs) => RunFailsIff(s, prog, args, outs);
    case PublicBit(_, v) => assert AtMostOnce(s.gates, if v then s.const1 else s.const0, if v then Const1 else Const0);
    case _ =>
  }
}
