/** How much recording, flattening and sorting emit: no gate and no compare-swap more than asked for
    (emp-tool/ir/context/record.h, emp-tool/ir/context/compose.h, emp-tool/circuits/sort.h). */
module Counts {
  import opened Program
  import opened Wrappers
  import opened Powers
  import Record
  import Compose
  import Sort

  // ---- recording ----

  /** The calls among the first n that ask for an And, a Xor or a Not. */
  ghost function GateCalls(calls: seq<Record.Call>, n: nat): set<nat>
    requires n <= |calls|
  {
    set i | 0 <= i < n && (calls[i].AndGate? || calls[i].XorGate? || calls[i].NotGate?)
  }

  /** One of the first n calls asks for the constant. */
  ghost predicate Asked(calls: seq<Record.Call>, n: nat, v: bool)
    requires n <= |calls|
  {
    exists i :: 0 <= i < n && calls[i] == Record.PublicBit(v)
  }

  lemma GateCallsNext(calls: seq<Record.Call>, n: nat)
    requires n < |calls|
    ensures |GateCalls(calls, n + 1)|
         == |GateCalls(calls, n)| + if calls[n].AndGate? || calls[n].XorGate? || calls[n].NotGate? then 1 else 0
  {
    var gate := calls[n].AndGate? || calls[n].XorGate? || calls[n].NotGate?;
    assert GateCalls(calls, n + 1) == if gate then GateCalls(calls, n) + {n} else GateCalls(calls, n);
  }

  lemma AskedNext(calls: seq<Record.Call>, n: nat, v: bool)
    requires n < |calls|
    ensures Asked(calls, n + 1, v) <==> Asked(calls, n, v) || calls[n] == Record.PublicBit(v)
  {
  }

  /** The recorded program has one gate per gate call, and one for each constant that is asked for,
      however often. */
  lemma {:induction false} RecordedSize(calls: seq<Record.Call>, n: nat)
    requires n <= |calls| && Record.RecRun(calls, n).Some?
    ensures
      var s := Record.RecRun(calls, n).value.rec;
      && |s.gates| == |GateCalls(calls, n)| + (if Asked(calls, n, false) then 1 else 0)
                                            + (if Asked(calls, n, true) then 1 else 0)
      && (s.c0.Some? <==> Asked(calls, n, false)) && (s.c1.Some? <==> Asked(calls, n, true))
  {
    if n > 0 {
      RecordedSize(calls, n - 1);
      GateCallsNext(calls, n - 1);
      AskedNext(calls, n - 1, false);
      AskedNext(calls, n - 1, true);
    }
  }

  // ---- flattening ----

  /** One gate per glue gate, and the unit's gates per call. */
  function GatesAsked(plan: Compose.Plan, n: nat): nat
    requires Compose.Shaped(plan) && n <= |plan.events|
  {
    if n == 0 then 0
    else
      assert Compose.EventShaped(plan, plan.events[n - 1]);
      GatesAsked(plan, n - 1) + match plan.events[n - 1]
        case Glue(_) => 1
        case Call(i) => |plan.instances[i].unit.gates|
  }

  lemma {:induction false} InlineSize(base: nat, s: Compose.Flat, gates: seq<Gate>, n: nat)
    requires n <= |gates|
    ensures |Compose.Inline(base, s, gates, n).gates| == |s.gates| + n
  {
    if n > 0 {
      InlineSize(base, s, gates, n - 1);
    }
  }

  lemma {:induction false} FlattenSize(plan: Compose.Plan, n: nat)
    requires Compose.Shaped(plan) && n <= |plan.events|
    ensures |Compose.FlattenTo(plan, n).gates| == GatesAsked(plan, n)
  {
    if n > 0 {
      FlattenSize(plan, n - 1);
      var e, s := plan.events[n - 1], Compose.FlattenTo(plan, n - 1);
      assert Compose.EventShaped(plan, e);
      if e.Call? {
        var inst := plan.instances[e.instance];
        InlineSize(plan.numInputs, Compose.Flat(s.gates, Compose.Alias(inst, s.at)), inst.unit.gates,
                   |inst.unit.gates|);
      }
    }
  }

  /** Flattening emits each glue gate once and each unit's gates once per call. */
  lemma FlattenedSize(plan: Compose.Plan)
    requires Compose.Shaped(plan)
    ensures |Compose.Flattened(plan).gates| == GatesAsked(plan, |plan.events|)
  {
    FlattenSize(plan, |plan.events|);
  }

  // ---- sorting ----

  lemma {:induction false} StageAt(n: nat, p: nat, k: nat, bound: nat, a: nat)
    requires p >= 1 && k >= 1 && a < |Sort.StageSwaps(n, p, k, bound)|
    ensures
      var (x, y) := Sort.StageSwaps(n, p, k, bound)[a];
      x < bound && y == x + k && Sort.IsLow(n, p, k, x)
  {
    if a < |Sort.StageSwaps(n, p, k, bound - 1)| {
      StageAt(n, p, k, bound - 1, a);
    }
  }

  lemma {:induction false} StageAscends(n: nat, p: nat, k: nat, bound: nat, a: nat, b: nat)
    requires p >= 1 && k >= 1 && a < b < |Sort.StageSwaps(n, p, k, bound)|
    ensures Sort.StageSwaps(n, p, k, bound)[a].0 < Sort.StageSwaps(n, p, k, bound)[b].0
  {
    if b < |Sort.StageSwaps(n, p, k, bound - 1)| {
      StageAscends(n, p, k, bound - 1, a, b);
    } else {
      StageAt(n, p, k, bound - 1, a);
    }
  }

  lemma {:induction false} LowIsCompared(n: nat, p: nat, k: nat, bound: nat, x: nat)
    requires p >= 1 && k >= 1 && x < bound && Sort.IsLow(n, p, k, x)
    ensures (x, x + k) in Sort.StageSwaps(n, p, k, bound)
  {
    var last := [(bound - 1, bound - 1 + k)];
    if x < bound - 1 {
      LowIsCompared(n, p, k, bound - 1, x);
    } else {
      assert (x, x + k) == last[0];
      assert Sort.StageSwaps(n, p, k, bound) == Sort.StageSwaps(n, p, k, bound - 1) + last;
    }
  }

  /** Stage (p, k) compares x with x + k, once each and with ascending x, exactly where both lie in one block
      of 2p and row x / k of width k is even in the first stage of a merge, odd in the others. */
  lemma StageIs(n: nat, p: nat, k: nat, x: nat, y: nat)
    requires p >= 1 && k >= 1
    ensures forall a, b :: 0 <= a < b < |Sort.StageSwaps(n, p, k, n)| ==>
      Sort.StageSwaps(n, p, k, n)[a].0 < Sort.StageSwaps(n, p, k, n)[b].0
    ensures (x, y) in Sort.StageSwaps(n, p, k, n) <==>
            && y == x + k && y < n
            && x / (2 * p) == y / (2 * p) && (x / k) % 2 == (if k == p then 0 else 1)
  {
    var s := Sort.StageSwaps(n, p, k, n);
    forall a, b | 0 <= a < b < |s| ensures s[a].0 < s[b].0 {
      StageAscends(n, p, k, n, a, b);
    }
    if a :| 0 <= a < |s| && s[a] == (x, y) {
      StageAt(n, p, k, n, a);
    }
    if x < n && Sort.IsLow(n, p, k, x) {
      LowIsCompared(n, p, k, n, x);
    }
    QuotIsDiv(x, k);
    QuotIsDiv(x, 2 * p);
    QuotIsDiv(y, 2 * p);
  }
}
