/** Planning a flush of the recorded chunk: dead-code elimination, input discovery, compaction
    and stale detection (emp-tool/ir/session/flush_plan.h). */
module FlushPlan {
  import opened Program

  /** What a recorder leaves behind: fresh ids in increasing order, operands older than outputs. */
  ghost predicate Recorded(gates: seq<Gate>) {
    && (forall i, j :: 0 <= i < j < |gates| ==> gates[i].out < gates[j].out)
    && (forall i, w: nat :: 0 <= i < |gates| && gates[i].Reads(w) ==> w < gates[i].out)
  }

  predicate Local(gates: seq<Gate>, w: nat) {
    exists i :: 0 <= i < |gates| && gates[i].out == w
  }

  /** Gate gi is kept itself or feeds a needed gate. */
  ghost predicate Needed(gates: seq<Gate>, keep: seq<nat>, gi: nat)
    requires gi < |gates|
    decreases |gates| - gi
  {
    || gates[gi].out in keep
    || exists gj :: gi < gj < |gates| && gates[gj].Reads(gates[gi].out) && Needed(gates, keep, gj)
  }

  ghost function NeededSet(gates: seq<Gate>, keep: seq<nat>): set<nat> {
    set gi | 0 <= gi < |gates| && Needed(gates, keep, gi)
  }

  /** Some gate of the set reads an id that is neither chunk-local nor materialized. */
  ghost predicate ReadsStale(gates: seq<Gate>, need: set<nat>, mat: set<nat>) {
    exists gi, w: nat :: 0 <= gi < |gates| && gi in need && gates[gi].Reads(w) && !Local(gates, w) && w !in mat
  }

  /** The members of a set of gate indices below n, ascending: emission order. */
  ghost function InOrder(need: set<nat>, n: nat): (r: seq<nat>)
    ensures forall j :: 0 <= j < |r| ==> r[j] < n && r[j] in need
    ensures forall i, j :: 0 <= i < j < |r| ==> r[i] < r[j]
  {
    if n == 0 then [] else InOrder(need, n - 1) + (if n - 1 in need then [n - 1] else [])
  }

  /** The pending ids of a keep list, first occurrences only, in keep order. */
  function PendingKeeps(gates: seq<Gate>, keep: seq<nat>): (r: seq<nat>)
    ensures forall w :: w in r <==> w in keep && Local(gates, w)
    ensures forall i, j :: 0 <= i < j < |r| ==> r[i] != r[j]
  {
    if keep == [] then []
    else
      var r := PendingKeeps(gates, keep[..|keep| - 1]);
      var w := keep[|keep| - 1];
      assert keep == keep[..|keep| - 1] + [w];
      if Local(gates, w) && w !in r then r + [w] else r
  }

  datatype FlushPlan = FlushPlan(prog: BooleanProgram, inputIds: seq<nat>, outputIds: seq<nat>, ok: bool)

  /** Recorder id -> program id; an id without an entry reads as 0, as the source's map does. */
  type Remap = map<nat, nat>

  function Look(remap: Remap, w: nat): nat {
    if w in remap then remap[w] else 0
  }

  function Renumber(g: Gate, remap: Remap, out: nat): Gate {
    Gate(if g.IsConst() then 0 else Look(remap, g.in0),
         if g.IsConst() || g.IsNot() then 0 else Look(remap, g.in1),
         out, g.op)
  }

  // ---- compacting any operand-closed set of gates ----

  /** Every operand of a gate in the set is one of the inputs or an earlier gate of the set. */
  ghost predicate Closed(gates: seq<Gate>, need: set<nat>, inputIds: seq<nat>) {
    && (forall gi :: gi in need ==> gi < |gates|)
    && (forall k :: 0 <= k < |inputIds| ==> !Local(gates, inputIds[k]))
    && (forall gi, w: nat :: gi in need && gates[gi].Reads(w) ==>
          w in inputIds || exists gj :: 0 <= gj < gi && gates[gj].out == w && gj in need)
  }

  /** Inputs are numbered by position, the set's gates consecutively after them. */
  ghost predicate Numbered(gates: seq<Gate>, need: set<nat>, inputIds: seq<nat>, remap: Remap) {
    && (forall k :: 0 <= k < |inputIds| ==> Look(remap, inputIds[k]) == k)
    && (forall gi :: 0 <= gi < |gates| && gi in need ==> Look(remap, gates[gi].out) == |inputIds| + |InOrder(need, gi)|)
  }

  ghost predicate Emitted(gates: seq<Gate>, need: set<nat>, inputIds: seq<nat>, remap: Remap, prog: seq<Gate>) {
    var idx := InOrder(need, |gates|);
    && |prog| == |idx|
    && (forall j :: 0 <= j < |idx| ==> idx[j] < |gates| && prog[j] == Renumber(gates[idx[j]], remap, |inputIds| + j))
  }

  lemma {:induction false} InOrderPrefix(need: set<nat>, n: nat, m: nat)
    requires n <= m
    ensures InOrder(need, n) <= InOrder(need, m)
  {
    if n < m {
      InOrderPrefix(need, n, m - 1);
    }
  }

  /** Where a member of the set stands in emission order. */
  lemma Position(need: set<nat>, gi: nat, n: nat)
    requires gi in need && gi < n
    ensures |InOrder(need, gi)| < |InOrder(need, n)| && InOrder(need, n)[|InOrder(need, gi)|] == gi
  {
    assert InOrder(need, gi + 1)[|InOrder(need, gi)|] == gi;
    InOrderPrefix(need, gi + 1, n);
  }

  /** Program slots hold the values of the recorder ids they stand for. */
  ghost predicate Holds<W>(c: Context<W>, gates: seq<Gate>, need: set<nat>, inputIds: seq<nat>, remap: Remap, n: nat,
                           chunk: Store<W>, emitted: Store<W>)
    requires n <= |gates|
  {
    && (forall w :: w in inputIds ==> Read(c, emitted, Look(remap, w)) == Read(c, chunk, w))
    && (forall gi :: 0 <= gi < n && gi in need ==>
      Read(c, emitted, Look(remap, gates[gi].out)) == Read(c, chunk, gates[gi].out))
  }

  lemma RenumberedAgrees<W>(c: Context<W>, gates: seq<Gate>, need: set<nat>, inputIds: seq<nat>, remap: Remap, gi: nat,
                            out: nat,
                            chunk: Store<W>, emitted: Store<W>)
    requires Closed(gates, need, inputIds) && gi < |gates| && gi in need
    requires Holds(c, gates, need, inputIds, remap, gi, chunk, emitted)
    ensures GateValue(c, Renumber(gates[gi], remap, out), emitted) == GateValue(c, gates[gi], chunk)
  {
    var g := gates[gi];
    if !g.IsConst() {
      assert g.Reads(g.in0);
      if !g.IsNot() {
        assert g.Reads(g.in1);
      }
    }
    GateValueAgree(c, g, Renumber(g, remap, out), chunk, emitted);
  }

  /** The id a chunk gate defines, and the program id it gets, are new. */
  lemma FreshIds(gates: seq<Gate>, need: set<nat>, inputIds: seq<nat>, remap: Remap, gi: nat)
    requires Recorded(gates) && Closed(gates, need, inputIds) && Numbered(gates, need, inputIds, remap) && gi < |gates|
    ensures forall w :: w in inputIds ==> w != gates[gi].out
    ensures forall gj :: 0 <= gj < gi ==> gates[gj].out != gates[gi].out
    ensures gi in need ==> forall w :: w in inputIds ==> Look(remap, w) != Look(remap, gates[gi].out)
    ensures gi in need ==>
      forall gj :: 0 <= gj < gi && gj in need ==> Look(remap, gates[gj].out) != Look(remap, gates[gi].out)
  {
    assert Local(gates, gates[gi].out);
    if gi in need {
      forall w | w in inputIds ensures Look(remap, w) != Look(remap, gates[gi].out) {
        var k :| 0 <= k < |inputIds| && inputIds[k] == w;
        assert Look(remap, inputIds[k]) == k;
      }
      forall gj | 0 <= gj < gi && gj in need ensures Look(remap, gates[gj].out) != Look(remap, gates[gi].out) {
        Position(need, gj, gi);
      }
    }
  }

  lemma HoldsWrite<W>(c: Context<W>, gates: seq<Gate>, need: set<nat>, inputIds: seq<nat>, remap: Remap, gi: nat,
                      chunk: Store<W>, emitted: Store<W>, v: W)
    requires gi < |gates| && Holds(c, gates, need, inputIds, remap, gi, chunk, emitted)
    requires forall w :: w in inputIds ==> w != gates[gi].out
    requires forall gj :: 0 <= gj < gi ==> gates[gj].out != gates[gi].out
    requires gi in need ==> forall w :: w in inputIds ==> Look(remap, w) != Look(remap, gates[gi].out)
    requires gi in need ==>
      forall gj :: 0 <= gj < gi && gj in need ==> Look(remap, gates[gj].out) != Look(remap, gates[gi].out)
    ensures Holds(c, gates, need, inputIds, remap, gi + 1, chunk[gates[gi].out := v],
                  if gi in need then emitted[Look(remap, gates[gi].out) := v] else emitted)
  {
  }

  /** Running one more gate of the chunk, and the emitted gate if it is in the set. */
  lemma HoldsNext<W>(c: Context<W>, gates: seq<Gate>, need: set<nat>, inputIds: seq<nat>, remap: Remap, gi: nat,
                     chunk: Store<W>, emitted: Store<W>, n: nat, chunk': Store<W>, emitted': Store<W>)
    requires Recorded(gates) && Closed(gates, need, inputIds) && Numbered(gates, need, inputIds, remap) &&
             gi < |gates| && n == gi + 1
    requires Holds(c, gates, need, inputIds, remap, gi, chunk, emitted)
    requires chunk' == chunk[gates[gi].out := GateValue(c, gates[gi], chunk)]
    requires var out := Look(remap, gates[gi].out);
             emitted' == if gi in need then emitted[out := GateValue(c, Renumber(gates[gi], remap, out), emitted)]
               else emitted
    ensures Holds(c, gates, need, inputIds, remap, n, chunk', emitted')
  {
    FreshIds(gates, need, inputIds, remap, gi);
    HoldsWrite(c, gates, need, inputIds, remap, gi, chunk, emitted, GateValue(c, gates[gi], chunk));
    if gi in need {
      RenumberedAgrees(c, gates, need, inputIds, remap, gi, Look(remap, gates[gi].out), chunk, emitted);
    }
  }

  lemma InOrderStep(need: set<nat>, gi: nat)
    ensures |InOrder(need, gi + 1)| == |InOrder(need, gi)| + if gi in need then 1 else 0
  {
  }

  /** The emitted gate of a member of the set. */
  lemma EmittedGate(gates: seq<Gate>, need: set<nat>, inputIds: seq<nat>, remap: Remap, prog: seq<Gate>, gi: nat)
    requires Numbered(gates, need, inputIds, remap) && Emitted(gates, need, inputIds, remap, prog) && gi < |gates|
    ensures |InOrder(need, gi + 1)| <= |prog|
    ensures gi in need ==>
      |InOrder(need, gi)| < |prog| &&
        prog[|InOrder(need, gi)|] == Renumber(gates[gi], remap, Look(remap, gates[gi].out))
  {
    InOrderPrefix(need, gi + 1, |gates|);
    if gi in need {
      Position(need, gi, |gates|);
    }
  }

  /** How far the emitted program has run when the chunk has run gate gi. */
  lemma EmittedStep<W>(c: Context<W>, gates: seq<Gate>, need: set<nat>, inputIds: seq<nat>, remap: Remap,
                       prog: seq<Gate>, gi: nat, start: Store<W>)
    requires Numbered(gates, need, inputIds, remap) && Emitted(gates, need, inputIds, remap, prog) && gi < |gates|
    ensures |InOrder(need, gi)| <= |InOrder(need, gi + 1)| <= |prog|
    ensures var before, out := ExecTo(c, prog, |InOrder(need, gi)|, start), Look(remap, gates[gi].out);
            ExecTo(c, prog, |InOrder(need, gi + 1)|, start)
            == if gi in need then before[out := GateValue(c, Renumber(gates[gi], remap, out), before)] else before
  {
    EmittedGate(gates, need, inputIds, remap, prog, gi);
    InOrderStep(need, gi);
    var n := |InOrder(need, gi)|;
    if gi in need {
      var g := prog[n];
      var before := ExecTo(c, prog, n, start);
      assert ExecTo(c, prog, n + 1, start) == before[g.out := GateValue(c, g, before)];
    }
  }

  /** prog is the set of gates, compacted over the inputs. */
  ghost predicate Compacts(gates: seq<Gate>, need: set<nat>, inputIds: seq<nat>, remap: Remap, prog: seq<Gate>) {
    && Recorded(gates) && Closed(gates, need, inputIds) && Numbered(gates, need, inputIds, remap)
    && Emitted(gates, need, inputIds, remap, prog)
  }

  lemma HoldsThroughout<W>(c: Context<W>, gates: seq<Gate>, need: set<nat>, inputIds: seq<nat>, remap: Remap,
                           prog: seq<Gate>, n: nat, carried: Store<W>, start: Store<W>)
    requires Compacts(gates, need, inputIds, remap, prog) && n <= |gates|
    requires forall k :: 0 <= k < |inputIds| ==> Read(c, start, k) == Read(c, carried, inputIds[k])
    ensures |InOrder(need, n)| <= |prog|
    ensures Holds(c, gates, need, inputIds, remap, n, ExecTo(c, gates, n, carried),
                  ExecTo(c, prog, |InOrder(need, n)|, start))
  {
    HoldsAtStart(c, gates, need, inputIds, remap, carried, start);
    for i := 0 to n
      invariant |InOrder(need, i)| <= |prog|
      invariant Holds(c, gates, need, inputIds, remap, i, ExecTo(c, gates, i, carried),
                      ExecTo(c, prog, |InOrder(need, i)|, start))
    {
      HoldsStep(c, gates, need, inputIds, remap, prog, i + 1, carried, start);
    }
  }

  lemma HoldsStep<W>(c: Context<W>, gates: seq<Gate>, need: set<nat>, inputIds: seq<nat>, remap: Remap,
                     prog: seq<Gate>, n: nat, carried: Store<W>, start: Store<W>)
    requires Compacts(gates, need, inputIds, remap, prog) && 1 <= n <= |gates|
    requires |InOrder(need, n - 1)| <= |prog|
    requires Holds(c, gates, need, inputIds, remap, n - 1, ExecTo(c, gates, n - 1, carried),
                   ExecTo(c, prog, |InOrder(need, n - 1)|, start))
    ensures |InOrder(need, n)| <= |prog|
    ensures Holds(c, gates, need, inputIds, remap, n, ExecTo(c, gates, n, carried),
                  ExecTo(c, prog, |InOrder(need, n)|, start))
  {
    var gi := n - 1;
    EmittedStep(c, gates, need, inputIds, remap, prog, gi, start);
    HoldsNext(c, gates, need, inputIds, remap, gi, ExecTo(c, gates, gi, carried),
              ExecTo(c, prog, |InOrder(need, gi)|, start),
              n, ExecTo(c, gates, n, carried), ExecTo(c, prog, |InOrder(need, n)|, start));
  }

  lemma HoldsAtStart<W>(c: Context<W>, gates: seq<Gate>, need: set<nat>, inputIds: seq<nat>, remap: Remap,
                        carried: Store<W>, start: Store<W>)
    requires forall k :: 0 <= k < |inputIds| ==> Look(remap, inputIds[k]) == k
    requires forall k :: 0 <= k < |inputIds| ==> Read(c, start, k) == Read(c, carried, inputIds[k])
    ensures Holds(c, gates, need, inputIds, remap, 0, carried, start)
  {
    forall w | w in inputIds ensures Read(c, start, Look(remap, w)) == Read(c, carried, w) {
      var k :| 0 <= k < |inputIds| && inputIds[k] == w;
      assert Look(remap, inputIds[k]) == k;
    }
  }

  // ---- the plan ----

  /** The shape of a plan that found nothing stale. */
  ghost predicate Planned(gates: seq<Gate>, keep: seq<nat>, plan: FlushPlan, remap: Remap) {
    var need := NeededSet(gates, keep);
    && Closed(gates, need, plan.inputIds)
    && Numbered(gates, need, plan.inputIds, remap)
    && Emitted(gates, need, plan.inputIds, remap, plan.prog.gates)
    && plan.prog.numInputs == |plan.inputIds|
    && plan.prog.numWires == |plan.inputIds| + |plan.prog.gates|
    && plan.prog.wireReuse.Dense?
    && plan.outputIds == PendingKeeps(gates, keep)
    && |plan.prog.outputs| == |plan.outputIds|
    && (forall k :: 0 <= k < |plan.outputIds| ==> plan.prog.outputs[k] == Look(remap, plan.outputIds[k]))
  }

  /** Each kept pending id gets from the plan's program the value it has in the whole chunk. */
  lemma PlanPreservesMeaning<W>(c: Context<W>, gates: seq<Gate>, keep: seq<nat>, plan: FlushPlan, remap: Remap,
                                carried: Store<W>)
    requires Recorded(gates) && Planned(gates, keep, plan, remap)
    ensures Eval(c, plan.prog, ReadAll(c, carried, plan.inputIds))
         == ReadAll(c, ExecTo(c, gates, |gates|, carried), plan.outputIds)
  {
    var need := NeededSet(gates, keep);
    var inputs := ReadAll(c, carried, plan.inputIds);
    HoldsThroughout(c, gates, need, plan.inputIds, remap, plan.prog.gates, |gates|, carried, Seed(inputs));
    var chunk := ExecTo(c, gates, |gates|, carried);
    var emitted := ExecTo(c, plan.prog.gates, |plan.prog.gates|, Seed(inputs));
    forall k | 0 <= k < |plan.outputIds|
      ensures Read(c, emitted, plan.prog.outputs[k]) == Read(c, chunk, plan.outputIds[k])
    {
      OutputIsEmitted(gates, keep, plan, remap, k);
    }
  }

  /** Every kept output is the output of a needed gate, at its new number. */
  lemma OutputIsEmitted(gates: seq<Gate>, keep: seq<nat>, plan: FlushPlan, remap: Remap, k: nat)
    requires Planned(gates, keep, plan, remap) && k < |plan.outputIds|
    ensures exists gi :: 0 <= gi < |gates| && gi in NeededSet(gates, keep) && gates[gi].out == plan.outputIds[k]
    ensures k < |plan.prog.outputs| && plan.prog.outputs[k] == Look(remap, plan.outputIds[k])
  {
    var w := plan.outputIds[k];
    assert w in plan.outputIds;
    var gi :| 0 <= gi < |gates| && gates[gi].out == w;
    assert Needed(gates, keep, gi) && gi in NeededSet(gates, keep);
  }

  lemma OperandBelow(gates: seq<Gate>, need: set<nat>, inputIds: seq<nat>, remap: Remap, j: nat, w: nat)
    requires Closed(gates, need, inputIds) && Numbered(gates, need, inputIds, remap)
    requires j < |InOrder(need, |gates|)| && InOrder(need, |gates|)[j] < |gates| &&
             gates[InOrder(need, |gates|)[j]].Reads(w)
    ensures Look(remap, w) < |inputIds| + j
  {
    var gi := InOrder(need, |gates|)[j];
    Position(need, gi, |gates|);
    if w in inputIds {
      var k :| 0 <= k < |inputIds| && inputIds[k] == w;
      assert Look(remap, inputIds[k]) == k;
    } else {
      var gj :| 0 <= gj < gi && gates[gj].out == w && gj in need;
      Position(need, gj, gi);
    }
  }

  /** An emission-ordered gate list whose operands point below each gate is a valid program. */
  lemma EmissionIsValid(p: BooleanProgram)
    requires p.wireReuse.Dense? && p.numWires == p.numInputs + |p.gates| && Emission(p)
    requires forall j :: 0 <= j < |p.gates| ==> Canonical(p.gates[j])
    requires forall j, w: nat :: 0 <= j < |p.gates| && p.gates[j].Reads(w) ==> w < p.numInputs + j
    requires forall k :: 0 <= k < |p.outputs| ==> p.outputs[k] < p.numWires
    ensures Valid(p)
  {
    forall j, w: nat | 0 <= j <= |p.gates| && w < p.numInputs + j ensures Written(p, j, w) {
      if w >= p.numInputs {
        assert p.gates[w - p.numInputs].out == w;
      }
    }
  }

  /** The plan's program is dense, valid and in emission order. */
  lemma PlanIsCanonical(gates: seq<Gate>, keep: seq<nat>, plan: FlushPlan, remap: Remap)
    requires Recorded(gates) && Planned(gates, keep, plan, remap)
    ensures Valid(plan.prog) && Emission(plan.prog)
  {
    var need, p, ni := NeededSet(gates, keep), plan.prog, |plan.inputIds|;
    var idx := InOrder(need, |gates|);
    forall j, w: nat | 0 <= j < |idx| && p.gates[j].Reads(w) ensures w < ni + j {
      var g := gates[idx[j]];
      assert !g.IsConst() ==> g.Reads(g.in0);
      assert !g.IsConst() && !g.IsNot() ==> g.Reads(g.in1);
      if w == p.gates[j].in0 {
        OperandBelow(gates, need, plan.inputIds, remap, j, g.in0);
      } else {
        OperandBelow(gates, need, plan.inputIds, remap, j, g.in1);
      }
    }
    forall k | 0 <= k < |p.outputs| ensures p.outputs[k] < p.numWires {
      var w := plan.outputIds[k];
      assert w in plan.outputIds;
      var gi :| 0 <= gi < |gates| && gates[gi].out == w;
      assert Needed(gates, keep, gi) && gi in need;
      Position(need, gi, |gates|);
    }
    EmissionIsValid(p);
  }
}
