/** Hierarchical circuits (emp-tool/ir/context/compose.h): glue gates and opaque calls of units, and
    the flattener that inlines every call. */
module Compose {

  import opened Program
  import opened Wrappers
  import opened Execute
  import FlushPlan
  import Compact

  type Remap = FlushPlan.Remap

  datatype Instance = Instance(unit: BooleanProgram, inIds: seq<nat>, outIds: seq<nat>)

  datatype Event = Glue(gate: Gate) | Call(instance: nat)

  datatype Plan = Plan(numInputs: nat, numWires: nat, events: seq<Event>, instances: seq<Instance>, outputs: seq<nat>)

  // ---- meaning ----

  /** m with vals[j] stored under ids[j], in order. */
  function SetAll<W>(m: Store<W>, ids: seq<nat>, vals: seq<W>, k: nat): Store<W>
    requires k <= |ids| == |vals|
  {
    if k == 0 then m else SetAll(m, ids, vals, k - 1)[ids[k - 1] := vals[k - 1]]
  }

  /** Each unit is run as a function of the values of its arguments. */
  function EventMeaning<W>(c: Context<W>, plan: Plan, e: Event, m: Store<W>): Store<W>
    requires EventShaped(plan, e)
  {
    match e
    case Glue(g) => m[g.out := GateValue(c, g, m)]
    case Call(i) =>
      var inst := plan.instances[i];
      SetAll(m, inst.outIds, Eval(c, inst.unit, ReadAll(c, m, inst.inIds)), |inst.outIds|)
  }

  predicate EventShaped(plan: Plan, e: Event) {
    e.Call? ==>
      e.instance < |plan.instances|
      && var inst := plan.instances[e.instance];
         |inst.inIds| == inst.unit.numInputs && |inst.outIds| == |inst.unit.outputs|
  }

  predicate Shaped(plan: Plan) {
    forall n :: 0 <= n < |plan.events| ==> EventShaped(plan, plan.events[n])
  }

  function PlanExec<W>(c: Context<W>, plan: Plan, n: nat, m: Store<W>): Store<W>
    requires Shaped(plan) && n <= |plan.events|
  {
    if n == 0 then m else EventMeaning(c, plan, plan.events[n - 1], PlanExec(c, plan, n - 1, m))
  }

  function PlanEval<W>(c: Context<W>, plan: Plan, inputs: seq<W>): seq<W>
    requires Shaped(plan)
  {
    ReadAll(c, PlanExec(c, plan, |plan.events|, Seed(inputs)), plan.outputs)
  }

  // ---- what the recorder guarantees ----

  /** The ids an event defines. */
  ghost predicate Defines(plan: Plan, e: Event, w: nat)
    requires EventShaped(plan, e)
  {
    match e
    case Glue(g) => g.out == w
    case Call(i) => w in plan.instances[i].outIds
  }

  ghost predicate Defined(plan: Plan, n: nat, w: nat)
    requires Shaped(plan) && n <= |plan.events|
  {
    w < plan.numInputs || exists j :: 0 <= j < n && Defines(plan, plan.events[j], w)
  }

  ghost predicate EventReadsDefined(plan: Plan, n: nat)
    requires Shaped(plan) && n < |plan.events|
  {
    match plan.events[n]
    case Glue(g) => forall w: nat :: g.Reads(w) ==> Defined(plan, n, w)
    case Call(i) => Executable(plan.instances[i].unit) && forall w :: w in plan.instances[i].inIds ==>
      Defined(plan, n, w)
  }

  /** Ids are read after they are defined, and units are accepted programs. */
  ghost predicate WellFormed(plan: Plan) {
    && Shaped(plan)
    && (forall n :: 0 <= n < |plan.events| ==> EventReadsDefined(plan, n))
    && (forall w :: w in plan.outputs ==> Defined(plan, |plan.events|, w))
  }

  // ---- flattening ----

  /** The dense gates so far, and where each id of the current space now lives. */
  datatype Flat = Flat(gates: seq<Gate>, at: Remap)

  function AddGate(base: nat, s: Flat, g: Gate): Flat {
    var out := base + |s.gates|;
    Flat(s.gates + [FlushPlan.Renumber(g, s.at, out)], s.at[g.out := out])
  }

  function Inline(base: nat, s: Flat, gates: seq<Gate>, n: nat): Flat
    requires n <= |gates|
  {
    if n == 0 then s else AddGate(base, Inline(base, s, gates, n - 1), gates[n - 1])
  }

  /** The unit's inputs alias the composition's wires. */
  function Alias(inst: Instance, cmap: Remap): Remap {
    map j: nat | 0 <= j < |inst.inIds| :: FlushPlan.Look(cmap, inst.inIds[j])
  }

  /** The composition's ids for the unit's outputs. */
  function Export(cmap: Remap, inst: Instance, umap: Remap, k: nat): Remap
    requires k <= |inst.outIds| == |inst.unit.outputs|
  {
    if k == 0 then cmap
    else Export(cmap, inst, umap, k - 1)[inst.outIds[k - 1] := FlushPlan.Look(umap, inst.unit.outputs[k - 1])]
  }

  function FlattenEvent(plan: Plan, s: Flat, e: Event): Flat
    requires EventShaped(plan, e)
  {
    match e
    case Glue(g) => AddGate(plan.numInputs, s, g)
    case Call(i) =>
      var inst := plan.instances[i];
      var u := Inline(plan.numInputs, Flat(s.gates, Alias(inst, s.at)), inst.unit.gates, |inst.unit.gates|);
      Flat(u.gates, Export(s.at, inst, u.at, |inst.outIds|))
  }

  function Identity(n: nat): (r: Remap)
    ensures forall w: nat :: w in r <==> w < n
    ensures forall w: nat :: w < n ==> r[w] == w
  {
    if n == 0 then map[] else Identity(n - 1)[n - 1 := n - 1]
  }

  function Start(plan: Plan): Flat {
    Flat([], Identity(plan.numInputs))
  }

  function FlattenTo(plan: Plan, n: nat): Flat
    requires Shaped(plan) && n <= |plan.events|
  {
    if n == 0 then Start(plan) else FlattenEvent(plan, FlattenTo(plan, n - 1), plan.events[n - 1])
  }

  function Flattened(plan: Plan): BooleanProgram
    requires Shaped(plan)
  {
    var s := FlattenTo(plan, |plan.events|);
    BooleanProgram(plan.numInputs + |s.gates|, plan.numInputs, Dense, s.gates,
                   seq(|plan.outputs|, k requires 0 <= k < |plan.outputs| => FlushPlan.Look(s.at, plan.outputs[k])))
  }

  // ---- dense numbering ----

  ghost predicate DenseFrom(base: nat, gates: seq<Gate>) {
    forall i :: 0 <= i < |gates| ==>
      gates[i].out == base + i && Canonical(gates[i]) && forall w: nat :: gates[i].Reads(w) ==> w < base + i
  }

  /** All mapped ids live below the next dense id. */
  ghost predicate Placed(base: nat, s: Flat) {
    DenseFrom(base, s.gates) && forall w :: w in s.at ==> s.at[w] < base + |s.gates|
  }

  lemma AddGatePlaced(base: nat, s: Flat, g: Gate)
    requires Placed(base, s) && forall w: nat :: g.Reads(w) ==> w in s.at
    ensures Placed(base, AddGate(base, s, g))
  {
    var h := FlushPlan.Renumber(g, s.at, base + |s.gates|);
    if !g.IsConst() {
      assert g.Reads(g.in0);
      if !g.IsNot() {
        assert g.Reads(g.in1);
      }
    }
    assert forall w: nat :: h.Reads(w) ==> w < base + |s.gates|;
  }

  // ---- one gate ----

  /** Mapped ids hold the values of the source store. */
  ghost predicate Mirrors<W>(c: Context<W>, at: Remap, source: Store<W>, dense: Store<W>) {
    forall w :: w in at ==> Read(c, dense, at[w]) == Read(c, source, w)
  }

  function Run<W>(c: Context<W>, gates: seq<Gate>, inputs: seq<W>): Store<W> {
    ExecTo(c, gates, |gates|, Seed(inputs))
  }

  lemma RenamedValue<W>(c: Context<W>, g: Gate, at: Remap, out: nat, source: Store<W>, dense: Store<W>)
    requires Mirrors(c, at, source, dense) && forall w: nat :: g.Reads(w) ==> w in at
    ensures GateValue(c, FlushPlan.Renumber(g, at, out), dense) == GateValue(c, g, source)
  {
    if !g.IsConst() {
      assert g.Reads(g.in0);
      if !g.IsNot() {
        assert g.Reads(g.in1);
      }
    }
    GateValueAgree(c, g, FlushPlan.Renumber(g, at, out), source, dense);
  }

  lemma AddGateMirrors<W>(c: Context<W>, base: nat, s: Flat, g: Gate, source: Store<W>, inputs: seq<W>)
    requires Placed(base, s) && forall w: nat :: g.Reads(w) ==> w in s.at
    requires Mirrors(c, s.at, source, Run(c, s.gates, inputs))
    ensures Mirrors(c, AddGate(base, s, g).at, source[g.out := GateValue(c, g, source)],
                    Run(c, AddGate(base, s, g).gates, inputs))
  {
    var out := base + |s.gates|;
    var h := FlushPlan.Renumber(g, s.at, out);
    RenamedValue(c, g, s.at, out, source, Run(c, s.gates, inputs));
    Compact.ExecSnoc(c, s.gates, h, Seed(inputs));
  }

  /** A dense gate writes no id below the ones already in use. */
  lemma AddGateKeeps<W>(c: Context<W>, base: nat, s: Flat, g: Gate, inputs: seq<W>, w: nat)
    requires w < base + |s.gates|
    ensures Read(c, Run(c, AddGate(base, s, g).gates, inputs), w) == Read(c, Run(c, s.gates, inputs), w)
  {
    var h := FlushPlan.Renumber(g, s.at, base + |s.gates|);
    Compact.ExecSnoc(c, s.gates, h, Seed(inputs));
  }

  // ---- one unit ----

  /** r is s with n gates of a unit inlined: the unit's wires are mirrored, and everything older is
      in place. */
  ghost predicate Inlined<W>(c: Context<W>, base: nat, s: Flat, u: BooleanProgram, n: nat, r: Flat, source: Store<W>,
                             inputs: seq<W>)
    requires n <= |u.gates|
  {
    && Placed(base, r) && |r.gates| == |s.gates| + n
    && (forall w: nat :: Written(u, n, w) ==> w in r.at)
    && Mirrors(c, r.at, source, Run(c, r.gates, inputs))
    && (forall w: nat :: w < base + |s.gates| ==>
      Read(c, Run(c, r.gates, inputs), w) == Read(c, Run(c, s.gates, inputs), w))
  }

  lemma InlinedNext<W>(c: Context<W>, base: nat, s: Flat, u: BooleanProgram, n: nat, r: Flat, source: Store<W>,
                       r': Flat, source': Store<W>, inputs: seq<W>)
    requires 1 <= n <= |u.gates| && GateOk(u, n - 1) && Inlined(c, base, s, u, n - 1, r, source, inputs)
    requires r' == AddGate(base, r, u.gates[n - 1])
    requires source' == source[u.gates[n - 1].out := GateValue(c, u.gates[n - 1], source)]
    ensures Inlined(c, base, s, u, n, r', source', inputs)
  {
    var g := u.gates[n - 1];
    AddGatePlaced(base, r, g);
    AddGateMirrors(c, base, r, g, source, inputs);
    forall w: nat | Written(u, n, w)
      ensures w in r'.at
    {
      Compact.WrittenNext(u, n - 1, w);
    }
    forall w: nat | w < base + |s.gates|
      ensures Read(c, Run(c, r'.gates, inputs), w) == Read(c, Run(c, s.gates, inputs), w)
    {
      AddGateKeeps(c, base, r, g, inputs, w);
    }
  }

  lemma InlinedStart<W>(c: Context<W>, base: nat, s: Flat, u: BooleanProgram, args: seq<W>, inputs: seq<W>)
    requires Placed(base, s) && forall w: nat :: w < u.numInputs ==> w in s.at
    requires Mirrors(c, s.at, Seed(args), Run(c, s.gates, inputs))
    ensures Inlined(c, base, s, u, 0, s, Seed(args), inputs)
  {
  }

  lemma InlineHolds<W>(c: Context<W>, base: nat, s: Flat, u: BooleanProgram, n: nat, args: seq<W>, inputs: seq<W>)
    requires Executable(u) && n <= |u.gates| && Placed(base, s)
    requires forall w: nat :: w < u.numInputs ==> w in s.at
    requires Mirrors(c, s.at, Seed(args), Run(c, s.gates, inputs))
    ensures Inlined(c, base, s, u, n, Inline(base, s, u.gates, n), ExecTo(c, u.gates, n, Seed(args)), inputs)
  {
    InlinedStart(c, base, s, u, args, inputs);
    for i := 0 to n
      invariant Inlined(c, base, s, u, i, Inline(base, s, u.gates, i), ExecTo(c, u.gates, i, Seed(args)), inputs)
    {
      InlinedRunNext(c, base, s, u, i, args, inputs);
    }
  }

  lemma InlinedRunNext<W>(c: Context<W>, base: nat, s: Flat, u: BooleanProgram, i: nat, args: seq<W>, inputs: seq<W>)
    requires Executable(u) && i < |u.gates|
    requires Inlined(c, base, s, u, i, Inline(base, s, u.gates, i), ExecTo(c, u.gates, i, Seed(args)), inputs)
    ensures Inlined(c, base, s, u, i + 1, Inline(base, s, u.gates, i + 1), ExecTo(c, u.gates, i + 1, Seed(args)),
                    inputs)
  {
    assert GateOk(u, i);
    InlinedNext(c, base, s, u, i + 1, Inline(base, s, u.gates, i), ExecTo(c, u.gates, i, Seed(args)),
                Inline(base, s, u.gates, i + 1), ExecTo(c, u.gates, i + 1, Seed(args)), inputs);
  }

  lemma {:induction false} ExportHolds<W>(c: Context<W>, cmap: Remap, inst: Instance, umap: Remap, k: nat,
                                          source: Store<W>, vals: seq<W>, dense: Store<W>, next: nat)
    requires k <= |inst.outIds| == |inst.unit.outputs| == |vals|
    requires Mirrors(c, cmap, source, dense) && forall w :: w in cmap ==> cmap[w] < next
    requires forall j :: 0 <= j < |vals| ==> inst.unit.outputs[j] in umap && umap[inst.unit.outputs[j]] < next
    requires forall j :: 0 <= j < |vals| ==> Read(c, dense, umap[inst.unit.outputs[j]]) == vals[j]
    ensures Mirrors(c, Export(cmap, inst, umap, k), SetAll(source, inst.outIds, vals, k), dense)
    ensures forall w :: w in Export(cmap, inst, umap, k) ==> Export(cmap, inst, umap, k)[w] < next
    ensures forall w :: w in cmap ==> w in Export(cmap, inst, umap, k)
    ensures forall j :: 0 <= j < k ==> inst.outIds[j] in Export(cmap, inst, umap, k)
  {
    if k > 0 {
      ExportHolds(c, cmap, inst, umap, k - 1, source, vals, dense, next);
    }
  }

  /** The aliases of a call's arguments mirror the unit's input values. */
  lemma AliasHolds<W>(c: Context<W>, base: nat, s: Flat, inst: Instance, source: Store<W>, inputs: seq<W>)
    requires Placed(base, s) && Mirrors(c, s.at, source, Run(c, s.gates, inputs))
    requires |inst.inIds| == inst.unit.numInputs && forall w :: w in inst.inIds ==> w in s.at
    ensures Placed(base, Flat(s.gates, Alias(inst, s.at)))
    ensures forall w: nat :: w < inst.unit.numInputs ==> w in Alias(inst, s.at)
    ensures Mirrors(c, Alias(inst, s.at), Seed(ReadAll(c, source, inst.inIds)), Run(c, s.gates, inputs))
  {
    var args, a := ReadAll(c, source, inst.inIds), Alias(inst, s.at);
    forall j | j in a
      ensures a[j] < base + |s.gates| && Read(c, Run(c, s.gates, inputs), a[j]) == Read(c, Seed(args), j)
    {
      assert inst.inIds[j] in inst.inIds;
      assert Seed(args)[j] == args[j];
    }
  }

  /** What flattening has achieved after some events. */
  ghost predicate Flattening<W>(c: Context<W>, plan: Plan, n: nat, s: Flat, source: Store<W>, inputs: seq<W>)
    requires Shaped(plan) && n <= |plan.events|
  {
    && Placed(plan.numInputs, s)
    && Mirrors(c, s.at, source, Run(c, s.gates, inputs))
    && (forall w: nat :: Defined(plan, n, w) ==> w in s.at)
  }

  lemma DefinedNext(plan: Plan, n: nat, w: nat)
    requires Shaped(plan) && n < |plan.events|
    ensures Defined(plan, n + 1, w) <==> Defined(plan, n, w) || Defines(plan, plan.events[n], w)
  {
  }

  lemma GlueHolds<W>(c: Context<W>, plan: Plan, n: nat, s: Flat, source: Store<W>, s': Flat, source': Store<W>,
                     inputs: seq<W>)
    requires Shaped(plan) && 1 <= n <= |plan.events| && plan.events[n - 1].Glue? && EventReadsDefined(plan, n - 1)
    requires Flattening(c, plan, n - 1, s, source, inputs)
    requires s' == FlattenEvent(plan, s, plan.events[n - 1]) &&
             source' == EventMeaning(c, plan, plan.events[n - 1], source)
    ensures Flattening(c, plan, n, s', source', inputs)
  {
    var g := plan.events[n - 1].gate;
    AddGatePlaced(plan.numInputs, s, g);
    AddGateMirrors(c, plan.numInputs, s, g, source, inputs);
    forall w: nat | Defined(plan, n, w)
      ensures w in s'.at
    {
      DefinedNext(plan, n - 1, w);
    }
  }

  lemma CallHolds<W>(c: Context<W>, plan: Plan, n: nat, s: Flat, source: Store<W>, s': Flat, source': Store<W>,
                     inputs: seq<W>)
    requires Shaped(plan) && 1 <= n <= |plan.events| && plan.events[n - 1].Call? && EventReadsDefined(plan, n - 1)
    requires Flattening(c, plan, n - 1, s, source, inputs)
    requires s' == FlattenEvent(plan, s, plan.events[n - 1]) &&
             source' == EventMeaning(c, plan, plan.events[n - 1], source)
    ensures Flattening(c, plan, n, s', source', inputs)
  {
    var base, inst := plan.numInputs, plan.instances[plan.events[n - 1].instance];
    assert EventShaped(plan, plan.events[n - 1]);
    var unit, args := inst.unit, ReadAll(c, source, inst.inIds);
    AliasHolds(c, base, s, inst, source, inputs);
    var a := Flat(s.gates, Alias(inst, s.at));
    InlineHolds(c, base, a, unit, |unit.gates|, args, inputs);
    var u := Inline(base, a, unit.gates, |unit.gates|);
    var dense, vals := Run(c, u.gates, inputs), Eval(c, unit, args);
    OutputsHold(c, unit, u.at, args, dense, base + |u.gates|);
    ExportHolds(c, s.at, inst, u.at, |inst.outIds|, source, vals, dense, base + |u.gates|);
    forall w: nat | Defined(plan, n, w)
      ensures w in s'.at
    {
      DefinedNext(plan, n - 1, w);
    }
  }

  lemma OutputsHold<W>(c: Context<W>, unit: BooleanProgram, at: Remap, args: seq<W>, dense: Store<W>, next: nat)
    requires Executable(unit) && forall w: nat :: Written(unit, |unit.gates|, w) ==> w in at
    requires forall w :: w in at ==> at[w] < next
    requires Mirrors(c, at, ExecTo(c, unit.gates, |unit.gates|, Seed(args)), dense)
    ensures forall j :: 0 <= j < |unit.outputs| ==> unit.outputs[j] in at && at[unit.outputs[j]] < next
    ensures forall j :: 0 <= j < |unit.outputs| ==> Read(c, dense, at[unit.outputs[j]]) == Eval(c, unit, args)[j]
  {
  }

  lemma StartHolds<W>(c: Context<W>, plan: Plan, inputs: seq<W>)
    requires Shaped(plan)
    ensures Flattening(c, plan, 0, Start(plan), Seed(inputs), inputs)
  {
  }

  lemma FlattenHolds<W>(c: Context<W>, plan: Plan, n: nat, inputs: seq<W>)
    requires WellFormed(plan) && n <= |plan.events|
    ensures Flattening(c, plan, n, FlattenTo(plan, n), PlanExec(c, plan, n, Seed(inputs)), inputs)
  {
    StartHolds(c, plan, inputs);
    for i := 0 to n
      invariant Flattening(c, plan, i, FlattenTo(plan, i), PlanExec(c, plan, i, Seed(inputs)), inputs)
    {
      assert EventReadsDefined(plan, i);
      EventHolds(c, plan, i + 1, FlattenTo(plan, i), PlanExec(c, plan, i, Seed(inputs)),
                 FlattenTo(plan, i + 1), PlanExec(c, plan, i + 1, Seed(inputs)), inputs);
    }
  }

  lemma EventHolds<W>(c: Context<W>, plan: Plan, n: nat, s: Flat, source: Store<W>, s': Flat, source': Store<W>,
                      inputs: seq<W>)
    requires Shaped(plan) && 1 <= n <= |plan.events| && EventReadsDefined(plan, n - 1)
    requires Flattening(c, plan, n - 1, s, source, inputs)
    requires s' == FlattenEvent(plan, s, plan.events[n - 1]) &&
             source' == EventMeaning(c, plan, plan.events[n - 1], source)
    ensures Flattening(c, plan, n, s', source', inputs)
  {
    if plan.events[n - 1].Glue? {
      GlueHolds(c, plan, n, s, source, s', source', inputs);
    } else {
      CallHolds(c, plan, n, s, source, s', source', inputs);
    }
  }

  /** The flat program computes what the hierarchy computes, in every context. */
  lemma FlattenPreservesMeaning<W>(c: Context<W>, plan: Plan, inputs: seq<W>)
    requires WellFormed(plan)
    ensures Eval(c, Flattened(plan), inputs) == PlanEval(c, plan, inputs)
  {
    FlattenHolds(c, plan, |plan.events|, inputs);
    var p, r := Eval(c, Flattened(plan), inputs), PlanEval(c, plan, inputs);
    forall k | 0 <= k < |plan.outputs|
      ensures p[k] == r[k]
    {
      assert plan.outputs[k] in plan.outputs;
    }
  }

  /** It is a valid dense program, numbered in emission order. */
  lemma FlattenIsValid(plan: Plan)
    requires WellFormed(plan)
    ensures Valid(Flattened(plan)) && Emission(Flattened(plan))
  {
    FlattenHolds(Clear(), plan, |plan.events|, []);
    var p := Flattened(plan);
    forall i | 0 <= i < |p.gates|
      ensures GateOk(p, i)
    {
      forall w: nat | p.gates[i].Reads(w)
        ensures Written(p, i, w)
      {
        EmissionWritten(p, i, w);
      }
    }
    forall k | 0 <= k < |p.outputs|
      ensures p.outputs[k] < p.numWires && Written(p, |p.gates|, p.outputs[k])
    {
      assert plan.outputs[k] in plan.outputs;
      EmissionWritten(p, |p.gates|, p.outputs[k]);
    }
  }

  lemma EmissionWritten(p: BooleanProgram, i: nat, w: nat)
    requires Emission(p) && i <= |p.gates| && w < p.numInputs + i
    ensures Written(p, i, w)
  {
    if w >= p.numInputs {
      assert p.gates[w - p.numInputs].out == w;
    }
  }

  // ---- flatten_compose ----

  method InlineUnit(base: nat, inst: Instance, gates: seq<Gate>, cmap: Remap) returns (d: seq<Gate>, cmap': Remap)
    requires |inst.inIds| == inst.unit.numInputs && |inst.outIds| == |inst.unit.outputs|
    ensures
      var u := Inline(base, Flat(gates, Alias(inst, cmap)), inst.unit.gates, |inst.unit.gates|);
      d == u.gates && cmap' == Export(cmap, inst, u.at, |inst.outIds|)
  {
    d, cmap' := gates, cmap;
    var umap: Remap := map[];
    for j := 0 to inst.unit.numInputs
      invariant forall w: nat :: w in umap <==> w < j
      invariant forall w: nat :: w < j ==> umap[w] == FlushPlan.Look(cmap, inst.inIds[w])
    {
      umap := umap[j := FlushPlan.Look(cmap, inst.inIds[j])];
    }
    assert umap == Alias(inst, cmap);
    ghost var start := Flat(gates, umap);
    for i := 0 to |inst.unit.gates|
      invariant Flat(d, umap) == Inline(base, start, inst.unit.gates, i)
    {
      var g := inst.unit.gates[i];
      var out := base + |d|;
      d, umap := d + [FlushPlan.Renumber(g, umap, out)], umap[g.out := out];
    }
    for k := 0 to |inst.unit.outputs|
      invariant cmap' == Export(cmap, inst, umap, k)
    {
      cmap' := cmap'[inst.outIds[k] := FlushPlan.Look(umap, inst.unit.outputs[k])];
    }
  }

  /** Inlines every call; the closing validation accepts the result. */
  method FlattenCompose(plan: Plan) returns (d: BooleanProgram)
    requires WellFormed(plan)
    ensures d == Flattened(plan) && Valid(d) && Emission(d)
    ensures forall inputs: seq<bool> :: Eval(Clear(), d, inputs) == PlanEval(Clear(), plan, inputs)
  {
    var gates: seq<Gate> := [];
    var cmap: Remap := map[];
    for w := 0 to plan.numInputs
      invariant cmap == Identity(w)
    {
      cmap := cmap[w := w];
    }
    for n := 0 to |plan.events|
      invariant Flat(gates, cmap) == FlattenTo(plan, n)
    {
      match plan.events[n] {
        case Glue(g) =>
          var out := plan.numInputs + |gates|;
          gates, cmap := gates + [FlushPlan.Renumber(g, cmap, out)], cmap[g.out := out];
        case Call(i) =>
          assert EventShaped(plan, plan.events[n]);
          gates, cmap := InlineUnit(plan.numInputs, plan.instances[i], gates, cmap);
      }
    }
    var outputs := [];
    for k := 0 to |plan.outputs|
      invariant |outputs| == k && forall j :: 0 <= j < k ==> outputs[j] == FlushPlan.Look(cmap, plan.outputs[j])
    {
      outputs := outputs + [FlushPlan.Look(cmap, plan.outputs[k])];
    }
    d := BooleanProgram(plan.numInputs + |gates|, plan.numInputs, Dense, gates, outputs);
    assert d == Flattened(plan);
    FlattenIsValid(plan);
    var ok := ValidateProgram(d);
    assert ok;
    forall inputs: seq<bool>
      ensures Eval(Clear(), d, inputs) == PlanEval(Clear(), plan, inputs)
    {
      FlattenPreservesMeaning(Clear(), plan, inputs);
    }
  }

  // ---- ComposeCtx ----

  const UINT32_MAX: nat := 0xFFFF_FFFF

  /** Everything handed out so far is defined, and every event reads only such ids. */
  ghost predicate Recording(plan: Plan) {
    && WellFormed(plan)
    && (forall w: nat :: w < plan.numWires ==> Defined(plan, |plan.events|, w))
  }

  lemma DefinedStays(plan: Plan, plan': Plan, n: nat, w: nat)
    requires Shaped(plan) && Shaped(plan') && n <= |plan.events| <= |plan'.events|
    requires plan.numInputs == plan'.numInputs && plan.instances <= plan'.instances && plan.events <= plan'.events
    ensures Defined(plan', n, w) <==> Defined(plan, n, w)
  {
    forall j | 0 <= j < n
      ensures Defines(plan', plan'.events[j], w) <==> Defines(plan, plan.events[j], w)
    {
      assert plan.events[j] == plan'.events[j] && EventShaped(plan, plan.events[j]);
    }
  }

  /** Appending an event that reads defined ids and defines the new ones. */
  lemma RecordingNext(plan: Plan, plan': Plan)
    requires Recording(plan) && Shaped(plan') && plan'.outputs == plan.outputs
    requires plan.numInputs == plan'.numInputs && plan.instances <= plan'.instances
    requires |plan'.events| == |plan.events| + 1 && plan.events <= plan'.events
    requires EventReadsDefined(plan', |plan.events|)
    requires forall w: nat :: plan.numWires <= w < plan'.numWires ==> Defines(plan', plan'.events[|plan.events|], w)
    ensures Recording(plan')
  {
    var n := |plan.events|;
    forall k | 0 <= k < n
      ensures EventReadsDefined(plan', k)
    {
      assert EventReadsDefined(plan, k) && plan.events[k] == plan'.events[k] && EventShaped(plan, plan.events[k]);
      forall w: nat | Defined(plan, k, w)
        ensures Defined(plan', k, w)
      {
        DefinedStays(plan, plan', k, w);
      }
    }
    forall w: nat | w < plan'.numWires || w in plan'.outputs
      ensures Defined(plan', n + 1, w)
    {
      DefinedNext(plan', n, w);
      DefinedStays(plan, plan', n, w);
    }
  }

  /** The recording context. Operands are ids it has handed out; every operation is None, without
      effect, when the ids run out. */
  class ComposeCtx {
    var events: seq<Event>
    var instances: seq<Instance>
    var nextId: nat
    var numInputs: nat
    var c0: Option<nat>
    var c1: Option<nat>
    var inputsClosed: bool

    ghost function Recorded(): Plan
      reads this
    {
      Plan(numInputs, nextId, events, instances, [])
    }

    ghost predicate Valid()
      reads this
    {
      && Recording(Recorded())
      && (!inputsClosed ==> events == [] && instances == [] && nextId == numInputs)
      && (c0.Some? ==> c0.value < nextId) && (c1.Some? ==> c1.value < nextId)
    }

    constructor ()
      ensures Valid() && Recorded() == Plan(0, 0, [], [], [])
    {
      events, instances, nextId, numInputs, inputsClosed := [], [], 0, 0, false;
      c0, c1 := None, None;
    }

    /** Inputs come before any gate or call. */
    method ExternalInput(n: nat) returns (w: Option<nat>)
      requires Valid()
      modifies this
      ensures Valid() && c0 == old(c0) && c1 == old(c1)
      ensures w == if old(inputsClosed) || n == 0 || n > UINT32_MAX - old(nextId) then None else Some(old(nextId))
      ensures Recorded() == if w.None? then old(Recorded()) else Plan(old(numInputs) + n, old(nextId) + n, [], [], [])
    {
      if inputsClosed || n == 0 || n > UINT32_MAX - nextId {
        return None;
      }
      w := Some(nextId);
      nextId, numInputs := nextId + n, numInputs + n;
    }

    /** A glue gate on a fresh id. */
    method Emit(in0: nat, in1: nat, op: Op) returns (w: Option<nat>)
      requires Valid() && forall x: nat :: Gate(in0, in1, nextId, op).Reads(x) ==> x < nextId
      modifies this
      ensures Valid() && c0 == old(c0) && c1 == old(c1)
      ensures w == if old(nextId) >= UINT32_MAX then None else Some(old(nextId))
      ensures Recorded() == if w.None? then old(Recorded())
                            else old(Recorded()).(numWires := old(nextId) + 1,
                                                  events := old(events) + [Glue(Gate(in0, in1, old(nextId), op))])
    {
      if nextId >= UINT32_MAX {
        return None;
      }
      ghost var before := Recorded();
      var g := Gate(in0, in1, nextId, op);
      w := Some(nextId);
      inputsClosed := true;
      events, nextId := events + [Glue(g)], nextId + 1;
      ghost var after := Recorded();
      GlueRecorded(before, after, g);
    }

    /** Both constants are recorded once and then shared. */
    method PublicBit(v: bool) returns (w: Option<nat>)
      requires Valid()
      modifies this
      ensures Valid()
      ensures w.Some? ==> w.value < nextId && w == if v then c1 else c0
      ensures if v then c0 == old(c0) else c1 == old(c1)
      ensures old(if v then c1 else c0).Some? ==> w == old(if v then c1 else c0) && Recorded() == old(Recorded())
      ensures old(if v then c1 else c0).None? && w.Some? ==>
        w == Some(old(nextId)) && Recorded() == old(Recorded()).(numWires := old(nextId) + 1,
          events := old(events) + [Glue(Gate(0, 0, old(nextId), if v then Const1 else Const0))])
      ensures w.None? ==> old(nextId) >= UINT32_MAX && Recorded() == old(Recorded())
    {
      w := if v then c1 else c0;
      if w.None? {
        w := Emit(0, 0, if v then Const1 else Const0);
        if w.Some? {
          if v {
            c1 := w;
          } else {
            c0 := w;
          }
        }
      }
    }

    /** Records a call: the unit's gates are not walked, its outputs get fresh ids. */
    method CallUnit(unit: BooleanProgram, input: seq<nat>) returns (outs: Option<seq<nat>>)
      requires Valid() && Executable(unit) && forall x :: x in input ==> x < nextId
      modifies this
      ensures Valid() && c0 == old(c0) && c1 == old(c1)
      ensures outs.Some? <==> |input| == unit.numInputs && old(nextId) + |unit.outputs| <= UINT32_MAX
      ensures outs.Some? ==>
        outs.value == seq(|unit.outputs|, k => old(nextId) + k)
        && Recorded() == Plan(old(numInputs), old(nextId) + |unit.outputs|, old(events) + [Call(|old(instances)|)],
                              old(instances) + [Instance(unit, input, outs.value)], [])
      ensures outs.None? ==> Recorded() == old(Recorded())
    {
      if |input| != unit.numInputs || nextId + |unit.outputs| > UINT32_MAX {
        return None;
      }
      ghost var before := Recorded();
      var base := nextId;
      var ids := seq(|unit.outputs|, k => base + k);
      var inst := Instance(unit, input, ids);
      inputsClosed := true;
      events := events + [Call(|instances|)];
      instances := instances + [inst];
      nextId := nextId + |unit.outputs|;
      CallRecorded(before, Recorded(), inst);
      return Some(ids);
    }

    method Finish(outputs: seq<nat>) returns (plan: Plan)
      requires Valid() && forall x :: x in outputs ==> x < nextId
      ensures plan == Recorded().(outputs := outputs) && WellFormed(plan)
    {
      plan := Plan(numInputs, nextId, events, instances, outputs);
      ghost var p := Recorded();
      forall n | 0 <= n < |plan.events|
        ensures EventShaped(plan, plan.events[n])
      {
        assert EventShaped(p, p.events[n]);
      }
      OutputsChosen(p, plan);
    }
  }

  lemma OutputsChosen(p: Plan, plan: Plan)
    requires Recording(p) && plan == p.(outputs := plan.outputs) && Shaped(plan)
    requires forall x :: x in plan.outputs ==> x < p.numWires
    ensures WellFormed(plan)
  {
    forall n | 0 <= n < |plan.events|
      ensures EventReadsDefined(plan, n)
    {
      assert EventReadsDefined(p, n) && EventShaped(p, p.events[n]);
      forall w: nat | Defined(p, n, w)
        ensures Defined(plan, n, w)
      {
        DefinedStays(p, plan, n, w);
      }
    }
    forall w | w in plan.outputs
      ensures Defined(plan, |plan.events|, w)
    {
      DefinedStays(p, plan, |plan.events|, w);
    }
  }

  lemma ShapedNext(p: Plan, p': Plan)
    requires Shaped(p) && p.instances <= p'.instances && |p'.events| == |p.events| + 1 && p.events <= p'.events
    requires EventShaped(p', p'.events[|p.events|])
    ensures Shaped(p')
  {
    forall n | 0 <= n < |p'.events|
      ensures EventShaped(p', p'.events[n])
    {
      if n < |p.events| {
        assert EventShaped(p, p.events[n]) && p'.events[n] == p.events[n];
      }
    }
  }

  lemma GlueRecorded(p: Plan, p': Plan, g: Gate)
    requires Recording(p) && g.out == p.numWires && forall w: nat :: g.Reads(w) ==> w < p.numWires
    requires p' == p.(numWires := p.numWires + 1, events := p.events + [Glue(g)])
    ensures Recording(p')
  {
    ShapedNext(p, p');
    forall w: nat | g.Reads(w)
      ensures Defined(p', |p.events|, w)
    {
      DefinedStays(p, p', |p.events|, w);
    }
    RecordingNext(p, p');
  }

  lemma CallRecorded(p: Plan, p': Plan, inst: Instance)
    requires Recording(p) && Executable(inst.unit) && |inst.inIds| == inst.unit.numInputs &&
             |inst.outIds| == |inst.unit.outputs|
    requires forall w :: w in inst.inIds ==> w < p.numWires
    requires forall k :: 0 <= k < |inst.outIds| ==> inst.outIds[k] == p.numWires + k
    requires p'
         == p.(numWires := p.numWires + |inst.outIds|, events := p.events + [Call(|p.instances|)],
               instances := p.instances + [inst])
    ensures Recording(p')
  {
    ShapedNext(p, p');
    forall w | w in inst.inIds
      ensures Defined(p', |p.events|, w)
    {
      DefinedStays(p, p', |p.events|, w);
    }
    forall w: nat | p.numWires <= w < p'.numWires
      ensures Defines(p', p'.events[|p.events|], w)
    {
      assert inst.outIds[w - p.numWires] == w;
    }
    RecordingNext(p, p');
  }
}
