/** The loops of emp-tool/ir/session/flush_plan.h, proved to produce the plan of module
    FlushPlan. */
module PlanFlush {
  import opened Program
  import opened FlushPlan

  /** Any set of gates that holds the kept ones and is closed under operands holds every
      needed gate. */
  lemma {:induction false} NeededIsLeast(gates: seq<Gate>, keep: seq<nat>, marked: seq<bool>, gi: nat)
    requires |marked| == |gates| && gi < |gates| && Needed(gates, keep, gi)
    requires forall i :: 0 <= i < |gates| && gates[i].out in keep ==> marked[i]
    requires forall i, j :: 0 <= i < j < |gates| && marked[j] && gates[j].Reads(gates[i].out) ==> marked[i]
    ensures marked[gi]
    decreases |gates| - gi
  {
    if gates[gi].out !in keep {
      var gj :| gi < gj < |gates| && gates[gj].Reads(gates[gi].out) && Needed(gates, keep, gj);
      NeededIsLeast(gates, keep, marked, gj);
    }
  }

  ghost function Unmarked(marked: seq<bool>): set<nat> {
    set i | 0 <= i < |marked| && !marked[i]
  }

  ghost predicate IndexOf(gates: seq<Gate>, wireToGate: map<nat, nat>) {
    && (forall gi :: 0 <= gi < |gates| ==> gates[gi].out in wireToGate && wireToGate[gates[gi].out] == gi)
    && (forall w :: w in wireToGate ==> wireToGate[w] < |gates| && gates[wireToGate[w]].out == w)
  }

  method IndexGates(gates: seq<Gate>) returns (wireToGate: map<nat, nat>)
    requires Recorded(gates)
    ensures IndexOf(gates, wireToGate)
  {
    wireToGate := map[];
    for gi := 0 to |gates|
      invariant forall i :: 0 <= i < gi ==> gates[i].out in wireToGate && wireToGate[gates[i].out] == i
      invariant forall w :: w in wireToGate ==> wireToGate[w] < gi && gates[wireToGate[w]].out == w
    {
      wireToGate := wireToGate[gates[gi].out := gi];
    }
  }

  /** What a gate reads, in push order. */
  function Operands(g: Gate): (r: seq<nat>)
    ensures forall w: nat :: w in r <==> g.Reads(w)
  {
    if g.IsConst() then [] else if g.IsNot() then [g.in0] else [g.in0, g.in1]
  }

  /** Marked gates and stacked ids are needed; what a kept id or a marked gate demands is marked
      or stacked. */
  ghost predicate Frontier(gates: seq<Gate>, keep: seq<nat>, wireToGate: map<nat, nat>, needed: seq<bool>,
                           stack: seq<nat>)
    requires IndexOf(gates, wireToGate) && |needed| == |gates|
  {
    && (forall gi :: 0 <= gi < |gates| && needed[gi] ==> Needed(gates, keep, gi))
    && (forall w :: w in stack && w in wireToGate ==> Needed(gates, keep, wireToGate[w]))
    && (forall w :: w in keep && w in wireToGate ==> w in stack || needed[wireToGate[w]])
    && (forall gi, w: nat :: 0 <= gi < |gates| && needed[gi] && gates[gi].Reads(w) && w in wireToGate ==>
          w in stack || needed[wireToGate[w]])
  }

  lemma FrontierSkip(gates: seq<Gate>, keep: seq<nat>, wireToGate: map<nat, nat>, needed: seq<bool>, rest: seq<nat>,
                     w: nat)
    requires IndexOf(gates, wireToGate) && |needed| == |gates| && Frontier(gates, keep, wireToGate, needed, rest + [w])
    requires w !in wireToGate || needed[wireToGate[w]]
    ensures Frontier(gates, keep, wireToGate, needed, rest)
  {
  }

  lemma FrontierMark(gates: seq<Gate>, keep: seq<nat>, wireToGate: map<nat, nat>, needed: seq<bool>, rest: seq<nat>,
                     w: nat)
    requires Recorded(gates) && IndexOf(gates, wireToGate) && |needed| == |gates|
    requires Frontier(gates, keep, wireToGate, needed, rest + [w]) && w in wireToGate
    ensures Frontier(gates, keep, wireToGate, needed[wireToGate[w] := true], rest + Operands(gates[wireToGate[w]]))
  {
    var gi := wireToGate[w];
    var more := Operands(gates[gi]);
    assert w in rest + [w];
    forall v | v in more && v in wireToGate ensures Needed(gates, keep, wireToGate[v]) {
      OperandNeeded(gates, keep, wireToGate, gi, v);
    }
    forall v | v in rest ensures v in rest + [w] {
    }
  }

  /** Worklist reachability from the kept ids. It terminates and marks exactly the needed gates. */
  method MarkNeeded(gates: seq<Gate>, keep: seq<nat>, wireToGate: map<nat, nat>) returns (needed: seq<bool>)
    requires Recorded(gates) && IndexOf(gates, wireToGate)
    ensures |needed| == |gates|
    ensures forall gi :: 0 <= gi < |gates| ==> (needed[gi] <==> Needed(gates, keep, gi))
  {
    needed := seq(|gates|, _ => false);
    var stack: seq<nat> := [];
    for k := 0 to |keep|
      invariant forall w :: w in stack ==> w in keep && w in wireToGate
      invariant forall i :: 0 <= i < k && keep[i] in wireToGate ==> keep[i] in stack
    {
      if keep[k] in wireToGate { stack := stack + [keep[k]]; }
    }
    while stack != []
      invariant |needed| == |gates| && Frontier(gates, keep, wireToGate, needed, stack)
      decreases |Unmarked(needed)|, |stack|
    {
      var w := stack[|stack| - 1];
      var rest := stack[..|stack| - 1];
      assert stack == rest + [w];
      if w in wireToGate && !needed[wireToGate[w]] {
        var gi := wireToGate[w];
        FrontierMark(gates, keep, wireToGate, needed, rest, w);
        assert Unmarked(needed[gi := true]) == Unmarked(needed) - {gi};
        needed := needed[gi := true];
        stack := rest + Operands(gates[gi]);
      } else {
        FrontierSkip(gates, keep, wireToGate, needed, rest, w);
        stack := rest;
      }
    }
    forall gi | 0 <= gi < |gates| && Needed(gates, keep, gi) ensures needed[gi] {
      NeededIsLeast(gates, keep, needed, gi);
    }
  }

  lemma OperandNeeded(gates: seq<Gate>, keep: seq<nat>, wireToGate: map<nat, nat>, gi: nat, w: nat)
    requires Recorded(gates) && IndexOf(gates, wireToGate) && gi < |gates| && Needed(gates, keep, gi) &&
             gates[gi].Reads(w)
    ensures w in wireToGate ==> Needed(gates, keep, wireToGate[w])
  {
    if w in wireToGate {
      var gj := wireToGate[w];
      assert gates[gj].out < gates[gi].out;
      assert gj < gi;
    }
  }

  /** note_input: v becomes an input if it is neither local nor noted, and materialized. */
  function Note(wireToGate: map<nat, nat>, mat: set<nat>, ids: seq<nat>, v: nat): seq<nat> {
    if v in wireToGate || v in ids || v !in mat then ids else ids + [v]
  }

  predicate Fresh(wireToGate: map<nat, nat>, mat: set<nat>, v: nat) {
    v in wireToGate || v in mat
  }

  /** Among the first n gates, v is read by a marked gate before any marked gate reads w, or as the first
      operand of the gate that reads w first. */
  ghost predicate SeenBefore(gates: seq<Gate>, needed: seq<bool>, n: nat, v: nat, w: nat)
    requires |needed| == |gates| && n <= |gates|
  {
    exists i :: 0 <= i < n && needed[i] && gates[i].Reads(v)
      && (gates[i].Reads(w) ==> gates[i].in0 == v)
      && forall j :: 0 <= j < i && needed[j] ==> !gates[j].Reads(w)
  }

  ghost predicate FirstSeen(gates: seq<Gate>, needed: seq<bool>, n: nat, ids: seq<nat>)
    requires |needed| == |gates| && n <= |gates|
  {
    forall i, j :: 0 <= i < j < |ids| ==> SeenBefore(gates, needed, n, ids[i], ids[j])
  }

  /** What one gate appends comes after what was there, first operand first. */
  lemma FirstSeenNext(gates: seq<Gate>, needed: seq<bool>, n: nat, ids: seq<nat>, more: seq<nat>)
    requires |needed| == |gates| && n < |gates| && FirstSeen(gates, needed, n, ids)
    requires forall w :: w in ids ==> exists i :: 0 <= i < n && needed[i] && gates[i].Reads(w)
    requires more != [] ==> needed[n]
    requires forall w :: w in more ==> gates[n].Reads(w) && forall i :: 0 <= i < n && needed[i] ==> !gates[i].Reads(w)
    requires |more| <= 1 || (|more| == 2 && more[0] == gates[n].in0)
    ensures FirstSeen(gates, needed, n + 1, ids + more)
  {
    var all := ids + more;
    forall i, j | 0 <= i < j < |all|
      ensures SeenBefore(gates, needed, n + 1, all[i], all[j])
    {
      if j < |ids| {
        assert SeenBefore(gates, needed, n, ids[i], ids[j]);
      } else {
        assert all[j] in more;
        if i < |ids| {
          assert all[i] in ids;
        } else {
          assert all[i] in more;
        }
      }
    }
  }

  /** The operands of one gate, noted in order. */
  function NoteGate(wireToGate: map<nat, nat>, mat: set<nat>, ids: seq<nat>, g: Gate): seq<nat> {
    if g.IsConst() then ids
    else
      var one := Note(wireToGate, mat, ids, g.in0);
      if g.IsNot() then one else Note(wireToGate, mat, one, g.in1)
  }

  ghost predicate Distinct(ids: seq<nat>) {
    forall i, j :: 0 <= i < j < |ids| ==> ids[i] != ids[j]
  }

  lemma NoteGateFacts(wireToGate: map<nat, nat>, mat: set<nat>, ids: seq<nat>, g: Gate) returns (more: seq<nat>)
    ensures NoteGate(wireToGate, mat, ids, g) == ids + more
    ensures forall w :: w in more <==> g.Reads(w) && w !in wireToGate && w in mat && w !in ids
    ensures |more| <= 1 || (|more| == 2 && more[0] == g.in0 && more[1] != g.in0)
  {
    var one := Note(wireToGate, mat, ids, g.in0);
    if g.IsConst() {
      more := [];
    } else if g.IsNot() || Note(wireToGate, mat, one, g.in1) == one {
      more := if one == ids then [] else [g.in0];
    } else {
      more := if one == ids then [g.in1] else [g.in0, g.in1];
    }
  }

  /** What has been met in the first n gates. */
  ghost predicate Collected(gates: seq<Gate>, needed: seq<bool>, wireToGate: map<nat, nat>, mat: set<nat>, n: nat,
                            ids: seq<nat>)
    requires |needed| == |gates| && n <= |gates|
  {
    && (forall w :: w in ids <==> w !in wireToGate && w in mat && ReadBy(gates, needed, n, w))
    && Distinct(ids) && FirstSeen(gates, needed, n, ids)
  }

  ghost predicate ReadBy(gates: seq<Gate>, needed: seq<bool>, n: nat, w: nat)
    requires |needed| == |gates| && n <= |gates|
  {
    exists gi :: 0 <= gi < n && needed[gi] && gates[gi].Reads(w)
  }

  lemma ReadByNext(gates: seq<Gate>, needed: seq<bool>, n: nat, w: nat)
    requires |needed| == |gates| && n < |gates|
    ensures ReadBy(gates, needed, n + 1, w) <==> ReadBy(gates, needed, n, w) || (needed[n] && gates[n].Reads(w))
  {
  }

  lemma FirstSeenSkip(gates: seq<Gate>, needed: seq<bool>, n: nat, ids: seq<nat>)
    requires |needed| == |gates| && n < |gates| && FirstSeen(gates, needed, n, ids)
    ensures FirstSeen(gates, needed, n + 1, ids)
  {
    forall i, j | 0 <= i < j < |ids| ensures SeenBefore(gates, needed, n + 1, ids[i], ids[j]) {
      assert SeenBefore(gates, needed, n, ids[i], ids[j]);
    }
  }

  lemma CollectedNext(gates: seq<Gate>, needed: seq<bool>, wireToGate: map<nat, nat>, mat: set<nat>, n: nat,
                      ids: seq<nat>)
    requires |needed| == |gates| && n < |gates| && Collected(gates, needed, wireToGate, mat, n, ids)
    ensures Collected(gates, needed, wireToGate, mat, n + 1,
                      if needed[n] then NoteGate(wireToGate, mat, ids, gates[n]) else ids)
  {
    forall w: nat
      ensures ReadBy(gates, needed, n + 1, w) <==> ReadBy(gates, needed, n, w) || (needed[n] && gates[n].Reads(w))
    {
      ReadByNext(gates, needed, n, w);
    }
    if needed[n] {
      var more := NoteGateFacts(wireToGate, mat, ids, gates[n]);
      AllDistinct(ids, more);
      forall w | w in more ensures forall i :: 0 <= i < n && needed[i] ==> !gates[i].Reads(w) {
        assert !ReadBy(gates, needed, n, w);
      }
      FirstSeenNext(gates, needed, n, ids, more);
    } else {
      FirstSeenSkip(gates, needed, n, ids);
    }
  }

  lemma AllDistinct(ids: seq<nat>, more: seq<nat>)
    requires Distinct(ids) && Distinct(more) && forall w :: w in more ==> w !in ids
    ensures Distinct(ids + more)
  {
    var all := ids + more;
    forall i, j | 0 <= i < j < |all| ensures all[i] != all[j] {
      if i < |ids| <= j {
        assert all[i] in ids && all[j] in more;
      }
    }
  }

  /** Inputs in first-seen order, and whether anything stale was met. */
  method CollectInputs(gates: seq<Gate>, needed: seq<bool>, wireToGate: map<nat, nat>, mat: set<nat>)
      returns (inputIds: seq<nat>, ok: bool)
    requires |needed| == |gates|
    ensures ok <==>
        forall gi, w: nat :: 0 <= gi < |gates| && needed[gi] && gates[gi].Reads(w) ==> Fresh(wireToGate, mat, w)
    ensures forall w :: w in inputIds <==>
              w !in wireToGate && w in mat && exists gi :: 0 <= gi < |gates| && needed[gi] && gates[gi].Reads(w)
    ensures forall i, j :: 0 <= i < j < |inputIds| ==> inputIds[i] != inputIds[j]
    ensures FirstSeen(gates, needed, |gates|, inputIds)
  {
    inputIds, ok := [], true;
    for gi := 0 to |gates|
      invariant ok <==> forall i, w: nat :: 0 <= i < gi && needed[i] && gates[i].Reads(w) ==> Fresh(wireToGate, mat, w)
      invariant Collected(gates, needed, wireToGate, mat, gi, inputIds)
    {
      CollectedNext(gates, needed, wireToGate, mat, gi, inputIds);
      if needed[gi] {
        inputIds := NoteGate(wireToGate, mat, inputIds, gates[gi]);
        ok := ok && ReadsFresh(wireToGate, mat, gates[gi]);
      }
    }
  }

  function ReadsFresh(wireToGate: map<nat, nat>, mat: set<nat>, g: Gate): (r: bool)
    ensures r <==> forall w: nat :: g.Reads(w) ==> Fresh(wireToGate, mat, w)
  {
    assert !g.IsConst() ==> g.Reads(g.in0);
    assert !g.IsConst() && !g.IsNot() ==> g.Reads(g.in1);
    g.IsConst() || (Fresh(wireToGate, mat, g.in0) && (g.IsNot() || Fresh(wireToGate, mat, g.in1)))
  }

  /** Number the inputs, then emit the needed gates in order. */
  method EmitGates(gates: seq<Gate>, ghost need: set<nat>, needed: seq<bool>, inputIds: seq<nat>)
      returns (prog: seq<Gate>, remap: Remap)
    requires Recorded(gates) && |needed| == |gates|
    requires forall gi :: 0 <= gi < |gates| ==> (needed[gi] <==> gi in need)
    requires forall i, j :: 0 <= i < j < |inputIds| ==> inputIds[i] != inputIds[j]
    requires forall k :: 0 <= k < |inputIds| ==> !Local(gates, inputIds[k])
    ensures Numbered(gates, need, inputIds, remap)
    ensures Emitted(gates, need, inputIds, remap, prog)
  {
    remap := NumberInputs(inputIds);
    prog := [];
    for gi := 0 to |gates|
      invariant NumberedTo(gates, need, inputIds, remap, gi) && EmittedTo(gates, need, inputIds, remap, gi, prog)
    {
      if needed[gi] {
        prog, remap := EmitGate(gates, need, inputIds, gi, prog, remap);
      } else {
        SkipNext(gates, need, inputIds, remap, gi, prog);
      }
    }
  }

  /** The next needed gate gets the next number, |inputIds| + |prog|. */
  method EmitGate(gates: seq<Gate>, ghost need: set<nat>, inputIds: seq<nat>, gi: nat, prog: seq<Gate>, remap: Remap)
      returns (prog': seq<Gate>, remap': Remap)
    requires Recorded(gates) && gi < |gates| && gi in need
    requires forall k :: 0 <= k < |inputIds| ==> !Local(gates, inputIds[k])
    requires NumberedTo(gates, need, inputIds, remap, gi) && EmittedTo(gates, need, inputIds, remap, gi, prog)
    ensures NumberedTo(gates, need, inputIds, remap', gi + 1) && EmittedTo(gates, need, inputIds, remap', gi + 1, prog')
  {
    var outC := |inputIds| + |prog|;
    EmitNext(gates, need, inputIds, remap, gi, prog);
    remap' := remap[gates[gi].out := outC];
    prog' := prog + [Renumber(gates[gi], remap', outC)];
  }

  lemma SkipNext(gates: seq<Gate>, need: set<nat>, inputIds: seq<nat>, remap: Remap, gi: nat, prog: seq<Gate>)
    requires gi < |gates| && gi !in need
    requires NumberedTo(gates, need, inputIds, remap, gi) && EmittedTo(gates, need, inputIds, remap, gi, prog)
    ensures NumberedTo(gates, need, inputIds, remap, gi + 1) && EmittedTo(gates, need, inputIds, remap, gi + 1, prog)
  {
    assert InOrder(need, gi + 1) == InOrder(need, gi);
  }

  method NumberInputs(inputIds: seq<nat>) returns (remap: Remap)
    requires forall i, j :: 0 <= i < j < |inputIds| ==> inputIds[i] != inputIds[j]
    ensures forall i :: 0 <= i < |inputIds| ==> Look(remap, inputIds[i]) == i
  {
    remap := map[];
    for k := 0 to |inputIds|
      invariant forall i :: 0 <= i < k ==> Look(remap, inputIds[i]) == i
    {
      remap := remap[inputIds[k] := k];
    }
  }

  /** Inputs and the needed gates before gi have their numbers. */
  ghost predicate NumberedTo(gates: seq<Gate>, need: set<nat>, inputIds: seq<nat>, remap: Remap, gi: nat)
    requires gi <= |gates|
  {
    && (forall k :: 0 <= k < |inputIds| ==> Look(remap, inputIds[k]) == k)
    && (forall i :: 0 <= i < gi && i in need ==> Look(remap, gates[i].out) == |inputIds| + |InOrder(need, i)|)
  }

  /** And are emitted. */
  ghost predicate EmittedTo(gates: seq<Gate>, need: set<nat>, inputIds: seq<nat>, remap: Remap, gi: nat,
                            prog: seq<Gate>)
    requires gi <= |gates|
  {
    && |prog| == |InOrder(need, gi)|
    && (forall j :: 0 <= j < |prog| ==>
      InOrder(need, gi)[j] < gi && prog[j] == Renumber(gates[InOrder(need, gi)[j]], remap, |inputIds| + j))
  }

  lemma EmitNext(gates: seq<Gate>, need: set<nat>, inputIds: seq<nat>, remap: Remap, gi: nat, prog: seq<Gate>)
    requires Recorded(gates) && gi < |gates| && gi in need
    requires forall k :: 0 <= k < |inputIds| ==> !Local(gates, inputIds[k])
    requires NumberedTo(gates, need, inputIds, remap, gi) && EmittedTo(gates, need, inputIds, remap, gi, prog)
    ensures
      var remap' := remap[gates[gi].out := |inputIds| + |prog|];
      && NumberedTo(gates, need, inputIds, remap', gi + 1)
      && EmittedTo(gates, need, inputIds, remap', gi + 1, prog + [Renumber(gates[gi], remap', |inputIds| + |prog|)])
  {
    assert Local(gates, gates[gi].out);
    var idx := InOrder(need, gi);
    forall j | 0 <= j < |prog|
      ensures prog[j] == Renumber(gates[idx[j]], remap[gates[gi].out := |inputIds| + |prog|], |inputIds| + j)
    {
      RenumberStable(gates, idx[j], gi, remap, |inputIds| + |prog|, |inputIds| + j);
    }
  }

  /** Numbering a later gate's output does not change how an earlier gate is emitted. */
  lemma RenumberStable(gates: seq<Gate>, i: nat, gi: nat, remap: Remap, id: nat, out: nat)
    requires Recorded(gates) && i < gi < |gates|
    ensures Renumber(gates[i], remap[gates[gi].out := id], out) == Renumber(gates[i], remap, out)
  {
    var g := gates[i];
    assert !g.IsConst() ==> g.Reads(g.in0);
    assert !g.IsConst() && !g.IsNot() ==> g.Reads(g.in1);
  }

  /** A complete plan for a recorded chunk.

      It is ok exactly when no needed gate reads a stale id. Then the program is a canonical
      dense program of exactly the needed gates, its inputs are exactly the materialized ids
      those gates read, and its outputs are the pending kept ids with the values the whole chunk
      gives them. */
  method Plan(gates: seq<Gate>, keep: seq<nat>, mat: set<nat>) returns (plan: FlushPlan, ghost remap: Remap)
    requires Recorded(gates)
    ensures plan.ok <==> !ReadsStale(gates, NeededSet(gates, keep), mat)
    ensures plan.ok ==> Planned(gates, keep, plan, remap)
    ensures plan.ok ==> Valid(plan.prog) && plan.prog.wireReuse.Dense? && Emission(plan.prog)
    ensures plan.ok ==> forall w :: w in plan.inputIds <==> ReadFrom(gates, NeededSet(gates, keep), mat, w)
    ensures plan.ok ==> forall carried: Store<bool> ::
              Eval(Clear(), plan.prog, ReadAll(Clear(), carried, plan.inputIds))
              == ReadAll(Clear(), ExecTo(Clear(), gates, |gates|, carried), PendingKeeps(gates, keep))
  {
    var wireToGate := IndexGates(gates);
    var needed := MarkNeeded(gates, keep, wireToGate);
    var inputIds, ok := CollectInputs(gates, needed, wireToGate, mat);
    ghost var need := NeededSet(gates, keep);
    InSetTerms(gates, keep, mat, wireToGate, needed, inputIds, ok);
    var prog, map' := EmitGates(gates, need, needed, inputIds);
    remap := map';
    var outputIds := EmitOutputs(gates, keep, wireToGate);
    plan := FlushPlan(BooleanProgram(|inputIds| + |prog|, |inputIds|, Dense, prog, LookAll(map', outputIds)), inputIds,
                      outputIds, ok);
    if ok {
      NothingStaleMeansClosed(gates, keep, mat, wireToGate, inputIds);
      assert Planned(gates, keep, plan, remap);
      PlanIsCanonical(gates, keep, plan, remap);
      PlanMeaning(gates, keep, plan, remap);
    }
  }

  /** What the loops established, in the terms of the specification. */
  lemma InSetTerms(gates: seq<Gate>, keep: seq<nat>, mat: set<nat>, wireToGate: map<nat, nat>, needed: seq<bool>,
                   inputIds: seq<nat>, ok: bool)
    requires IndexOf(gates, wireToGate) && |needed| == |gates|
    requires forall gi :: 0 <= gi < |gates| ==> (needed[gi] <==> Needed(gates, keep, gi))
    requires ok <==>
        forall gi, w: nat :: 0 <= gi < |gates| && needed[gi] && gates[gi].Reads(w) ==> Fresh(wireToGate, mat, w)
    requires forall w :: w in inputIds <==>
               w !in wireToGate && w in mat && exists gi :: 0 <= gi < |gates| && needed[gi] && gates[gi].Reads(w)
    ensures forall w :: w in wireToGate <==> Local(gates, w)
    ensures forall gi :: 0 <= gi < |gates| ==> (needed[gi] <==> gi in NeededSet(gates, keep))
    ensures ok <==> !ReadsStale(gates, NeededSet(gates, keep), mat)
    ensures forall w :: w in inputIds <==> ReadFrom(gates, NeededSet(gates, keep), mat, w)
  {
    var need := NeededSet(gates, keep);
    assert forall gi :: 0 <= gi < |gates| ==> (needed[gi] <==> gi in need);
    forall w ensures w in wireToGate <==> Local(gates, w) {
      if w in wireToGate {
        assert gates[wireToGate[w]].out == w;
      }
    }
    forall gi, w: nat | 0 <= gi < |gates| && gi in need && gates[gi].Reads(w) &&
      ok ensures Local(gates, w) || w in mat {
      assert Fresh(wireToGate, mat, w);
    }
    forall w ensures w in inputIds <==> ReadFrom(gates, need, mat, w) {
    }
  }

  lemma PlanMeaning(gates: seq<Gate>, keep: seq<nat>, plan: FlushPlan, remap: Remap)
    requires Recorded(gates) && Planned(gates, keep, plan, remap)
    ensures forall carried: Store<bool> ::
              Eval(Clear(), plan.prog, ReadAll(Clear(), carried, plan.inputIds))
              == ReadAll(Clear(), ExecTo(Clear(), gates, |gates|, carried), PendingKeeps(gates, keep))
  {
    forall carried: Store<bool>
      ensures Eval(Clear(), plan.prog, ReadAll(Clear(), carried, plan.inputIds))
           == ReadAll(Clear(), ExecTo(Clear(), gates, |gates|, carried), PendingKeeps(gates, keep))
    {
      PlanPreservesMeaning(Clear(), gates, keep, plan, remap, carried);
    }
  }

  /** w is materialized, not chunk-local, and read by a gate of the set. */
  ghost predicate ReadFrom(gates: seq<Gate>, need: set<nat>, mat: set<nat>, w: nat) {
    w in mat && !Local(gates, w) && exists gi :: 0 <= gi < |gates| && gi in need && gates[gi].Reads(w)
  }

  function LookAll(remap: Remap, ids: seq<nat>): (r: seq<nat>)
    ensures |r| == |ids| && forall k :: 0 <= k < |ids| ==> r[k] == Look(remap, ids[k])
  {
    seq(|ids|, k requires 0 <= k < |ids| => Look(remap, ids[k]))
  }

  method EmitOutputs(gates: seq<Gate>, keep: seq<nat>, wireToGate: map<nat, nat>) returns (outputIds: seq<nat>)
    requires forall w :: w in wireToGate <==> Local(gates, w)
    ensures outputIds == PendingKeeps(gates, keep)
  {
    outputIds := [];
    for k := 0 to |keep|
      invariant outputIds == PendingKeeps(gates, keep[..k])
    {
      assert keep[..k + 1][..k] == keep[..k];
      if keep[k] in wireToGate && keep[k] !in outputIds {
        outputIds := outputIds + [keep[k]];
      }
    }
    assert keep[..|keep|] == keep;
  }

  lemma NothingStaleMeansClosed(gates: seq<Gate>, keep: seq<nat>, mat: set<nat>, wireToGate: map<nat, nat>,
                                inputIds: seq<nat>)
    requires Recorded(gates) && IndexOf(gates, wireToGate)
    requires forall w :: w in wireToGate <==> Local(gates, w)
    requires !ReadsStale(gates, NeededSet(gates, keep), mat)
    requires forall w :: w in inputIds <==> ReadFrom(gates, NeededSet(gates, keep), mat, w)
    ensures Closed(gates, NeededSet(gates, keep), inputIds)
  {
    var need := NeededSet(gates, keep);
    forall k | 0 <= k < |inputIds| ensures !Local(gates, inputIds[k]) {
      assert inputIds[k] in inputIds;
    }
    forall gi, w: nat | gi in need && gates[gi].Reads(w)
      ensures w in inputIds || exists gj :: 0 <= gj < gi && gates[gj].out == w && gj in need
    {
      if Local(gates, w) {
        OperandNeeded(gates, keep, wireToGate, gi, w);
        var gj := wireToGate[w];
        assert gates[gj].out < gates[gi].out;
        assert gj in need && gj < gi;
      }
    }
  }
}
