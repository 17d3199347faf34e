/** AND-depth scheduling (emp-tool/ir/passes.h, emp-tool/ir/schedule.h). The depth of a wire is
    itself an evaluation of the program, in a context whose wires are levels. */
module Schedule {
  import opened Program
  import opened Wrappers
  import opened Execute
  import opened Compact

  function Max(a: nat, b: nat): nat {
    if a < b then b else a
  }

  function AndDepth(a: nat, b: nat): nat {
    1 + Max(a, b)
  }

  function NotDepth(a: nat): nat {
    a
  }

  function ConstDepth(v: bool): nat {
    0
  }

  /** And adds a level, Xor and Not keep the deepest operand's, inputs and constants are at 0. */
  function Depths(): Context<nat> {
    Context<nat>.Context(AndDepth, Max, NotDepth, ConstDepth)
  }

  /** The AND-depth at which a wire becomes available. */
  function Level(p: BooleanProgram, w: nat): nat {
    Read(Depths(), ExecTo(Depths(), p.gates, |p.gates|, map[]), w)
  }

  /** In a dense program every gate's final value is its operation on its operands' final values. */
  lemma DenseFixpoint<W>(c: Context<W>, p: BooleanProgram, m: Store<W>, i: nat)
    requires DenseProgram(p) && i < |p.gates|
    ensures var final := ExecTo(c, p.gates, |p.gates|, m);
            Read(c, final, p.gates[i].out) == GateValue(c, p.gates[i], final)
  {
    var n, g := |p.gates|, p.gates[i];
    assert GateOk(p, i);
    ExecFrame(c, p.gates, i + 1, n, m, g.out);
    forall w: nat | g.Reads(w)
      ensures Read(c, ExecTo(c, p.gates, n, m), w) == Read(c, ExecTo(c, p.gates, i, m), w)
    {
      NotRedefined(p, i, w);
      ExecFrame(c, p.gates, i, n, m, w);
    }
    assert !g.IsConst() ==> g.Reads(g.in0);
    assert !g.IsConst() && !g.IsNot() ==> g.Reads(g.in1);
    GateValueAgree(c, g, g, ExecTo(c, p.gates, i, m), ExecTo(c, p.gates, n, m));
  }

  lemma NotRedefined(p: BooleanProgram, i: nat, w: nat)
    requires DenseProgram(p) && i <= |p.gates| && Written(p, i, w)
    ensures forall j :: i <= j < |p.gates| ==> p.gates[j].out != w
  {
    forall j | i <= j < |p.gates| ensures p.gates[j].out != w {
      assert GateOk(p, j);
    }
  }

  /** Inputs keep their values. */
  lemma InputsKept<W>(c: Context<W>, p: BooleanProgram, m: Store<W>, w: nat)
    requires DenseProgram(p) && w < p.numInputs
    ensures Read(c, ExecTo(c, p.gates, |p.gates|, m), w) == Read(c, m, w)
  {
    NotRedefined(p, 0, w);
    ExecFrame(c, p.gates, 0, |p.gates|, m, w);
  }

  /** Operands are never deeper than their gate, and strictly shallower than an And. */
  lemma OperandLevel(p: BooleanProgram, i: nat, w: nat)
    requires DenseProgram(p) && i < |p.gates| && p.gates[i].Reads(w)
    ensures Level(p, w) <= Level(p, p.gates[i].out)
    ensures p.gates[i].IsAnd() ==> Level(p, w) < Level(p, p.gates[i].out)
  {
    DenseFixpoint(Depths(), p, map[], i);
  }

  /** L never falls from an operand to its gate, and rises at every And. */
  ghost predicate Rises(p: BooleanProgram, L: nat -> nat) {
    forall i, w: nat :: 0 <= i < |p.gates| && p.gates[i].Reads(w) ==>
      L(w) <= L(p.gates[i].out) && (p.gates[i].op.And? ==> L(w) < L(p.gates[i].out))
  }

  lemma GateRises(p: BooleanProgram, L: nat -> nat, i: nat, m: Store<nat>)
    requires i < |p.gates| && Rises(p, L) && Under(m, L)
    ensures GateValue(Depths(), p.gates[i], m) <= L(p.gates[i].out)
  {
    var g := p.gates[i];
    assert !g.IsConst() ==> g.Reads(g.in0);
    assert !g.IsConst() && !g.IsNot() ==> g.Reads(g.in1);
  }

  ghost predicate Under(m: Store<nat>, L: nat -> nat) {
    forall w: nat :: Read<nat>(Depths(), m, w) <= L(w)
  }

  lemma UnderNext(m: Store<nat>, L: nat -> nat, w: nat, v: nat)
    requires Under(m, L) && v <= L(w)
    ensures Under(m[w := v], L)
  {
    forall x: nat ensures Read<nat>(Depths(), m[w := v], x) <= L(x) {
      assert x != w ==> Read<nat>(Depths(), m[w := v], x) == Read<nat>(Depths(), m, x);
    }
  }

  lemma {:induction false} LeastSoFar(p: BooleanProgram, L: nat -> nat, n: nat)
    requires n <= |p.gates| && Rises(p, L)
    ensures Under(ExecTo(Depths(), p.gates, n, map[]), L)
  {
    if n > 0 {
      LeastSoFar(p, L, n - 1);
      var before := ExecTo(Depths(), p.gates, n - 1, map[]);
      GateRises(p, L, n - 1, before);
      UnderNext(before, L, p.gates[n - 1].out, GateValue(Depths(), p.gates[n - 1], before));
    }
  }

  /** The level is the least labelling that never falls and rises at every And: the AND-depth. */
  lemma LevelIsLeast(p: BooleanProgram, L: nat -> nat)
    requires Rises(p, L)
    ensures forall w: nat :: Level(p, w) <= L(w)
  {
    LeastSoFar(p, L, |p.gates|);
  }

  /** The levels themselves are such a labelling. */
  lemma LevelRises(p: BooleanProgram)
    requires DenseProgram(p)
    ensures Rises(p, w => Level(p, w))
  {
    forall i, w: nat | 0 <= i < |p.gates| && p.gates[i].Reads(w)
      ensures Level(p, w) <= Level(p, p.gates[i].out) && (p.gates[i].op.And? ==> Level(p, w) < Level(p, p.gates[i].out))
    {
      OperandLevel(p, i, w);
    }
  }

  // ---- the plan ----

  /** The positions below n that hold `lv`, ascending. */
  function Bucket(levels: seq<nat>, lv: nat, n: nat): (r: seq<nat>)
    requires n <= |levels|
    ensures forall k :: 0 <= k < |r| ==> r[k] < n && levels[r[k]] == lv
    ensures forall i, j :: 0 <= i < j < |r| ==> r[i] < r[j]
    ensures forall gi :: 0 <= gi < n && levels[gi] == lv ==> gi in r
  {
    if n == 0 then [] else Bucket(levels, lv, n - 1) + (if levels[n - 1] == lv then [n - 1] else [])
  }

  /** The level of every gate's output. */
  function Levels(p: BooleanProgram): (r: seq<nat>)
    ensures |r| == |p.gates| && forall i :: 0 <= i < |r| ==> r[i] == Level(p, p.gates[i].out)
  {
    seq(|p.gates|, i requires 0 <= i < |p.gates| => Level(p, p.gates[i].out))
  }

  datatype ScheduledPlan = ScheduledPlan(bucket: seq<seq<nat>>, depth: nat, numInputs: nat, numWires: nat,
                                         numGates: nat)

  /** Every gate in the bucket of its level, in emission order, and no level beyond the depth. */
  ghost predicate Bucketed(levels: seq<nat>, bucket: seq<seq<nat>>, depth: nat) {
    && |bucket| == depth + 1
    && (forall lv :: 0 <= lv <= depth ==> bucket[lv] == Bucket(levels, lv, |levels|))
    && (forall i :: 0 <= i < |levels| ==> levels[i] <= depth)
  }

  /** The counts the executor compares. */
  predicate SameCounts(p: BooleanProgram, plan: ScheduledPlan) {
    plan.numInputs == p.numInputs && plan.numWires == p.numWires && plan.numGates == |p.gates|
  }

  /** The plan of a program. */
  ghost predicate PlanFor(p: BooleanProgram, plan: ScheduledPlan) {
    Bucketed(Levels(p), plan.bucket, plan.depth) && SameCounts(p, plan)
  }

  /** A wire's level is settled as soon as its gate has been visited. */
  lemma LevelSettled(p: BooleanProgram, gi: nat)
    requires DenseProgram(p) && gi < |p.gates|
    ensures Read(Depths(), ExecTo(Depths(), p.gates, gi + 1, map[]), p.gates[gi].out) == Level(p, p.gates[gi].out)
  {
    NotRedefined(p, gi + 1, p.gates[gi].out);
    ExecFrame(Depths(), p.gates, gi + 1, |p.gates|, map[], p.gates[gi].out);
  }

  /** The level schedule_pass computes for one gate. */
  function GateLevel(g: Gate, wireLevel: seq<nat>): nat
    requires forall w: nat :: g.Reads(w) ==> w < |wireLevel|
  {
    assert !g.IsConst() ==> g.Reads(g.in0);
    assert !g.IsConst() && !g.IsNot() ==> g.Reads(g.in1);
    match g.op
    case Const0 => 0
    case Const1 => 0
    case Not => wireLevel[g.in0]
    case Xor => Max(wireLevel[g.in0], wireLevel[g.in1])
    case And => 1 + Max(wireLevel[g.in0], wireLevel[g.in1])
  }

  ghost predicate LevelTable(p: BooleanProgram, n: nat, wireLevel: seq<nat>)
    requires n <= |p.gates|
  {
    && |wireLevel| == p.numWires
    && forall w :: 0 <= w < p.numWires ==> wireLevel[w] == Read(Depths(), ExecTo(Depths(), p.gates, n, map[]), w)
  }

  lemma LevelTableNext(p: BooleanProgram, gi: nat, wireLevel: seq<nat>)
    requires DenseProgram(p) && gi < |p.gates| && GateOk(p, gi) && LevelTable(p, gi, wireLevel)
    ensures var lv := GateLevel(p.gates[gi], wireLevel);
            lv == Level(p, p.gates[gi].out) && LevelTable(p, gi + 1, wireLevel[p.gates[gi].out := lv])
  {
    var g, before := p.gates[gi], ExecTo(Depths(), p.gates, gi, map[]);
    assert !g.IsConst() ==> g.Reads(g.in0);
    assert !g.IsConst() && !g.IsNot() ==> g.Reads(g.in1);
    assert GateLevel(g, wireLevel) == GateValue(Depths(), g, before);
    assert ExecTo(Depths(), p.gates, gi + 1, map[]) == before[g.out := GateValue(Depths(), g, before)];
    LevelSettled(p, gi);
  }

  /** The Ands of a level, in emission order. */
  function AndBucket(p: BooleanProgram, levels: seq<nat>, lv: nat, n: nat): (r: seq<nat>)
    requires n <= |levels| == |p.gates|
    ensures forall k :: 0 <= k < |r| ==> r[k] < n && levels[r[k]] == lv && p.gates[r[k]].IsAnd()
    ensures forall i, j :: 0 <= i < j < |r| ==> r[i] < r[j]
    ensures forall gi :: 0 <= gi < n && levels[gi] == lv && p.gates[gi].IsAnd() ==> gi in r
  {
    if n == 0 then []
    else AndBucket(p, levels, lv, n - 1) + (if levels[n - 1] == lv && p.gates[n - 1].IsAnd() then [n - 1] else [])
  }

  /** The And index lists of schedule_pass. */
  method AndLists(p: BooleanProgram, levels: seq<nat>, depth: nat) returns (ands: seq<seq<nat>>)
    requires |levels| == |p.gates| && forall i :: 0 <= i < |levels| ==> levels[i] <= depth
    ensures |ands| == depth + 1
    ensures forall lv :: 0 <= lv <= depth ==> ands[lv] == AndBucket(p, levels, lv, |levels|)
  {
    ands := seq(depth + 1, _ => []);
    for gi := 0 to |levels|
      invariant |ands| == depth + 1
      invariant forall lv :: 0 <= lv <= depth ==> ands[lv] == AndBucket(p, levels, lv, gi)
    {
      if p.gates[gi].IsAnd() {
        ands := ands[levels[gi] := ands[levels[gi]] + [gi]];
      }
    }
  }

  /** schedule_pass: levels and depth, then the Ands of each level. */
  method SchedulePass(p: BooleanProgram) returns (levels: seq<nat>, depth: nat, ands: seq<seq<nat>>)
    requires DenseProgram(p)
    ensures levels == Levels(p)
    ensures forall i :: 0 <= i < |levels| ==> levels[i] <= depth
    ensures depth == 0 || depth in levels
    ensures |ands| == depth + 1
    ensures forall lv :: 0 <= lv <= depth ==> ands[lv] == AndBucket(p, levels, lv, |levels|)
  {
    levels, depth := LevelPass(p);
    ands := AndLists(p, levels, depth);
  }

  /** One visit per gate. */
  method LevelPass(p: BooleanProgram) returns (levels: seq<nat>, depth: nat)
    requires DenseProgram(p)
    ensures levels == Levels(p)
    ensures forall i :: 0 <= i < |levels| ==> levels[i] <= depth
    ensures depth == 0 || depth in levels
  {
    var wireLevel: seq<nat> := seq(p.numWires, _ => 0);
    levels, depth := [], 0;
    for gi := 0 to |p.gates|
      invariant LevelTable(p, gi, wireLevel)
      invariant |levels| == gi && forall i :: 0 <= i < gi ==> levels[i] == Level(p, p.gates[i].out)
      invariant forall i :: 0 <= i < gi ==> levels[i] <= depth
      invariant depth == 0 || depth in levels
    {
      assert GateOk(p, gi);
      LevelTableNext(p, gi, wireLevel);
      var lv := GateLevel(p.gates[gi], wireLevel);
      wireLevel := wireLevel[p.gates[gi].out := lv];
      levels := levels + [lv];
      depth := Max(depth, lv);
    }
  }

  /** Distribute positions over buckets. */
  method FillBuckets(levels: seq<nat>, depth: nat) returns (bucket: seq<seq<nat>>)
    requires forall i :: 0 <= i < |levels| ==> levels[i] <= depth
    ensures Bucketed(levels, bucket, depth)
  {
    bucket := seq(depth + 1, _ => []);
    for gi := 0 to |levels|
      invariant |bucket| == depth + 1
      invariant forall lv :: 0 <= lv <= depth ==> bucket[lv] == Bucket(levels, lv, gi)
    {
      bucket := bucket[levels[gi] := bucket[levels[gi]] + [gi]];
    }
  }

  method MakeScheduledPlan(p: BooleanProgram) returns (plan: ScheduledPlan)
    requires DenseProgram(p)
    ensures PlanFor(p, plan)
    ensures plan.depth == 0 || plan.depth in Levels(p)
  {
    var levels, depth, _ := SchedulePass(p);
    var bucket := FillBuckets(levels, depth);
    return ScheduledPlan(bucket, depth, p.numInputs, p.numWires, |p.gates|);
  }

  /** No labelling that rises at every And gets by with fewer levels than a plan. */
  lemma DepthIsLeast(p: BooleanProgram, plan: ScheduledPlan, L: nat -> nat, most: nat)
    requires DenseProgram(p) && PlanFor(p, plan) && (plan.depth == 0 || plan.depth in Levels(p)) && Rises(p, L)
    requires forall i :: 0 <= i < |p.gates| ==> L(p.gates[i].out) <= most
    ensures plan.depth <= most
  {
    LevelIsLeast(p, L);
    if plan.depth != 0 {
      var i :| 0 <= i < |Levels(p)| && Levels(p)[i] == plan.depth;
      assert L(p.gates[i].out) <= most;
    }
  }

  // ---- scheduled execution ----

  /** The slots hold the inputs and the final values of the gates in `done`. */
  ghost predicate Right<W>(c: Context<W>, p: BooleanProgram, final: Store<W>, w: seq<W>, done: set<nat>) {
    && |w| >= p.numWires
    && (forall k :: 0 <= k < p.numInputs ==> k < |w| && w[k] == Read(c, final, k))
    && (forall i :: i in done ==>
      i < |p.gates| && p.gates[i].out < |w| && w[p.gates[i].out] == Read(c, final, p.gates[i].out))
  }

  /** Everything gate i reads is an input or comes from a gate in `done`. */
  ghost predicate Ready(p: BooleanProgram, done: set<nat>, i: nat)
    requires i < |p.gates|
  {
    forall v: nat :: p.gates[i].Reads(v) ==>
      v < p.numInputs || exists j :: j in done && j < |p.gates| && p.gates[j].out == v
  }

  ghost function Below(p: BooleanProgram, lv: nat): set<nat> {
    set i | 0 <= i < |p.gates| && Levels(p)[i] < lv
  }

  ghost function AndsAt(p: BooleanProgram, lv: nat): set<nat> {
    set i | 0 <= i < |p.gates| && Levels(p)[i] == lv && p.gates[i].IsAnd()
  }

  /** An And needs only shallower gates. */
  lemma AndReady(p: BooleanProgram, i: nat)
    requires DenseProgram(p) && i < |p.gates| && p.gates[i].IsAnd()
    ensures Ready(p, Below(p, Levels(p)[i]), i)
  {
    forall v: nat | p.gates[i].Reads(v) && v >= p.numInputs
      ensures exists j :: j in Below(p, Levels(p)[i]) && j < |p.gates| && p.gates[j].out == v
    {
      assert GateOk(p, i);
      var j :| 0 <= j < i && p.gates[j].out == v;
      OperandLevel(p, i, v);
      assert j in Below(p, Levels(p)[i]);
    }
  }

  /** A linear gate needs shallower gates, its level's Ands and its level's earlier gates. */
  lemma LinearReady(p: BooleanProgram, lv: nat, k: nat, done: set<nat>)
    requires DenseProgram(p) && k < |Bucket(Levels(p), lv, |p.gates|)| && Below(p, lv) + AndsAt(p, lv) <= done
    requires forall j :: 0 <= j < k ==> Bucket(Levels(p), lv, |p.gates|)[j] in done
    ensures Ready(p, done, Bucket(Levels(p), lv, |p.gates|)[k])
  {
    var bucket := Bucket(Levels(p), lv, |p.gates|);
    var i := bucket[k];
    forall v: nat | p.gates[i].Reads(v) && v >= p.numInputs
      ensures exists j :: j in done && j < |p.gates| && p.gates[j].out == v
    {
      assert GateOk(p, i);
      var j :| 0 <= j < i && p.gates[j].out == v;
      OperandLevel(p, i, v);
      if Levels(p)[j] < lv {
        assert j in Below(p, lv);
      } else {
        assert Levels(p)[j] == lv && j in bucket;
        var b :| 0 <= b < |bucket| && bucket[b] == j;
        assert b < k;
      }
    }
  }

  /** A gate applied to a slot array. */
  function SlotValue<W>(c: Context<W>, g: Gate, w: seq<W>): W
    requires forall v: nat :: g.Reads(v) ==> v < |w|
  {
    assert !g.IsConst() ==> g.Reads(g.in0);
    assert !g.IsConst() && !g.IsNot() ==> g.Reads(g.in1);
    match g.op
    case And => c.and(w[g.in0], w[g.in1])
    case Xor => c.xor(w[g.in0], w[g.in1])
    case Not => c.not(w[g.in0])
    case Const0 => c.bit(false)
    case Const1 => c.bit(true)
  }

  /** A ready gate computes its final value. */
  lemma ReadyValue<W>(c: Context<W>, p: BooleanProgram, m: Store<W>, w: seq<W>, done: set<nat>, i: nat)
    requires DenseProgram(p) && i < |p.gates| && Ready(p, done, i)
    requires Right(c, p, ExecTo(c, p.gates, |p.gates|, m), w, done)
    ensures forall v: nat :: p.gates[i].Reads(v) ==> v < |w|
    ensures SlotValue(c, p.gates[i], w) == Read(c, ExecTo(c, p.gates, |p.gates|, m), p.gates[i].out)
  {
    var g, final := p.gates[i], ExecTo(c, p.gates, |p.gates|, m);
    forall v: nat | g.Reads(v) ensures v < |w| && w[v] == Read(c, final, v) {
    }
    assert !g.IsConst() ==> g.Reads(g.in0);
    assert !g.IsConst() && !g.IsNot() ==> g.Reads(g.in1);
    DenseFixpoint(c, p, m, i);
  }

  /** Writing a final value disturbs nothing. */
  lemma RightWrite<W>(c: Context<W>, p: BooleanProgram, final: Store<W>, w: seq<W>, done: set<nat>, i: nat)
    requires i < |p.gates| && GateOk(p, i) && Right(c, p, final, w, done)
    ensures p.gates[i].out < |w| && Right(c, p, final, w[p.gates[i].out := Read(c, final, p.gates[i].out)], done + {i})
  {
  }

  lemma RightStart<W>(c: Context<W>, p: BooleanProgram, inputs: seq<W>, w: seq<W>)
    requires DenseProgram(p) && |inputs| == p.numInputs && |w| >= p.numWires && forall k :: 0 <= k < |inputs| ==>
      w[k] == inputs[k]
    ensures Right(c, p, ExecTo(c, p.gates, |p.gates|, Seed(inputs)), w, Below(p, 0))
  {
    forall k | 0 <= k < p.numInputs ensures w[k] == Read(c, ExecTo(c, p.gates, |p.gates|, Seed(inputs)), k) {
      InputsKept(c, p, Seed(inputs), k);
    }
  }

  /** and_many: a whole layer of Ands at once. */
  method AndMany<W(0)>(c: Context<W>, a: seq<W>, b: seq<W>) returns (o: seq<W>)
    requires |a| == |b|
    ensures |o| == |a| && forall k :: 0 <= k < |a| ==> o[k] == c.and(a[k], b[k])
  {
    o := [];
    for k := 0 to |a|
      invariant |o| == k && forall j :: 0 <= j < k ==> o[j] == c.and(a[j], b[j])
    {
      o := o + [c.and(a[k], b[k])];
    }
  }

  /** What the batch of a level holds: its Ands, and operands whose conjunction is final. */
  ghost predicate Gathered<W>(c: Context<W>, p: BooleanProgram, final: Store<W>, picked: seq<nat>, ba: seq<W>,
                              bb: seq<W>) {
    && |picked| == |ba| == |bb|
    && (forall j :: 0 <= j < |picked| ==>
      picked[j] < |p.gates| && c.and(ba[j], bb[j]) == Read(c, final, p.gates[picked[j]].out))
  }

  /** The operands of an And of the level are in place. */
  lemma AndOperandsReady<W>(c: Context<W>, p: BooleanProgram, lv: nat, k: nat, w: seq<W>, m: Store<W>)
    requires DenseProgram(p) && k < |Bucket(Levels(p), lv, |p.gates|)| &&
             p.gates[Bucket(Levels(p), lv, |p.gates|)[k]].IsAnd()
    requires Right(c, p, ExecTo(c, p.gates, |p.gates|, m), w, Below(p, lv))
    ensures var g := p.gates[Bucket(Levels(p), lv, |p.gates|)[k]];
            g.in0 < |w| && g.in1 < |w| && c.and(w[g.in0], w[g.in1]) == Read(c, ExecTo(c, p.gates, |p.gates|, m), g.out)
  {
    var i := Bucket(Levels(p), lv, |p.gates|)[k];
    var g := p.gates[i];
    AndReady(p, i);
    ReadyValue(c, p, m, w, Below(p, lv), i);
    assert g.Reads(g.in0) && g.Reads(g.in1);
  }

  /** Collect the operands of a level's Ands. */
  method GatherAnds<W(0)>(c: Context<W>, p: BooleanProgram, lv: nat, bucket: seq<nat>, w: array<W>, ghost m: Store<W>)
      returns (picked: seq<nat>, ba: seq<W>, bb: seq<W>)
    requires DenseProgram(p) && bucket == Bucket(Levels(p), lv, |p.gates|)
    requires Right(c, p, ExecTo(c, p.gates, |p.gates|, m), w[..], Below(p, lv))
    ensures Gathered(c, p, ExecTo(c, p.gates, |p.gates|, m), picked, ba, bb)
    ensures forall i :: i in AndsAt(p, lv) ==> i in picked
  {
    forall k | 0 <= k < |bucket| && p.gates[bucket[k]].IsAnd()
      ensures AndInPlace(c, ExecTo(c, p.gates, |p.gates|, m), w[..], p.gates[bucket[k]])
    {
      AndOperandsReady(c, p, lv, k, w[..], m);
    }
    picked, ba, bb := PickAnds(c, p, bucket, w, ExecTo(c, p.gates, |p.gates|, m));
    forall i | i in AndsAt(p, lv) ensures i in picked {
      assert i in bucket;
    }
  }

  /** Both operands of an And hold their final values. */
  ghost predicate AndInPlace<W>(c: Context<W>, final: Store<W>, w: seq<W>, g: Gate) {
    g.in0 < |w| && g.in1 < |w| && c.and(w[g.in0], w[g.in1]) == Read(c, final, g.out)
  }

  method PickAnds<W(0)>(c: Context<W>, p: BooleanProgram, bucket: seq<nat>, w: array<W>, ghost final: Store<W>)
      returns (picked: seq<nat>, ba: seq<W>, bb: seq<W>)
    requires forall k :: 0 <= k < |bucket| ==> bucket[k] < |p.gates|
    requires forall k :: 0 <= k < |bucket| && p.gates[bucket[k]].IsAnd() ==>
      AndInPlace(c, final, w[..], p.gates[bucket[k]])
    ensures Gathered(c, p, final, picked, ba, bb)
    ensures forall j :: 0 <= j < |bucket| && p.gates[bucket[j]].IsAnd() ==> bucket[j] in picked
  {
    picked, ba, bb := [], [], [];
    for k := 0 to |bucket|
      invariant Gathered(c, p, final, picked, ba, bb)
      invariant forall j :: 0 <= j < k && p.gates[bucket[j]].IsAnd() ==> bucket[j] in picked
    {
      var g := p.gates[bucket[k]];
      if g.IsAnd() {
        assert AndInPlace(c, final, w[..], g);
        picked, ba, bb := picked + [bucket[k]], ba + [w[g.in0]], bb + [w[g.in1]];
      }
    }
  }

  /** Write a batch's results to their slots. */
  method Scatter<W(0)>(c: Context<W>, p: BooleanProgram, picked: seq<nat>, bo: seq<W>, w: array<W>,
                       ghost final: Store<W>, ghost done: set<nat>)
    requires DenseProgram(p) && Right(c, p, final, w[..], done)
    requires |picked| == |bo| && forall j :: 0 <= j < |picked| ==>
      picked[j] < |p.gates| && bo[j] == Read(c, final, p.gates[picked[j]].out)
    modifies w
    ensures Right(c, p, final, w[..], done + set i | i in picked)
  {
    ghost var all := done;
    for k := 0 to |picked|
      invariant Right(c, p, final, w[..], all)
      invariant done <= all && forall j :: 0 <= j < k ==> picked[j] in all
    {
      assert GateOk(p, picked[k]);
      RightWrite(c, p, final, w[..], all, picked[k]);
      ghost var next := w[..][p.gates[picked[k]].out := bo[k]];
      w[p.gates[picked[k]].out] := bo[k];
      assert w[..] == next;
      all := all + {picked[k]};
    }
  }

  /** The Ands of a level: gather every operand, run them as one batch, scatter the results. */
  method RunAnds<W(0)>(c: Context<W>, p: BooleanProgram, lv: nat, bucket: seq<nat>, w: array<W>, ghost m: Store<W>)
    requires DenseProgram(p) && bucket == Bucket(Levels(p), lv, |p.gates|)
    requires Right(c, p, ExecTo(c, p.gates, |p.gates|, m), w[..], Below(p, lv))
    modifies w
    ensures Right(c, p, ExecTo(c, p.gates, |p.gates|, m), w[..], Below(p, lv) + AndsAt(p, lv))
  {
    var picked, ba, bb := GatherAnds(c, p, lv, bucket, w, m);
    var bo := AndMany(c, ba, bb);
    Scatter(c, p, picked, bo, w, ExecTo(c, p.gates, |p.gates|, m), Below(p, lv));
  }

  /** Run one ready gate in place. */
  method RunGate<W(0)>(c: Context<W>, p: BooleanProgram, i: nat, w: array<W>, ghost m: Store<W>, ghost done: set<nat>)
    requires DenseProgram(p) && i < |p.gates| && Ready(p, done, i)
    requires Right(c, p, ExecTo(c, p.gates, |p.gates|, m), w[..], done)
    modifies w
    ensures Right(c, p, ExecTo(c, p.gates, |p.gates|, m), w[..], done + {i})
  {
    var g := p.gates[i];
    assert GateOk(p, i);
    ReadyValue(c, p, m, w[..], done, i);
    RightWrite(c, p, ExecTo(c, p.gates, |p.gates|, m), w[..], done, i);
    ghost var next := w[..][g.out := SlotValue(c, g, w[..])];
    w[g.out] := SlotValue(c, g, w[..]);
    assert w[..] == next;
  }

  lemma LevelComplete(p: BooleanProgram, lv: nat, done: set<nat>)
    requires Below(p, lv) + AndsAt(p, lv) <= done
    requires forall j :: 0 <= j < |Bucket(Levels(p), lv, |p.gates|)| ==> Bucket(Levels(p), lv, |p.gates|)[j] in done
    ensures Below(p, lv + 1) <= done
  {
    forall i | i in Below(p, lv + 1) ensures i in done {
      if Levels(p)[i] == lv {
        assert i in Bucket(Levels(p), lv, |p.gates|);
      }
    }
  }

  lemma BucketAnd(p: BooleanProgram, lv: nat, k: nat)
    requires k < |Bucket(Levels(p), lv, |p.gates|)| && p.gates[Bucket(Levels(p), lv, |p.gates|)[k]].IsAnd()
    ensures Bucket(Levels(p), lv, |p.gates|)[k] in AndsAt(p, lv)
  {
  }

  /** The linear gates of a level, in emission order. */
  method RunLinear<W(0)>(c: Context<W>, p: BooleanProgram, lv: nat, bucket: seq<nat>, w: array<W>, ghost m: Store<W>)
    requires DenseProgram(p) && bucket == Bucket(Levels(p), lv, |p.gates|)
    requires Right(c, p, ExecTo(c, p.gates, |p.gates|, m), w[..], Below(p, lv) + AndsAt(p, lv))
    modifies w
    ensures Right(c, p, ExecTo(c, p.gates, |p.gates|, m), w[..], Below(p, lv + 1))
  {
    ghost var done := Below(p, lv) + AndsAt(p, lv);
    for k := 0 to |bucket|
      invariant Right(c, p, ExecTo(c, p.gates, |p.gates|, m), w[..], done)
      invariant Below(p, lv) + AndsAt(p, lv) <= done && forall j :: 0 <= j < k ==> bucket[j] in done
    {
      if p.gates[bucket[k]].IsAnd() {
        BucketAnd(p, lv, k);
      } else {
        LinearReady(p, lv, k, done);
        RunGate(c, p, bucket[k], w, m, done);
        done := done + {bucket[k]};
      }
    }
    LevelComplete(p, lv, done);
  }

  /** Level by level, Ands first, gives exactly the outputs of in-order execution. A wrong input count
      and a plan whose counts are not the program's are refused. */
  method ScheduledExecute<W(0)>(c: Context<W>, p: BooleanProgram, plan: ScheduledPlan, inputs: seq<W>,
                                scratch: CircuitScratch<W>)
      returns (r: Option<seq<W>>)
    requires DenseProgram(p) && (SameCounts(p, plan) ==> PlanFor(p, plan))
    modifies scratch, scratch.wires
    ensures scratch.wires == old(scratch.wires) || fresh(scratch.wires)
    ensures r == if |inputs| == p.numInputs && SameCounts(p, plan) then Some(Eval(c, p, inputs)) else None
  {
    if |inputs| != p.numInputs { return None; }
    if !SameCounts(p, plan) { return None; }
    scratch.Ensure(p.numWires);
    var w := scratch.wires;
    for i := 0 to |inputs|
      invariant scratch.wires == w
      invariant forall k :: 0 <= k < i ==> w[k] == inputs[k]
    {
      w[i] := inputs[i];
    }
    RightStart(c, p, inputs, w[..]);
    for lv := 0 to plan.depth + 1
      invariant scratch.wires == w
      invariant Right(c, p, ExecTo(c, p.gates, |p.gates|, Seed(inputs)), w[..], Below(p, lv))
    {
      RunAnds(c, p, lv, plan.bucket[lv], w, Seed(inputs));
      RunLinear(c, p, lv, plan.bucket[lv], w, Seed(inputs));
    }
    OutputsComputed(c, p, inputs, w[..], plan);
    return Some(PickOutputs(w[..], p.outputs));
  }

  function PickOutputs<W>(w: seq<W>, outputs: seq<nat>): (r: seq<W>)
    requires forall k :: 0 <= k < |outputs| ==> outputs[k] < |w|
    ensures |r| == |outputs| && forall k :: 0 <= k < |outputs| ==> r[k] == w[outputs[k]]
  {
    seq(|outputs|, k requires 0 <= k < |outputs| => w[outputs[k]])
  }

  lemma OutputsComputed<W>(c: Context<W>, p: BooleanProgram, inputs: seq<W>, w: seq<W>, plan: ScheduledPlan)
    requires DenseProgram(p) && PlanFor(p, plan)
    requires Right(c, p, ExecTo(c, p.gates, |p.gates|, Seed(inputs)), w, Below(p, plan.depth + 1))
    ensures forall k :: 0 <= k < |p.outputs| ==> p.outputs[k] < |w|
    ensures PickOutputs(w, p.outputs) == Eval(c, p, inputs)
  {
    forall k | 0 <= k < |p.outputs|
      ensures p.outputs[k] < |w| &&
              w[p.outputs[k]] == Read(c, ExecTo(c, p.gates, |p.gates|, Seed(inputs)), p.outputs[k])
    {
      var v := p.outputs[k];
      assert Written(p, |p.gates|, v);
      if v >= p.numInputs {
        var j :| 0 <= j < |p.gates| && p.gates[j].out == v;
        assert j in Below(p, plan.depth + 1);
      }
    }
  }
}
