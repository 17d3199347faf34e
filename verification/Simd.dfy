/** SIMD-batched replay (emp-tool/ir/simd.h): 128 independent instances per block, driven
    through the scheduled executor. A block is its 128 lanes. */
module Simd {
  import opened Program
  import opened Wrappers
  import opened Execute
  import opened Compact
  import opened Schedule

  const LANES: nat := 128

  type Block = b: seq<bool> | |b| == LANES witness seq(LANES, _ => false)

  function Lanewise(f: (bool, bool) -> bool, a: Block, b: Block): (r: Block)
    ensures forall t :: 0 <= t < LANES ==> r[t] == f(a[t], b[t])
  {
    seq(LANES, t requires 0 <= t < LANES => f(a[t], b[t]))
  }

  function AndBlocks(a: Block, b: Block): Block { Lanewise((x: bool, y: bool) => x && y, a, b) }
  function XorBlocks(a: Block, b: Block): Block { Lanewise((x: bool, y: bool) => x != y, a, b) }
  function NotBlock(a: Block): Block { Lanewise((x: bool, _: bool) => !x, a, a) }
  function BitBlock(v: bool): Block { seq(LANES, _ => v) }

  /** A bitsliced clear context. */
  function Sliced(): Context<Block> {
    Context<Block>.Context(AndBlocks, XorBlocks, NotBlock, BitBlock)
  }

  /** Lane t of two stores agrees with a plain store. */
  ghost predicate LaneHolds(m: Store<Block>, plain: Store<bool>, t: nat)
    requires t < LANES
  {
    forall w: nat :: Read(Sliced(), m, w)[t] == Read(Clear(), plain, w)
  }

  lemma LaneGate(g: Gate, m: Store<Block>, plain: Store<bool>, t: nat)
    requires t < LANES && LaneHolds(m, plain, t)
    ensures GateValue(Sliced(), g, m)[t] == GateValue(Clear(), g, plain)
  {
    assert Read(Sliced(), m, g.in0)[t] == Read(Clear(), plain, g.in0);
    assert Read(Sliced(), m, g.in1)[t] == Read(Clear(), plain, g.in1);
  }

  /** Execution on blocks is execution on every lane. */
  lemma {:induction false} LaneExec(gates: seq<Gate>, n: nat, m: Store<Block>, plain: Store<bool>, t: nat)
    requires n <= |gates| && t < LANES && LaneHolds(m, plain, t)
    ensures LaneHolds(ExecTo(Sliced(), gates, n, m), ExecTo(Clear(), gates, n, plain), t)
  {
    if n > 0 {
      var g := gates[n - 1];
      var m', plain' := ExecTo(Sliced(), gates, n - 1, m), ExecTo(Clear(), gates, n - 1, plain);
      LaneExec(gates, n - 1, m, plain, t);
      LaneGate(g, m', plain', t);
      forall w: nat ensures Read(Sliced(), ExecTo(Sliced(), gates, n, m), w)[t]
           == Read(Clear(), ExecTo(Clear(), gates, n, plain), w) {
        if w != g.out {
          assert Read(Sliced(), ExecTo(Sliced(), gates, n, m), w) == Read(Sliced(), m', w);
          assert Read(Clear(), ExecTo(Clear(), gates, n, plain), w) == Read(Clear(), plain', w);
        }
      }
    }
  }

  lemma LaneEval(p: BooleanProgram, blocks: seq<Block>, bits: seq<bool>, t: nat, o: nat)
    requires t < LANES && |blocks| == |bits| && o < |p.outputs|
    requires forall i :: 0 <= i < |bits| ==> blocks[i][t] == bits[i]
    ensures Eval(Sliced(), p, blocks)[o][t] == Eval(Clear(), p, bits)[o]
  {
    LaneExec(p.gates, |p.gates|, Seed(blocks), Seed(bits), t);
  }

  // ---- instance-major layout ----

  /** The flat position of item k of instance t, with `width` items per instance. */
  function Flat(t: nat, width: nat, k: nat): nat {
    t * width + k
  }

  lemma FlatBound(t: nat, width: nat, k: nat, n: nat)
    requires t < n && k < width
    ensures Flat(t, width, k) < n * width
  {
    assert t * width + width == (t + 1) * width;
    MulMonotone(t + 1, n, width);
  }

  lemma MulMonotone(a: nat, b: nat, c: nat)
    requires a <= b
    ensures a * c <= b * c
  {
  }

  lemma FlatInjective(t: nat, k: nat, t': nat, k': nat, width: nat)
    requires k < width && k' < width && (t != t' || k != k')
    ensures Flat(t, width, k) != Flat(t', width, k')
  {
    if t < t' {
      FlatBound(t, width, k, t');
    } else if t' < t {
      FlatBound(t', width, k', t);
    }
  }

  /** What instance t has of a flat list with `width` items per instance. */
  function Row(s: seq<bool>, width: nat, n: nat, t: nat): (r: seq<bool>)
    requires |s| == n * width && t < n
    ensures t * width <= (t + 1) * width <= |s| && r == s[t * width..(t + 1) * width]
    ensures |r| == width
    ensures forall i :: 0 <= i < width ==> Flat(t, width, i) < |s| && r[i] == s[Flat(t, width, i)]
  {
    RowBounds(width, n, t);
    s[t * width..(t + 1) * width]
  }

  lemma RowBounds(width: nat, n: nat, t: nat)
    requires t < n
    ensures t * width + width == (t + 1) * width <= n * width
  {
    MulMonotone(t + 1, n, width);
  }

  ghost function Expected(p: BooleanProgram, input: seq<bool>, n: nat, t: nat, o: nat): bool
    requires |input| == n * p.numInputs && t < n && o < |p.outputs|
  {
    Eval(Clear(), p, Row(input, p.numInputs, n, t))[o]
  }

  /** Pack one program input across the instances base, base + 1, ...; tail lanes are 0. */
  function Pack(input: seq<bool>, width: nat, n: nat, base: nat, lanes: nat, i: nat): (r: Block)
    requires |input| == n * width && base + lanes <= n && i < width
    ensures forall t :: 0 <= t < lanes && t < LANES ==> r[t] == Row(input, width, n, base + t)[i]
  {
    seq(LANES, t requires 0 <= t < LANES => t < lanes && Row(input, width, n, base + t)[i])
  }

  /** Output o of every instance in `done` and below is in place. */
  ghost predicate OutputDone(p: BooleanProgram, input: seq<bool>, n: nat, out: seq<bool>, t: nat, o: nat)
    requires |input| == n * p.numInputs && t < n && o < |p.outputs|
  {
    Flat(t, |p.outputs|, o) < |out| && out[Flat(t, |p.outputs|, o)] == Expected(p, input, n, t, o)
  }

  /** Writing one result leaves the others. */
  lemma WriteOne(p: BooleanProgram, input: seq<bool>, n: nat, out: seq<bool>, t: nat, o: nat)
    requires |input| == n * p.numInputs && |out| == n * |p.outputs| && t < n && o < |p.outputs|
    ensures Flat(t, |p.outputs|, o) < |out|
    ensures var out' := out[Flat(t, |p.outputs|, o) := Expected(p, input, n, t, o)];
            && OutputDone(p, input, n, out', t, o)
            && forall t', o' :: 0 <= t' < n && 0 <= o' < |p.outputs| && OutputDone(p, input, n, out, t', o') ==>
              OutputDone(p, input, n, out', t', o')
  {
    FlatBound(t, |p.outputs|, o, n);
    var out' := out[Flat(t, |p.outputs|, o) := Expected(p, input, n, t, o)];
    forall t', o' | 0 <= t' < n && 0 <= o' < |p.outputs| &&
      OutputDone(p, input, n, out, t', o') ensures OutputDone(p, input, n, out', t', o') {
      if t' != t || o' != o {
        FlatInjective(t, o, t', o', |p.outputs|);
      }
    }
  }

  /** Unpack output o of the live lanes. */
  method Unpack(p: BooleanProgram, ghost input: seq<bool>, n: nat, base: nat, lanes: nat, o: nat, block: Block,
                out: array<bool>)
    requires |input| == n * p.numInputs && out.Length == n * |p.outputs| && base + lanes <= n && lanes <= LANES &&
             o < |p.outputs|
    requires forall t :: 0 <= t < lanes ==> block[t] == Expected(p, input, n, base + t, o)
    modifies out
    ensures forall t :: base <= t < base + lanes ==> OutputDone(p, input, n, out[..], t, o)
    ensures forall t', o' :: 0 <= t' < n && 0 <= o' < |p.outputs| && OutputDone(p, input, n, old(out[..]), t', o') ==>
              OutputDone(p, input, n, out[..], t', o')
  {
    for t := 0 to lanes
      invariant forall t' :: base <= t' < base + t ==> OutputDone(p, input, n, out[..], t', o)
      invariant forall t', o' ::
        0 <= t' < n && 0 <= o' < |p.outputs| && OutputDone(p, input, n, old(out[..]), t', o') ==>
          OutputDone(p, input, n, out[..], t', o')
    {
      WriteOne(p, input, n, out[..], base + t, o);
      ghost var next := out[..][Flat(base + t, |p.outputs|, o) := block[t]];
      out[Flat(base + t, |p.outputs|, o)] := block[t];
      assert out[..] == next;
    }
  }

  /** What `OutputDone` says of every output of an instance. */
  lemma RowDone(p: BooleanProgram, input: seq<bool>, n: nat, out: seq<bool>, t: nat)
    requires |input| == n * p.numInputs && |out| == n * |p.outputs| && t < n
    requires forall o :: 0 <= o < |p.outputs| ==> OutputDone(p, input, n, out, t, o)
    ensures Row(out, |p.outputs|, n, t) == Eval(Clear(), p, Row(input, p.numInputs, n, t))
  {
    forall o | 0 <= o < |p.outputs|
      ensures Row(out, |p.outputs|, n, t)[o] == Eval(Clear(), p, Row(input, p.numInputs, n, t))[o]
    {
      assert OutputDone(p, input, n, out, t, o);
    }
  }

  /** Bit by bit: output o of instance t stands at t * |outputs| + o and is computed from the numInputs bits
      from t * numInputs on. */
  lemma OutputAt(p: BooleanProgram, input: seq<bool>, n: nat, out: seq<bool>, t: nat, o: nat)
    requires |input| == n * p.numInputs && |out| == n * |p.outputs| && t < n && o < |p.outputs|
    requires Row(out, |p.outputs|, n, t) == Eval(Clear(), p, Row(input, p.numInputs, n, t))
    ensures t * |p.outputs| + o < |out| && t * p.numInputs <= (t + 1) * p.numInputs <= |input|
    ensures out[t * |p.outputs| + o] == Eval(Clear(), p, input[t * p.numInputs..(t + 1) * p.numInputs])[o]
  {
    assert Row(out, |p.outputs|, n, t)[o] == out[Flat(t, |p.outputs|, o)];
  }

  /** Every instance gets the outputs the program computes on its own inputs, for every number of
      instances, partial tail blocks included. */
  method SimdExecute(p: BooleanProgram, plan: ScheduledPlan, input: seq<bool>, n: nat,
                     out: array<bool>) returns (ok: bool)
    requires DenseProgram(p) && (SameCounts(p, plan) ==> PlanFor(p, plan))
    requires |input| == n * p.numInputs && out.Length == n * |p.outputs|
    modifies out
    ensures ok <==> n == 0 || SameCounts(p, plan)
    ensures !ok ==> out[..] == old(out[..])
    ensures ok ==> forall t :: 0 <= t < n ==>
      Row(out[..], |p.outputs|, n, t) == Eval(Clear(), p, Row(input, p.numInputs, n, t))
  {
    var scratch := new CircuitScratch<Block>();
    var base := 0;
    ok := true;
    while base < n
      invariant base == 0 || SameCounts(p, plan)
      invariant base == 0 ==> out[..] == old(out[..])
      invariant fresh(scratch) && fresh(scratch.wires)
      invariant forall t, o :: 0 <= t < base && t < n && 0 <= o < |p.outputs| ==> OutputDone(p, input, n, out[..], t, o)
    {
      var lanes := if n - base < LANES then n - base else LANES;
      var r := RunBlock(p, plan, input, n, base, lanes, scratch);
      if r.None? { return false; }
      var outw := r.value;
      for o := 0 to |p.outputs|
        invariant fresh(scratch) && fresh(scratch.wires)
        invariant forall t, o' :: 0 <= t < base && 0 <= o' < |p.outputs| ==> OutputDone(p, input, n, out[..], t, o')
        invariant forall t, o' :: base <= t < base + lanes && 0 <= o' < o ==> OutputDone(p, input, n, out[..], t, o')
      {
        Unpack(p, input, n, base, lanes, o, outw[o], out);
      }
      base := base + LANES;
    }
    forall t | 0 <= t < n ensures Row(out[..], |p.outputs|, n, t) == Eval(Clear(), p, Row(input, p.numInputs, n, t)) {
      RowDone(p, input, n, out[..], t);
    }
  }

  /** One 128-lane pass. */
  method RunBlock(p: BooleanProgram, plan: ScheduledPlan, input: seq<bool>, n: nat, base: nat, lanes: nat,
                  scratch: CircuitScratch<Block>)
      returns (r: Option<seq<Block>>)
    requires DenseProgram(p) && (SameCounts(p, plan) ==> PlanFor(p, plan))
    requires |input| == n * p.numInputs && base + lanes <= n && lanes <= LANES
    modifies scratch, scratch.wires
    ensures scratch.wires == old(scratch.wires) || fresh(scratch.wires)
    ensures r.Some? <==> SameCounts(p, plan)
    ensures r.Some? ==> |r.value| == |p.outputs|
    ensures r.Some? ==> forall t, o :: 0 <= t < lanes && 0 <= o < |p.outputs| ==>
      r.value[o][t] == Eval(Clear(), p, Row(input, p.numInputs, n, base + t))[o]
  {
    var ni := p.numInputs;
    var inbuf: seq<Block> := [];
    for i := 0 to ni
      invariant |inbuf| == i
      invariant forall k, t :: 0 <= k < i && 0 <= t < lanes ==> inbuf[k][t] == Row(input, ni, n, base + t)[k]
    {
      inbuf := inbuf + [Pack(input, ni, n, base, lanes, i)];
    }
    r := ScheduledExecute(Sliced(), p, plan, inbuf, scratch);
    if r.None? { return; }
    var outw := r.value;
    forall t, o | 0 <= t < lanes && 0 <= o < |p.outputs|
      ensures outw[o][t] == Eval(Clear(), p, Row(input, ni, n, base + t))[o]
    {
      LaneEval(p, inbuf, Row(input, ni, n, base + t), t, o);
    }
  }
}
