/** Half-gate garbling (emp-tool/runtime/execution/half_gate.h): one AND, and whole gate lists
    in which XOR and NOT are free. */
module HalfGate {

  import opened Program
  import opened Mitccrh
  import opened Bits
  import opened Powers

  /** What garbling needs of blocks: exclusive or, the zero block and the low bit. */
  datatype Labels<!B> = Labels(xor: (B, B) -> B, zero: B, lsb: B -> bool) {
    /** select_mask[b] & x. */
    function Masked(b: bool, x: B): B {
      if b then x else zero
    }

    /** The label of bit v on a wire whose zero label is x. */
    function Of(x: B, v: bool, delta: B): B {
      xor(x, Masked(v, delta))
    }
  }

  /** Blocks as bit sets. */
  function BlockLabels(): Labels<Bits> {
    Labels(Sum, {}, (x: Bits) => 0 in x)
  }

  /** The two ciphertexts of an AND. */
  datatype Table<B> = Table(t0: B, t1: B)

  /** What garbling a gate yields: the zero label of its output, and a table if it is an AND. */
  datatype Garbled<B> = Garbled(out0: B, table: seq<Table<B>>)

  /** halfgates_garble on the four hashes h. */
  function GarbleFrom<B>(o: Labels<B>, la0: B, lb0: B, delta: B, h: seq<B>): Garbled<B>
    requires |h| == 4
  {
    var t0 := o.xor(o.xor(h[0], h[1]), o.Masked(o.lsb(lb0), delta));
    var tmp := o.xor(h[2], h[3]);
    var w0 := o.xor(h[0], o.Masked(o.lsb(la0), t0));
    Garbled(o.xor(w0, o.xor(h[2], o.Masked(o.lsb(lb0), tmp))), [Table(t0, o.xor(tmp, la0))])
  }

  /** halfgates_eval on the two hashes h. */
  function EvalFrom<B>(o: Labels<B>, a: B, b: B, t: Table<B>, h: seq<B>): B
    requires |h| == 2
  {
    var w := o.xor(o.xor(h[0], h[1]), o.Masked(o.lsb(a), t.t0));
    o.xor(o.xor(w, o.Masked(o.lsb(b), t.t1)), o.Masked(o.lsb(b), a))
  }

  /** A's labels are hashed under gid g, B's under g + 1. */
  function GarbleAnd<B>(o: Labels<B>, hash: (B, nat) -> B, la0: B, a1: B, lb0: B, b1: B, delta: B, g: nat): Garbled<B> {
    GarbleFrom(o, la0, lb0, delta, [hash(la0, g), hash(a1, g), hash(lb0, g + 1), hash(b1, g + 1)])
  }

  function EvalAnd<B>(o: Labels<B>, hash: (B, nat) -> B, a: B, b: B, t: Table<B>, g: nat): B {
    EvalFrom(o, a, b, t, [hash(a, g), hash(b, g + 1)])
  }

  /** The evaluator's label is the garbler's zero label, offset by delta exactly when both inputs
      are 1: for every hash, gid and pair of labels. */
  lemma HalfGateCorrect(hash: (Bits, nat) -> Bits, la0: Bits, lb0: Bits, delta: Bits, a: bool, b: bool, g: nat)
    requires 0 in delta
    ensures
      var o := BlockLabels();
      var r := GarbleAnd(o, hash, la0, Sum(la0, delta), lb0, Sum(lb0, delta), delta, g);
      |r.table| == 1
      && EvalAnd(o, hash, o.Of(la0, a, delta), o.Of(lb0, b, delta), r.table[0], g) == o.Of(r.out0, a && b, delta)
  {
    var o := BlockLabels();
    LabelParts(hash, la0, delta, a, g);
    LabelParts(hash, lb0, delta, b, g + 1);
    var r := GarbleAnd(o, hash, la0, Sum(la0, delta), lb0, Sum(lb0, delta), delta, g);
    var w := EvalAnd(o, hash, o.Of(la0, a, delta), o.Of(lb0, b, delta), r.table[0], g);
    assert forall i: nat :: i in w <==> i in o.Of(r.out0, a && b, delta);
  }

  /** What the garbler sends and keeps, bit by bit: T_G = H(A) + H(A + D) + p_b D,
      T_E = H(B) + H(B + D) + A, and W = H(A) + p_a T_G + H(B) + p_b (T_E + A), with p_a and p_b the low
      bits of A and B. */
  lemma GarbledRows(hash: (Bits, nat) -> Bits, la0: Bits, lb0: Bits, delta: Bits, g: nat, i: nat)
    ensures
      var r := GarbleAnd(BlockLabels(), hash, la0, Sum(la0, delta), lb0, Sum(lb0, delta), delta, g);
      var ha0, ha1 := i in hash(la0, g), i in hash(Sum(la0, delta), g);
      var hb0, hb1 := i in hash(lb0, g + 1), i in hash(Sum(lb0, delta), g + 1);
      && |r.table| == 1
      && (i in r.table[0].t0 <==> (ha0 != ha1) != (0 in lb0 && i in delta))
      && (i in r.table[0].t1 <==> (hb0 != hb1) != (i in la0))
      && (i in r.out0 <==>
            (ha0 != hb0) != ((0 in la0 && i in r.table[0].t0) != (0 in lb0 && ((i in r.table[0].t1) != (i in la0)))))
  {
  }

  /** The hash and the permute bit of a label. */
  lemma LabelParts(hash: (Bits, nat) -> Bits, x: Bits, delta: Bits, v: bool, g: nat)
    requires 0 in delta
    ensures
      var l := BlockLabels().Of(x, v, delta);
      hash(l, g) == (if v then hash(Sum(x, delta), g) else hash(x, g)) && (0 in l) == ((0 in x) != v)
  {
    SumZero(x);
  }

  lemma FreeGates(x: Bits, y: Bits, u: bool, v: bool, delta: Bits)
    ensures var o := BlockLabels();
      && Sum(o.Of(x, u, delta), o.Of(y, v, delta)) == o.Of(Sum(x, y), u != v, delta)
      && o.Of(x, u, delta) == o.Of(Sum(x, delta), !u, delta)
      && x == o.Of(x, false, delta)
  {
  }

  // ---- one AND, on a hash object ----

  /** The hash two parties share. */
  function HashFor<B>(p: Primitives<B>, s: B, shift: nat): (B, nat) -> B {
    (x: B, g: nat) => HashAt(p, s, shift, true, x, g)
  }

  method HalfgatesGarble<B(==)>(o: Labels<B>, la0: B, a1: B, lb0: B, b1: B, delta: B, m: Mitccrh<B>)
    returns (w0: B, t: Table<B>)
    requires m.Valid() && m.batch >= 2
    modifies m
    ensures m.Valid() && m.startPoint == old(m.startPoint) && m.cursor == Take(m.batch, old(m.cursor), 2)
    ensures Garbled(w0, [t])
         == GarbleAnd(o, HashFor(m.p, m.startPoint, m.shift), la0, a1, lb0, b1, delta, First(m.batch, old(m.cursor), 2))
  {
    var h := HashFour(la0, a1, lb0, b1, m);
    w0, t := CombineFour(o, la0, lb0, delta, h);
  }

  method CombineFour<B>(o: Labels<B>, la0: B, lb0: B, delta: B, h: seq<B>) returns (w0: B, t: Table<B>)
    requires |h| == 4
    ensures Garbled(w0, [t]) == GarbleFrom(o, la0, lb0, delta, h)
  {
    var pa, pb := o.lsb(la0), o.lsb(lb0);
    var t0 := o.xor(o.xor(h[0], h[1]), o.Masked(pb, delta));
    w0 := o.xor(h[0], o.Masked(pa, t0));
    var tmp := o.xor(h[2], h[3]);
    t := Table(t0, o.xor(tmp, la0));
    w0 := o.xor(w0, o.xor(h[2], o.Masked(pb, tmp)));
  }

  method HashFour<B(==)>(la0: B, a1: B, lb0: B, b1: B, m: Mitccrh<B>) returns (h: seq<B>)
    requires m.Valid() && m.batch >= 2
    modifies m
    ensures m.Valid() && m.startPoint == old(m.startPoint) && m.cursor == Take(m.batch, old(m.cursor), 2)
    ensures
      var hash, g := HashFor(m.p, m.startPoint, m.shift), First(m.batch, old(m.cursor), 2);
      h == [hash(la0, g), hash(a1, g), hash(lb0, g + 1), hash(b1, g + 1)]
  {
    var input := new B[4] [la0, a1, lb0, b1];
    var out := new B[4] (_ => la0);
    ghost var xs := input[..];
    assert xs == [la0, a1, lb0, b1];
    m.Consume(true, 2, 2, out, input);
    FourLanes(m.p, m.startPoint, m.shift, First(m.batch, old(m.cursor), 2), xs);
    h := out[..];
  }

  lemma FourLanes<B>(p: Primitives<B>, s: B, shift: nat, g: nat, xs: seq<B>)
    requires |xs| == 4
    ensures
      var hash := HashFor(p, s, shift);
      HashAll(p, s, shift, true, 2, g, xs) == [hash(xs[0], g), hash(xs[1], g), hash(xs[2], g + 1), hash(xs[3], g + 1)]
  {
    assert Quot(0, 2) == 0 && Quot(1, 2) == 0 && Quot(2, 2) == 1 && Quot(3, 2) == 1;
  }

  method HalfgatesEval<B(==)>(o: Labels<B>, a: B, b: B, t: Table<B>, m: Mitccrh<B>) returns (w: B)
    requires m.Valid() && m.batch >= 2
    modifies m
    ensures m.Valid() && m.startPoint == old(m.startPoint) && m.cursor == Take(m.batch, old(m.cursor), 2)
    ensures w == EvalAnd(o, HashFor(m.p, m.startPoint, m.shift), a, b, t, First(m.batch, old(m.cursor), 2))
  {
    var h := HashTwo(a, b, m);
    w := CombineTwo(o, a, b, t, h);
  }

  method CombineTwo<B>(o: Labels<B>, a: B, b: B, t: Table<B>, h: seq<B>) returns (w: B)
    requires |h| == 2
    ensures w == EvalFrom(o, a, b, t, h)
  {
    var sa, sb := o.lsb(a), o.lsb(b);
    w := o.xor(h[0], h[1]);
    w := o.xor(w, o.Masked(sa, t.t0));
    w := o.xor(w, o.Masked(sb, t.t1));
    w := o.xor(w, o.Masked(sb, a));
  }

  method HashTwo<B(==)>(a: B, b: B, m: Mitccrh<B>) returns (h: seq<B>)
    requires m.Valid() && m.batch >= 2
    modifies m
    ensures m.Valid() && m.startPoint == old(m.startPoint) && m.cursor == Take(m.batch, old(m.cursor), 2)
    ensures
      var hash, g := HashFor(m.p, m.startPoint, m.shift), First(m.batch, old(m.cursor), 2);
      h == [hash(a, g), hash(b, g + 1)]
  {
    var input := new B[2] [a, b];
    var out := new B[2] (_ => a);
    ghost var xs := input[..];
    assert xs == [a, b];
    m.Consume(true, 2, 1, out, input);
    TwoLanes(m.p, m.startPoint, m.shift, First(m.batch, old(m.cursor), 2), xs);
    h := out[..];
  }

  lemma TwoLanes<B>(p: Primitives<B>, s: B, shift: nat, g: nat, xs: seq<B>)
    requires |xs| == 2
    ensures
      var hash := HashFor(p, s, shift);
      HashAll(p, s, shift, true, 1, g, xs) == [hash(xs[0], g), hash(xs[1], g + 1)]
  {
    assert Quot(0, 1) == 0 && Quot(1, 1) == 1;
  }

  // ---- gate lists ----

  /** The garbler's zero labels so far, the tables sent, and where its hash stream stands. */
  datatype Garbling<B> = Garbling(labels: Store<B>, tables: seq<Table<B>>, cursor: Cursor)

  /** The evaluator's labels so far, the tables spent, and where its hash stream stands. */
  datatype Evaluation<B> = Evaluation(labels: Store<B>, used: nat, cursor: Cursor)

  /** A slot that holds nothing reads as the public label `pub`, the zero label of constants. */
  function LabelAt<B>(m: Store<B>, w: nat, pub: B): B {
    if w in m then m[w] else pub
  }

  function GarbleGate<B>(o: Labels<B>, hash: (B, nat) -> B, delta: B, pub: B, g: Gate, m: Store<B>,
                         gid: nat): Garbled<B> {
    var a, b := LabelAt(m, g.in0, pub), LabelAt(m, g.in1, pub);
    match g.op
    case And => GarbleAnd(o, hash, a, o.xor(a, delta), b, o.xor(b, delta), delta, gid)
    case Xor => Garbled(o.xor(a, b), [])
    case Not => Garbled(o.xor(a, delta), [])
    case Const0 => Garbled(pub, [])
    case Const1 => Garbled(o.xor(pub, delta), [])
  }

  /** The label the evaluator derives; t is the next table, of use to an AND only. */
  function EvaluateGate<B>(o: Labels<B>, hash: (B, nat) -> B, pub: B, g: Gate, m: Store<B>, t: Table<B>, gid: nat): B {
    var a, b := LabelAt(m, g.in0, pub), LabelAt(m, g.in1, pub);
    match g.op
    case And => EvalAnd(o, hash, a, b, t, gid)
    case Xor => o.xor(a, b)
    case Not => a
    case Const0 => pub
    case Const1 => pub
  }

  /** An AND takes two lanes of its party's stream. */
  function GarbleNext<B>(o: Labels<B>, hash: (B, nat) -> B, delta: B, pub: B, batch: nat, g: Gate,
                         s: Garbling<B>): Garbling<B>
    requires Aligned(batch, s.cursor, 2)
  {
    var r := GarbleGate(o, hash, delta, pub, g, s.labels, First(batch, s.cursor, 2));
    Garbling(s.labels[g.out := r.out0], s.tables + r.table, if g.IsAnd() then Take(batch, s.cursor, 2) else s.cursor)
  }

  function TableAt<B>(o: Labels<B>, tables: seq<Table<B>>, i: nat): Table<B> {
    if i < |tables| then tables[i] else Table(o.zero, o.zero)
  }

  function EvaluateNext<B>(o: Labels<B>, hash: (B, nat) -> B, pub: B, batch: nat, g: Gate, e: Evaluation<B>,
                           tables: seq<Table<B>>): Evaluation<B>
    requires Aligned(batch, e.cursor, 2)
  {
    var w := EvaluateGate(o, hash, pub, g, e.labels, TableAt(o, tables, e.used), First(batch, e.cursor, 2));
    if g.IsAnd() then Evaluation(e.labels[g.out := w], e.used + 1, Take(batch, e.cursor, 2))
    else Evaluation(e.labels[g.out := w], e.used, e.cursor)
  }

  function GarbleTo<B>(o: Labels<B>, hash: (B, nat) -> B, delta: B, pub: B, batch: nat, gates: seq<Gate>, n: nat,
                       s: Garbling<B>): (r: Garbling<B>)
    requires n <= |gates| && Aligned(batch, s.cursor, 2)
    ensures Aligned(batch, r.cursor, 2)
  {
    if n == 0 then s
    else
      var before := GarbleTo(o, hash, delta, pub, batch, gates, n - 1, s);
      AlignedStep(batch, before.cursor, 2);
      GarbleNext(o, hash, delta, pub, batch, gates[n - 1], before)
  }

  function EvaluateTo<B>(o: Labels<B>, hash: (B, nat) -> B, pub: B, batch: nat, gates: seq<Gate>, n: nat,
                         e: Evaluation<B>, tables: seq<Table<B>>): (r: Evaluation<B>)
    requires n <= |gates| && Aligned(batch, e.cursor, 2)
    ensures Aligned(batch, r.cursor, 2)
  {
    if n == 0 then e
    else
      var before := EvaluateTo(o, hash, pub, batch, gates, n - 1, e, tables);
      AlignedStep(batch, before.cursor, 2);
      EvaluateNext(o, hash, pub, batch, gates[n - 1], before, tables)
  }

  /** Every wire's held label encodes its bit. */
  ghost predicate Encodes<B>(o: Labels<B>, zero: Store<B>, held: Store<B>, bits: Store<bool>, delta: B, pub: B) {
    forall w: nat :: LabelAt(held, w, pub) == o.Of(LabelAt(zero, w, pub), Read(Clear(), bits, w), delta)
  }

  /** A gate's garbling and evaluation agree with its plain value. */
  ghost predicate GateSound<B(!new)>(o: Labels<B>, hash: (B, nat) -> B, delta: B, pub: B, g: Gate, zero: Store<B>,
                                     held: Store<B>, bits: Store<bool>, gid: nat) {
    var r := GarbleGate(o, hash, delta, pub, g, zero, gid);
    && |r.table| == (if g.IsAnd() then 1 else 0)
    && forall t :: (g.IsAnd() ==> r.table == [t]) ==>
      EvaluateGate(o, hash, pub, g, held, t, gid) == o.Of(r.out0, GateValue(Clear(), g, bits), delta)
  }

  /** All gates do. */
  ghost predicate Sound<B(!new)>(o: Labels<B>, hash: (B, nat) -> B, delta: B, pub: B) {
    forall g, zero, held, bits, gid :: Encodes(o, zero, held, bits, delta, pub) ==>
      GateSound(o, hash, delta, pub, g, zero, held, bits, gid)
  }

  lemma AndSound(hash: (Bits, nat) -> Bits, delta: Bits, pub: Bits, g: Gate, zero: Store<Bits>, held: Store<Bits>,
                 bits: Store<bool>, gid: nat)
    requires 0 in delta && Encodes(BlockLabels(), zero, held, bits, delta, pub) && g.IsAnd()
    ensures GateSound(BlockLabels(), hash, delta, pub, g, zero, held, bits, gid)
  {
    var o := BlockLabels();
    var x, y := LabelAt(zero, g.in0, pub), LabelAt(zero, g.in1, pub);
    var u, v := Read(Clear(), bits, g.in0), Read(Clear(), bits, g.in1);
    assert LabelAt(held, g.in0, pub) == o.Of(x, u, delta);
    assert LabelAt(held, g.in1, pub) == o.Of(y, v, delta);
    HalfGateCorrect(hash, x, y, delta, u, v, gid);
  }

  lemma FreeSound(hash: (Bits, nat) -> Bits, delta: Bits, pub: Bits, g: Gate, zero: Store<Bits>, held: Store<Bits>,
                  bits: Store<bool>, gid: nat)
    requires Encodes(BlockLabels(), zero, held, bits, delta, pub) && !g.IsAnd()
    ensures GateSound(BlockLabels(), hash, delta, pub, g, zero, held, bits, gid)
  {
    var o := BlockLabels();
    var x, y := LabelAt(zero, g.in0, pub), LabelAt(zero, g.in1, pub);
    var u, v := Read(Clear(), bits, g.in0), Read(Clear(), bits, g.in1);
    assert LabelAt(held, g.in0, pub) == o.Of(x, u, delta);
    assert LabelAt(held, g.in1, pub) == o.Of(y, v, delta);
    FreeGates(x, y, u, v, delta);
    FreeGates(pub, pub, false, false, delta);
  }

  lemma BlocksSound(hash: (Bits, nat) -> Bits, delta: Bits, pub: Bits)
    requires 0 in delta
    ensures Sound(BlockLabels(), hash, delta, pub)
  {
    forall g, zero, held, bits, gid | Encodes(BlockLabels(), zero, held, bits, delta, pub)
      ensures GateSound(BlockLabels(), hash, delta, pub, g, zero, held, bits, gid)
    {
      if g.IsAnd() {
        AndSound(hash, delta, pub, g, zero, held, bits, gid);
      } else {
        FreeSound(hash, delta, pub, g, zero, held, bits, gid);
      }
    }
  }

  lemma EncodesUpdate<B>(o: Labels<B>, zero: Store<B>, held: Store<B>, bits: Store<bool>, delta: B, pub: B, w: nat,
                         l: B, v: bool)
    requires Encodes(o, zero, held, bits, delta, pub)
    ensures Encodes(o, zero[w := l], held[w := o.Of(l, v, delta)], bits[w := v], delta, pub)
  {
    var zero', held', bits' := zero[w := l], held[w := o.Of(l, v, delta)], bits[w := v];
    forall x: nat
      ensures LabelAt(held', x, pub) == o.Of(LabelAt(zero', x, pub), Read(Clear(), bits', x), delta)
    {
      assert x != w ==> LabelAt(held, x, pub) == o.Of(LabelAt(zero, x, pub), Read(Clear(), bits, x), delta);
    }
  }

  /** What two parties have in common between gates: as many tables spent as sent, the same next
      gid, and labels that encode the plain bits. */
  ghost predicate Lockstep<B>(o: Labels<B>, delta: B, pub: B, batch: nat, s: Garbling<B>, batch': nat, e: Evaluation<B>,
                              bits: Store<bool>) {
    && Aligned(batch, s.cursor, 2) && Aligned(batch', e.cursor, 2)
    && First(batch, s.cursor, 2) == First(batch', e.cursor, 2)
    && e.used == |s.tables|
    && Encodes(o, s.labels, e.labels, bits, delta, pub)
  }

  lemma LockstepNext<B(!new)>(o: Labels<B>, hash: (B, nat) -> B, delta: B, pub: B, g: Gate,
                              batch: nat, s: Garbling<B>, batch': nat, e: Evaluation<B>, bits: Store<bool>,
                              tables: seq<Table<B>>)
    requires Sound(o, hash, delta, pub) && Lockstep(o, delta, pub, batch, s, batch', e, bits)
    requires GarbleNext(o, hash, delta, pub, batch, g, s).tables <= tables
    ensures Lockstep(o, delta, pub, batch, GarbleNext(o, hash, delta, pub, batch, g, s),
                     batch', EvaluateNext(o, hash, pub, batch', g, e,
                                          tables), bits[g.out := GateValue(Clear(), g, bits)])
  {
    var gid := First(batch, s.cursor, 2);
    var r := GarbleGate(o, hash, delta, pub, g, s.labels, gid);
    assert GateSound(o, hash, delta, pub, g, s.labels, e.labels, bits, gid);
    AlignedStep(batch, s.cursor, 2);
    AlignedStep(batch', e.cursor, 2);
    assert s.tables + r.table <= tables;
    assert g.IsAnd() ==> r.table == [TableAt(o, tables, e.used)];
    EncodesUpdate(o, s.labels, e.labels, bits, delta, pub, g.out, r.out0, GateValue(Clear(), g, bits));
  }

  /** Over every gate list the parties stay in lockstep after each gate, whatever the two batch
      sizes. */
  lemma {:induction false} LockstepRun<B(!new)>(o: Labels<B>, hash: (B, nat) -> B, delta: B, pub: B, gates: seq<Gate>,
                                                n: nat,
                                                batch: nat, s: Garbling<B>, batch': nat, e: Evaluation<B>,
                                                bits: Store<bool>, tables: seq<Table<B>>)
    requires n <= |gates| && Sound(o, hash, delta, pub) && Lockstep(o, delta, pub, batch, s, batch', e, bits)
    requires GarbleTo(o, hash, delta, pub, batch, gates, n, s).tables <= tables
    ensures Lockstep(o, delta, pub, batch, GarbleTo(o, hash, delta, pub, batch, gates, n, s),
                     batch', EvaluateTo(o, hash, pub, batch', gates, n, e, tables), ExecTo(Clear(), gates, n, bits))
  {
    if n > 0 {
      var s', e' := GarbleTo(o, hash, delta, pub, batch, gates, n - 1, s), EvaluateTo(o, hash, pub, batch', gates,
                                                                                      n - 1, e, tables);
      assert s'.tables <= GarbleNext(o, hash, delta, pub, batch, gates[n - 1], s').tables;
      LockstepRun(o, hash, delta, pub, gates, n - 1, batch, s, batch', e, bits, tables);
      LockstepNext(o, hash, delta, pub, gates[n - 1], batch, s', batch', e', ExecTo(Clear(), gates, n - 1, bits),
                   tables);
    }
  }

  /** For every block hash, every offset with low bit 1, every gate list and all inputs: from fresh
      streams of any even batch sizes, the evaluator ends up with the label of every wire's plain
      value. */
  lemma GarbledRunIsCorrect(hash: (Bits, nat) -> Bits, delta: Bits, pub: Bits, gates: seq<Gate>, batch: nat,
                            batch': nat,
                            zero: Store<Bits>, held: Store<Bits>, bits: Store<bool>)
    requires 0 in delta && batch >= 2 && batch' >= 2 && batch % 2 == 0 && batch' % 2 == 0
    requires Encodes(BlockLabels(), zero, held, bits, delta, pub)
    ensures Aligned(batch, Cursor(0, batch), 2) && Aligned(batch', Cursor(0, batch'), 2)
    ensures
      var o := BlockLabels();
      var s := GarbleTo(o, hash, delta, pub, batch, gates, |gates|, Garbling(zero, [], Cursor(0, batch)));
      var e := EvaluateTo(o, hash, pub, batch', gates, |gates|, Evaluation(held, 0, Cursor(0, batch')), s.tables);
      && e.used == |s.tables|
      && First(batch, s.cursor, 2) == First(batch', e.cursor, 2)
      && Encodes(o, s.labels, e.labels, ExecTo(Clear(), gates, |gates|, bits), delta, pub)
  {
    WholeLanes(batch, 2);
    WholeLanes(batch', 2);
    BlocksSound(hash, delta, pub);
    var o := BlockLabels();
    var s0, e0 := Garbling(zero, [], Cursor(0, batch)), Evaluation(held, 0, Cursor(0, batch'));
    assert Lockstep(o, delta, pub, batch, s0, batch', e0, bits);
    var s := GarbleTo(o, hash, delta, pub, batch, gates, |gates|, s0);
    LockstepRun(o, hash, delta, pub, gates, |gates|, batch, s0, batch', e0, bits, s.tables);
  }

  // ---- two hash objects ----

  /** The object stands at the cursor, with an even number of lanes left and an even batch. */
  ghost predicate At<B>(m: Mitccrh<B>, c: Cursor)
    reads m
  {
    m.Valid() && m.cursor == c && Aligned(m.batch, c, 2)
  }

  /** One gate on the garbler's object. */
  method GarbleStep<B(==)>(o: Labels<B>, m: Mitccrh<B>, g: Gate, zero: Store<B>, delta: B, pub: B)
    returns (r: Garbled<B>)
    requires m.Valid() && m.batch >= 2
    modifies m
    ensures m.Valid() && m.startPoint == old(m.startPoint)
    ensures m.cursor == if g.IsAnd() then Take(m.batch, old(m.cursor), 2) else old(m.cursor)
    ensures r
         == GarbleGate(o, HashFor(m.p, m.startPoint, m.shift), delta, pub, g, zero, First(m.batch, old(m.cursor), 2))
  {
    var a, b := LabelAt(zero, g.in0, pub), LabelAt(zero, g.in1, pub);
    match g.op {
      case And =>
        var w, t := HalfgatesGarble(o, a, o.xor(a, delta), b, o.xor(b, delta), delta, m);
        r := Garbled(w, [t]);
      case Xor => r := Garbled(o.xor(a, b), []);
      case Not => r := Garbled(o.xor(a, delta), []);
      case Const0 => r := Garbled(pub, []);
      case Const1 => r := Garbled(o.xor(pub, delta), []);
    }
  }

  /** One gate on the evaluator's object. */
  method EvaluateStep<B(==)>(o: Labels<B>, m: Mitccrh<B>, g: Gate, held: Store<B>, t: Table<B>, pub: B) returns (w: B)
    requires m.Valid() && m.batch >= 2
    modifies m
    ensures m.Valid() && m.startPoint == old(m.startPoint)
    ensures m.cursor == if g.IsAnd() then Take(m.batch, old(m.cursor), 2) else old(m.cursor)
    ensures w == EvaluateGate(o, HashFor(m.p, m.startPoint, m.shift), pub, g, held, t, First(m.batch, old(m.cursor), 2))
  {
    var a, b := LabelAt(held, g.in0, pub), LabelAt(held, g.in1, pub);
    match g.op {
      case And => w := HalfgatesEval(o, a, b, t, m);
      case Xor => w := o.xor(a, b);
      case Not => w := a;
      case Const0 => w := pub;
      case Const1 => w := pub;
    }
  }

  /** The garbler's pass over a gate list: zero labels of all wires, and the tables sent. */
  method GarbleGates<B(==)>(o: Labels<B>, m: Mitccrh<B>, gates: seq<Gate>, zero: Store<B>, delta: B, pub: B,
                            ghost hash: (B, nat) -> B)
    returns (labels: Store<B>, tables: seq<Table<B>>)
    requires At(m, m.cursor) && hash == HashFor(m.p, m.startPoint, m.shift)
    modifies m
    ensures At(m, m.cursor) && m.startPoint == old(m.startPoint)
    ensures Garbling(labels, tables, m.cursor)
         == GarbleTo(o, hash, delta, pub, m.batch, gates, |gates|, Garbling(zero, [], old(m.cursor)))
  {
    labels, tables := zero, [];
    ghost var s0 := Garbling(zero, [], m.cursor);
    for i := 0 to |gates|
      invariant At(m, m.cursor) && m.startPoint == old(m.startPoint)
      invariant Garbling(labels, tables, m.cursor) == GarbleTo(o, hash, delta, pub, m.batch, gates, i, s0)
    {
      labels, tables := GarbleOne(o, m, gates[i], labels, tables, delta, pub, hash);
    }
  }

  method GarbleOne<B(==)>(o: Labels<B>, m: Mitccrh<B>, g: Gate, labels: Store<B>, tables: seq<Table<B>>,
                          delta: B, pub: B, ghost hash: (B, nat) -> B)
    returns (labels': Store<B>, tables': seq<Table<B>>)
    requires At(m, m.cursor) && hash == HashFor(m.p, m.startPoint, m.shift)
    modifies m
    ensures At(m, m.cursor) && m.startPoint == old(m.startPoint)
    ensures Garbling(labels', tables', m.cursor)
         == GarbleNext(o, hash, delta, pub, m.batch, g, Garbling(labels, tables, old(m.cursor)))
  {
    AlignedStep(m.batch, m.cursor, 2);
    var r := GarbleStep(o, m, g, labels, delta, pub);
    labels', tables' := labels[g.out := r.out0], tables + r.table;
  }

  /** The evaluator's pass: labels of all wires, and how many tables were spent. */
  method EvaluateGates<B(==)>(o: Labels<B>, m: Mitccrh<B>, gates: seq<Gate>, held: Store<B>, tables: seq<Table<B>>,
                              pub: B, ghost hash: (B, nat) -> B)
    returns (labels: Store<B>, used: nat)
    requires At(m, m.cursor) && hash == HashFor(m.p, m.startPoint, m.shift)
    modifies m
    ensures At(m, m.cursor) && m.startPoint == old(m.startPoint)
    ensures Evaluation(labels, used, m.cursor)
         == EvaluateTo(o, hash, pub, m.batch, gates, |gates|, Evaluation(held, 0, old(m.cursor)), tables)
  {
    labels, used := held, 0;
    ghost var e0 := Evaluation(held, 0, m.cursor);
    for i := 0 to |gates|
      invariant At(m, m.cursor) && m.startPoint == old(m.startPoint)
      invariant Evaluation(labels, used, m.cursor) == EvaluateTo(o, hash, pub, m.batch, gates, i, e0, tables)
    {
      labels, used := EvaluateOne(o, m, gates[i], labels, used, tables, pub, hash);
    }
  }

  method EvaluateOne<B(==)>(o: Labels<B>, m: Mitccrh<B>, g: Gate, labels: Store<B>, used: nat, tables: seq<Table<B>>,
                            pub: B, ghost hash: (B, nat) -> B)
    returns (labels': Store<B>, used': nat)
    requires At(m, m.cursor) && hash == HashFor(m.p, m.startPoint, m.shift)
    modifies m
    ensures At(m, m.cursor) && m.startPoint == old(m.startPoint)
    ensures Evaluation(labels', used', m.cursor)
         == EvaluateNext(o, hash, pub, m.batch, g, Evaluation(labels, used, old(m.cursor)), tables)
  {
    AlignedStep(m.batch, m.cursor, 2);
    var w := EvaluateStep(o, m, g, labels, TableAt(o, tables, used), pub);
    labels', used' := labels[g.out := w], if g.IsAnd() then used + 1 else used;
  }

  /** Two hash objects with one start point, one shift and batch sizes of their own, standing at the same
      gid: over every gate list the evaluator ends with the label of every wire's plain value, having
      spent exactly the tables sent, and both objects stand at the same gid again. */
  method GarbleAndEvaluate(garbler: Mitccrh<Bits>, evaluator: Mitccrh<Bits>, gates: seq<Gate>, delta: Bits, pub: Bits,
                           zero: Store<Bits>, held: Store<Bits>, ghost bits: Store<bool>)
    returns (labels: Store<Bits>, tables: seq<Table<Bits>>, derived: Store<Bits>, used: nat)
    requires garbler != evaluator && At(garbler, garbler.cursor) && At(evaluator, evaluator.cursor)
    requires garbler.p == evaluator.p && garbler.shift == evaluator.shift && garbler.startPoint == evaluator.startPoint
    requires First(garbler.batch, garbler.cursor, 2) == First(evaluator.batch, evaluator.cursor, 2)
    requires 0 in delta && Encodes(BlockLabels(), zero, held, bits, delta, pub)
    modifies garbler, evaluator
    ensures Encodes(BlockLabels(), labels, derived, ExecTo(Clear(), gates, |gates|, bits), delta, pub) &&
            used == |tables|
    ensures garbler.startPoint == evaluator.startPoint == old(garbler.startPoint)
    ensures At(garbler, garbler.cursor) && At(evaluator, evaluator.cursor)
    ensures First(garbler.batch, garbler.cursor, 2) == First(evaluator.batch, evaluator.cursor, 2)
  {
    ghost var hash := HashFor(garbler.p, garbler.startPoint, garbler.shift);
    ghost var s0, e0 := Garbling(zero, [], garbler.cursor), Evaluation(held, 0, evaluator.cursor);
    labels, tables := GarbleGates(BlockLabels(), garbler, gates, zero, delta, pub, hash);
    derived, used := EvaluateGates(BlockLabels(), evaluator, gates, held, tables, pub, hash);
    BlocksSound(hash, delta, pub);
    LockstepRun(BlockLabels(), hash, delta, pub, gates, |gates|, garbler.batch, s0, evaluator.batch, e0, bits, tables);
  }

  /** From two fresh objects of any even batch sizes. */
  method GarbleFromStart(p: Primitives<Bits>, start: Bits, shift: nat, batch: nat, batch': nat, wide4: bool,
                         wide2: bool,
                         wide4': bool, wide2': bool, gates: seq<Gate>, delta: Bits, pub: Bits, zero: Store<Bits>,
                         held: Store<Bits>,
                         ghost bits: Store<bool>)
    returns (labels: Store<Bits>, tables: seq<Table<Bits>>, derived: Store<Bits>)
    requires shift < 32 && 2 <= batch < 0x8000_0000 && 2 <= batch' < 0x8000_0000 && batch % 2 == 0 && batch' % 2 == 0
    requires 0 in delta && Encodes(BlockLabels(), zero, held, bits, delta, pub)
    ensures Encodes(BlockLabels(), labels, derived, ExecTo(Clear(), gates, |gates|, bits), delta, pub)
  {
    var garbler := new Mitccrh<Bits>(p, batch, shift, wide4, wide2, start);
    var evaluator := new Mitccrh<Bits>(p, batch', shift, wide4', wide2', start);
    WholeLanes(batch, 2);
    WholeLanes(batch', 2);
    var used;
    labels, tables, derived, used := GarbleAndEvaluate(garbler, evaluator, gates, delta, pub, zero, held, bits);
  }
}
