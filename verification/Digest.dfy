/** The gate-stream digest (emp-tool/ir/context/digest.h) against the digest of the recorded program.
    The mixing step is a parameter: nothing is supposed about it. */
module Digest {

  import opened Program
  import opened Wrappers
  import opened Execute
  import opened Record

  /** digest = (digest ^ x) * prime, as any function. */
  type Mix<!D> = (D, nat) -> D

  function OpCode(op: Op): nat {
    match op
    case And => 0
    case Xor => 1
    case Not => 2
    case Const0 => 3
    case Const1 => 4
  }

  function MixGate<D>(mix: Mix<D>, h: D, g: Gate): D {
    mix(mix(mix(mix(h, OpCode(g.op)), g.in0), g.in1), g.out)
  }

  function MixGates<D>(mix: Mix<D>, h: D, gates: seq<Gate>, n: nat): D
    requires n <= |gates|
  {
    if n == 0 then h else MixGate(mix, MixGates(mix, h, gates, n - 1), gates[n - 1])
  }

  function MixInput<D>(mix: Mix<D>, h: D, n: nat): D {
    mix(mix(h, 0xE), n)
  }

  /** digest_program. */
  function ProgramDigest<D>(mix: Mix<D>, basis: D, p: BooleanProgram): D {
    MixGates(mix, MixInput(mix, basis, p.numInputs), p.gates, |p.gates|)
  }

  method DigestProgram<D>(mix: Mix<D>, basis: D, p: BooleanProgram) returns (h: D)
    ensures h == ProgramDigest(mix, basis, p)
  {
    h := mix(mix(basis, 0xE), p.numInputs);
    for i := 0 to |p.gates|
      invariant h == MixGates(mix, MixInput(mix, basis, p.numInputs), p.gates, i)
    {
      var g := p.gates[i];
      h := mix(mix(mix(mix(h, OpCode(g.op)), g.in0), g.in1), g.out);
    }
  }

  // ---- streaming ----

  /** The state of a DigestCtx. */
  datatype Dig<D> = Dig(digest: D, nextId: nat, c0: Option<nat>, c1: Option<nat>)

  datatype Hashed<D> = Hashed(dig: Dig<D>, wires: seq<nat>)

  function DigInputs<D>(mix: Mix<D>, d: Dig<D>, n: nat): Option<Hashed<D>> {
    if n == 0 || n > UINT32_MAX - d.nextId then None
    else Some(Hashed(d.(nextId := d.nextId + n, digest := MixInput(mix, d.digest, n)), seq(n, k => d.nextId + k)))
  }

  function DigEmit<D>(mix: Mix<D>, d: Dig<D>, in0: nat, in1: nat, op: Op): Option<Hashed<D>> {
    if d.nextId == UINT32_MAX then None
    else Some(Hashed(d.(nextId := d.nextId + 1, digest := MixGate(mix, d.digest, Gate(in0, in1, d.nextId, op))),
                     [d.nextId]))
  }

  function DigBit<D>(mix: Mix<D>, d: Dig<D>, v: bool): Option<Hashed<D>> {
    var c := if v then d.c1 else d.c0;
    if c.Some? then Some(Hashed(d, [c.value]))
    else match DigEmit(mix, d, 0, 0, if v then Const1 else Const0)
      case None => None
      case Some(m) => Some(m.(dig := if v then m.dig.(c1 := Some(d.nextId)) else m.dig.(c0 := Some(d.nextId))))
  }

  function DigCall<D>(mix: Mix<D>, d: Dig<D>, call: Call, ids: seq<nat>): Option<Hashed<D>>
    requires OperandsKnown(call, |ids|)
  {
    match call
    case Input(n) => DigInputs(mix, d, n)
    case PublicBit(v) => DigBit(mix, d, v)
    case AndGate(a, b) => DigEmit(mix, d, ids[a], ids[b], And)
    case XorGate(a, b) => DigEmit(mix, d, ids[a], ids[b], Xor)
    case NotGate(a) => DigEmit(mix, d, ids[a], 0, Not)
  }

  datatype Stream<D> = Stream(dig: Dig<D>, ids: seq<nat>)

  function DigRun<D>(mix: Mix<D>, basis: D, calls: seq<Call>, n: nat): Option<Stream<D>>
    requires n <= |calls|
  {
    if n == 0 then Some(Stream(Dig(basis, 0, None, None), []))
    else match DigRun(mix, basis, calls, n - 1)
      case None => None
      case Some(t) =>
        if !OperandsKnown(calls[n - 1], |t.ids|) then None
        else match DigCall(mix, t.dig, calls[n - 1], t.ids)
          case None => None
          case Some(m) => Some(Stream(m.dig, t.ids + m.wires))
  }

  // ---- comparison with the recorder ----

  /** The digest of the input reservations alone. */
  function MixReservations<D>(mix: Mix<D>, basis: D, calls: seq<Call>, n: nat): D
    requires n <= |calls|
  {
    if n == 0 then basis
    else
      var h := MixReservations(mix, basis, calls, n - 1);
      if calls[n - 1].Input? then MixInput(mix, h, calls[n - 1].n) else h
  }

  function Reservations(calls: seq<Call>, n: nat): nat
    requires n <= |calls|
  {
    if n == 0 then 0 else Reservations(calls, n - 1) + if calls[n - 1].Input? then 1 else 0
  }

  lemma {:induction false} MixGatesPrefix<D>(mix: Mix<D>, h: D, gates: seq<Gate>, g: Gate, n: nat)
    requires n <= |gates|
    ensures MixGates(mix, h, gates + [g], n) == MixGates(mix, h, gates, n)
  {
    if n > 0 {
      MixGatesPrefix(mix, h, gates, g, n - 1);
    }
  }

  /** Same numbering, same shared constants, and the digest of the gates recorded so far. */
  ghost predicate InStep<D>(mix: Mix<D>, h: D, s: Rec, d: Dig<D>) {
    d.nextId == s.nextId && d.c0 == s.c0 && d.c1 == s.c1 && d.digest == MixGates(mix, h, s.gates, |s.gates|)
  }

  lemma EmitInStep<D>(mix: Mix<D>, h: D, s: Rec, d: Dig<D>, in0: nat, in1: nat, op: Op)
    requires InStep(mix, h, s, d) && Emit(s, in0, in1, op).Some?
    ensures
      var m, e := Emit(s, in0, in1, op), DigEmit(mix, d, in0, in1, op);
      e.Some? && InStep(mix, h, m.value.rec, e.value.dig) && m.value.wires == e.value.wires
  {
    MixGatesPrefix(mix, h, s.gates, Gate(in0, in1, s.nextId, op), |s.gates|);
  }

  lemma CallInStep<D>(mix: Mix<D>, h: D, s: Rec, d: Dig<D>, call: Call, ids: seq<nat>)
    requires InStep(mix, h, s, d) && OperandsKnown(call, |ids|) && RecCall(s, call, ids).Some? && !call.Input?
    ensures
      var m, e := RecCall(s, call, ids), DigCall(mix, d, call, ids);
      e.Some? && InStep(mix, h, m.value.rec, e.value.dig) && m.value.wires == e.value.wires
  {
    match call
    case PublicBit(v) =>
      if (if v then s.c1 else s.c0).None? {
        EmitInStep(mix, h, s, d, 0, 0, if v then Const1 else Const0);
      }
    case AndGate(a, b) => EmitInStep(mix, h, s, d, ids[a], ids[b], And);
    case XorGate(a, b) => EmitInStep(mix, h, s, d, ids[a], ids[b], Xor);
    case NotGate(a) => EmitInStep(mix, h, s, d, ids[a], 0, Not);
  }

  lemma {:induction false} RunInStep<D>(mix: Mix<D>, basis: D, calls: seq<Call>, n: nat)
    requires n <= |calls| && RecRun(calls, n).Some?
    ensures
      var t, d := RecRun(calls, n).value, DigRun(mix, basis, calls, n);
      && d.Some? && d.value.ids == t.ids
      && InStep(mix, MixReservations(mix, basis, calls, n), t.rec, d.value.dig)
      && (!t.rec.closed ==> t.rec.gates == [])
      && t.rec.numInputs == Taken(calls, n)
  {
    if n > 0 {
      RunInStep(mix, basis, calls, n - 1);
      var t, d := RecRun(calls, n - 1).value, DigRun(mix, basis, calls, n - 1).value;
      if !calls[n - 1].Input? {
        CallInStep(mix, MixReservations(mix, basis, calls, n - 1), t.rec, d.dig, calls[n - 1], t.ids);
      }
    }
  }

  lemma {:induction false} OneReservation<D>(mix: Mix<D>, basis: D, calls: seq<Call>, n: nat)
    requires n <= |calls| && Reservations(calls, n) <= 1
    ensures Reservations(calls, n) == 0 ==> MixReservations(mix, basis, calls, n) == basis && Taken(calls, n) == 0
    ensures Reservations(calls, n) == 1 ==>
      MixReservations(mix, basis, calls, n) == MixInput(mix, basis, Taken(calls, n))
  {
    if n > 0 {
      OneReservation(mix, basis, calls, n - 1);
    }
  }

  /** Whatever the mixing step: if the inputs are reserved in one call, the streamed digest is the
      digest of the recorded program. */
  lemma DigestMatchesRecording<D>(mix: Mix<D>, basis: D, calls: seq<Call>, outputs: seq<nat>)
    requires RecRun(calls, |calls|).Some? && Reservations(calls, |calls|) == 1
    ensures DigRun(mix, basis, calls, |calls|).Some?
    ensures DigRun(mix, basis, calls, |calls|).value.dig.digest
         == ProgramDigest(mix, basis, Finished(RecRun(calls, |calls|).value.rec, outputs))
  {
    RunInStep(mix, basis, calls, |calls|);
    OneReservation(mix, basis, calls, |calls|);
  }

  // ---- when exactly ----

  /** The mixing step that forgets nothing. */
  function Append(h: seq<nat>, x: nat): seq<nat> {
    h + [x]
  }

  lemma {:induction false} ReservationsLength(calls: seq<Call>, n: nat)
    requires n <= |calls|
    ensures |MixReservations(Append, [], calls, n)| == 2 * Reservations(calls, n)
  {
    if n > 0 {
      ReservationsLength(calls, n - 1);
    }
  }

  lemma {:induction false} GatesLength(h: seq<nat>, gates: seq<Gate>, n: nat)
    requires n <= |gates|
    ensures |MixGates(Append, h, gates, n)| == |h| + 4 * n
  {
    if n > 0 {
      GatesLength(h, gates, n - 1);
    }
  }

  /** Op, operands and output of a gate stand in w from `at` on. */
  predicate GateWords(w: seq<nat>, at: nat, g: Gate) {
    && at + 4 <= |w|
    && w[at] == (match g.op case And => 0 case Xor => 1 case Not => 2 case Const0 => 3 case Const1 => 4)
    && w[at + 1] == g.in0 && w[at + 2] == g.in1 && w[at + 3] == g.out
  }

  lemma {:induction false} WordsOfGate(h: seq<nat>, gates: seq<Gate>, n: nat, i: nat)
    requires i < n <= |gates|
    ensures |MixGates(Append, h, gates, n)| == |h| + 4 * n
    ensures GateWords(MixGates(Append, h, gates, n), |h| + 4 * i, gates[i])
  {
    GatesLength(h, gates, n - 1);
    if i < n - 1 {
      WordsOfGate(h, gates, n - 1, i);
    }
  }

  lemma {:induction false} WordsOfHead(h: seq<nat>, gates: seq<Gate>, n: nat)
    requires n <= |gates|
    ensures h <= MixGates(Append, h, gates, n)
  {
    if n > 0 {
      WordsOfHead(h, gates, n - 1);
    }
  }

  lemma HeadWords(p: BooleanProgram)
    ensures
      var w := ProgramDigest(Append, [], p);
      |w| == 2 + 4 * |p.gates| && w[0] == 0xE && w[1] == p.numInputs
  {
    var h := MixInput(Append, [], p.numInputs);
    GatesLength(h, p.gates, |p.gates|);
    WordsOfHead(h, p.gates, |p.gates|);
    assert h[0] == 0xE && h[1] == p.numInputs;
  }

  /** The words the digest of a program hashes: 0xE and the input count, then op, operands and output of
      every gate. */
  lemma ProgramWords(p: BooleanProgram, i: nat)
    ensures
      var w := ProgramDigest(Append, [], p);
      && |w| == 2 + 4 * |p.gates| && w[0] == 0xE && w[1] == p.numInputs
      && (i < |p.gates| ==> GateWords(w, 2 + 4 * i, p.gates[i]))
  {
    HeadWords(p);
    if i < |p.gates| {
      WordsOfGate(MixInput(Append, [], p.numInputs), p.gates, |p.gates|, i);
    }
  }

  /** Two programs hash the same words if and only if they have the same input count and the same gates: what
      else tells them apart (outputs, wire count, reuse level) is not hashed. */
  lemma SameWordsIff(p: BooleanProgram, q: BooleanProgram)
    ensures ProgramDigest(Append, [], p) == ProgramDigest(Append, [], q)
       <==> p.numInputs == q.numInputs && p.gates == q.gates
  {
    HeadWords(p);
    HeadWords(q);
    if ProgramDigest(Append, [], p) == ProgramDigest(Append, [], q) {
      forall i | 0 <= i < |p.gates|
        ensures p.gates[i] == q.gates[i]
      {
        ProgramWords(p, i);
        ProgramWords(q, i);
      }
    }
  }

  /** The hashed words agree exactly when there was one input reservation: with none or several,
      only a collision of the mixing step can make the digests equal. */
  lemma SameWordsIffOneReservation(calls: seq<Call>, outputs: seq<nat>)
    requires RecRun(calls, |calls|).Some?
    ensures DigRun(Append, [], calls, |calls|).Some?
    ensures DigRun(Append, [], calls, |calls|).value.dig.digest
         == ProgramDigest(Append, [], Finished(RecRun(calls, |calls|).value.rec, outputs))
       <==> Reservations(calls, |calls|) == 1
  {
    RunInStep(Append, [], calls, |calls|);
    if Reservations(calls, |calls|) == 1 {
      DigestMatchesRecording(Append, [], calls, outputs);
    } else {
      var s := RecRun(calls, |calls|).value.rec;
      ReservationsLength(calls, |calls|);
      GatesLength(MixReservations(Append, [], calls, |calls|), s.gates, |s.gates|);
      GatesLength(MixInput(Append, [], s.numInputs), s.gates, |s.gates|);
    }
  }

  /** A reservation the recorder accepts. */
  lemma Reserved(calls: seq<Call>, n: nat, t: Trace, k: nat)
    requires n < |calls| && RecRun(calls, n) == Some(t) && calls[n] == Input(k) && Inputs(t.rec, k).Some?
    ensures RecRun(calls, n + 1).Some?
    ensures RecRun(calls, n + 1).value.rec == t.rec.(nextId := t.rec.nextId + k, numInputs := t.rec.numInputs + k)
  {
  }

  /** The recorder accepts two reservations in a row and records their sum. */
  lemma TwoAccepted(calls: seq<Call>, k: nat, l: nat)
    requires calls == [Input(k), Input(l)] && 1 <= k && 1 <= l && k + l <= UINT32_MAX
    ensures RecRun(calls, 2).Some? && RecRun(calls, 2).value.rec == FRESH.(nextId := k + l, numInputs := k + l)
  {
    Reserved(calls, 0, Trace(FRESH, []), k);
    Reserved(calls, 1, RecRun(calls, 1).value, l);
  }

  /** For every two widths, two reservations are hashed one after the other, while the recorded
      program's digest hashes their sum. */
  lemma TwoReservations<D>(mix: Mix<D>, basis: D, calls: seq<Call>, k: nat, l: nat)
    requires calls == [Input(k), Input(l)] && 1 <= k && 1 <= l && k + l <= UINT32_MAX
    ensures RecRun(calls, 2).Some? && DigRun(mix, basis, calls, 2).Some?
    ensures DigRun(mix, basis, calls, 2).value.dig.digest == MixInput(mix, MixInput(mix, basis, k), l)
    ensures ProgramDigest(mix, basis, Finished(RecRun(calls, 2).value.rec, [])) == MixInput(mix, basis, k + l)
  {
    TwoAccepted(calls, k, l);
    RunInStep(mix, basis, calls, 2);
    assert MixReservations(mix, basis, calls, 0) == basis;
    assert MixReservations(mix, basis, calls, 1) == MixInput(mix, basis, k);
    assert MixReservations(mix, basis, calls, 2) == MixInput(mix, MixInput(mix, basis, k), l);
  }

  /** So reserving one wire twice is recorded like reserving two, and hashed differently. */
  lemma TwoReservationsDiffer()
    ensures
      var calls := [Input(1), Input(1)];
      && RecRun(calls, 2).Some? && DigRun(Append, [], calls, 2).Some?
      && DigRun(Append, [], calls, 2).value.dig.digest
         != ProgramDigest(Append, [], Finished(RecRun(calls, 2).value.rec, []))
  {
    TwoReservations(Append, [], [Input(1), Input(1)], 1, 1);
    assert |MixInput(Append, MixInput(Append, [], 1), 1)| == 4;
    assert |MixInput(Append, [], 2)| == 2;
  }

  const FNV_BASIS: bv64 := 1469598103934665603

  /** The mixing step of the source: exclusive or, then a multiplication modulo 2^64. */
  function Fnv(h: bv64, x: bv64): bv64 {
    (h ^ x) * 1099511628211
  }

  /** x modulo 2^64. */
  function Word(x: nat): bv64 {
    if x == 0 then 0 else Word(x - 1) + 1
  }

  function FnvMix(h: bv64, x: nat): bv64 {
    Fnv(h, Word(x))
  }

  lemma FnvValuesDiffer()
    ensures Fnv(Fnv(Fnv(Fnv(FNV_BASIS, 0xE), 1), 0xE), 1) != Fnv(Fnv(FNV_BASIS, 0xE), 2)
  {
  }

  lemma FnvWords(h: bv64)
    ensures MixInput(FnvMix, h, 1) == Fnv(Fnv(h, 0xE), 1) && MixInput(FnvMix, h, 2) == Fnv(Fnv(h, 0xE), 2)
  {
    SmallWords();
  }

  lemma SmallWords()
    ensures Word(1) == 1 && Word(2) == 2 && Word(0xE) == 0xE
  {
    assert Word(6) == 6;
    assert Word(0xA) == 0xA;
  }

  /** The source's own hash tells the two apart as well. */
  lemma FnvDigestsDiffer()
    ensures
      var calls := [Input(1), Input(1)];
      && RecRun(calls, 2).Some? && DigRun(FnvMix, FNV_BASIS, calls, 2).Some?
      && DigRun(FnvMix, FNV_BASIS, calls, 2).value.dig.digest
         != ProgramDigest(FnvMix, FNV_BASIS, Finished(RecRun(calls, 2).value.rec, []))
  {
    TwoReservations(FnvMix, FNV_BASIS, [Input(1), Input(1)], 1, 1);
    FnvWords(FNV_BASIS);
    FnvWords(Fnv(Fnv(FNV_BASIS, 0xE), 1));
    FnvValuesDiffer();
  }

  // ---- the object ----

  class DigestCtx<D> {
    const mix: Mix<D>
    var digest: D
    var nextId: nat
    var c0: Option<nat>
    var c1: Option<nat>

    ghost function State(): Dig<D>
      reads this
    {
      Dig(digest, nextId, c0, c1)
    }

    constructor (mix: Mix<D>, basis: D)
      ensures this.mix == mix && State() == Dig(basis, 0, None, None)
    {
      this.mix, digest, nextId, c0, c1 := mix, basis, 0, None, None;
    }

    method ExternalInput(n: nat) returns (w: Option<nat>)
      modifies this
      ensures match DigInputs(mix, old(State()), n)
        case None => w == None && State() == old(State())
        case Some(m) => w == Some(m.wires[0]) && State() == m.dig
      ensures w == if n == 0 || old(nextId) + n > UINT32_MAX then None else Some(old(nextId))
      ensures w.Some? ==> nextId == old(nextId) + n && digest == mix(mix(old(digest), 0xE), n)
    {
      if n == 0 || n > UINT32_MAX - nextId { return None; }
      w := Some(nextId);
      nextId := nextId + n;
      digest := mix(digest, 0xE);
      digest := mix(digest, n);
    }

    method Push(op: Op, a: nat, b: nat) returns (w: Option<nat>)
      modifies this
      ensures match DigEmit(mix, old(State()), a, b, op)
        case None => w == None && State() == old(State())
        case Some(m) => w == Some(m.wires[0]) && State() == m.dig
      ensures w == if old(nextId) == UINT32_MAX then None else Some(old(nextId))
      ensures w.Some? ==>
        nextId == old(nextId) + 1 && digest == mix(mix(mix(mix(old(digest), OpCode(op)), a), b), old(nextId))
    {
      if nextId == UINT32_MAX { return None; }
      var o := nextId;
      nextId := nextId + 1;
      digest := mix(digest, OpCode(op));
      digest := mix(digest, a);
      digest := mix(digest, b);
      digest := mix(digest, o);
      w := Some(o);
    }

    method MakeBit(v: bool) returns (w: Option<nat>)
      modifies this
      ensures match DigBit(mix, old(State()), v)
        case None => w == None && State() == old(State())
        case Some(m) => w == Some(m.wires[0]) && State() == m.dig
      ensures w.Some? ==> w == if v then c1 else c0
      ensures old(if v then c1 else c0).Some? ==> w == old(if v then c1 else c0) && State() == old(State())
    {
      w := if v then c1 else c0;
      if w.None? {
        w := Push(if v then Const1 else Const0, 0, 0);
        if w.Some? {
          if v {
            c1 := w;
          } else {
            c0 := w;
          }
        }
      }
    }
  }
}
