/** The .empbc byte format (emp-tool/ir/empbc.h): what the writer lays out, and what the reader
    accepts. */
module Empbc {

  import opened Program
  import opened Wrappers
  import opened Execute

  type Byte = b: nat | b < 256

  const TWO16: nat := 0x1_0000
  const TWO32: nat := 0x1_0000_0000
  const HEADER_LEN: nat := 24

  // ---- fields ----

  function PutU16(v: nat): (r: seq<Byte>)
    ensures |r| == 2
  {
    [v % 256, (v / 256) % 256]
  }

  function PutU32(v: nat): (r: seq<Byte>)
    ensures |r| == 4
  {
    [v % 256, (v / 256) % 256, (v / 0x1_0000) % 256, (v / 0x100_0000) % 256]
  }

  /** An index on disk: two or four bytes. */
  function PutIdx(v: nat, iw: nat): (r: seq<Byte>)
    ensures |r| == Slot(iw)
  {
    if iw == 2 then PutU16(v) else PutU32(v)
  }

  function Slot(iw: nat): nat {
    if iw == 2 then 2 else 4
  }

  function U16At(b: seq<Byte>, pos: nat): nat
    requires pos + 2 <= |b|
  {
    b[pos] as int + 256 * (b[pos + 1] as int)
  }

  function U32At(b: seq<Byte>, pos: nat): nat
    requires pos + 4 <= |b|
  {
    b[pos] as int + 256 * (b[pos + 1] as int) + 0x1_0000 * (b[pos + 2] as int) + 0x100_0000 * (b[pos + 3] as int)
  }

  function IdxAt(b: seq<Byte>, pos: nat, iw: nat): nat
    requires pos + Slot(iw) <= |b|
  {
    if iw == 2 then U16At(b, pos) else U32At(b, pos)
  }

  /** s stands in b at position pos. */
  predicate Stands(b: seq<Byte>, pos: nat, s: seq<Byte>) {
    pos + |s| <= |b| && b[pos..pos + |s|] == s
  }

  lemma StandsAt(b: seq<Byte>, pos: nat, s: seq<Byte>, i: nat)
    requires Stands(b, pos, s) && i < |s|
    ensures b[pos + i] == s[i]
  {
    assert b[pos..pos + |s|][i] == b[pos + i];
  }

  lemma U16RoundTrip(b: seq<Byte>, pos: nat, v: nat)
    requires v < TWO16 && Stands(b, pos, PutU16(v))
    ensures U16At(b, pos) == v
  {
    StandsAt(b, pos, PutU16(v), 0);
    StandsAt(b, pos, PutU16(v), 1);
  }

  lemma U32Digits(v: nat)
    requires v < TWO32
    ensures v
         == v % 256 + 256 * ((v / 256) % 256) + 0x1_0000 * ((v / 0x1_0000) % 256) +
           0x100_0000 * ((v / 0x100_0000) % 256)
  {
    var a := v / 256;
    var c := a / 256;
    assert c == v / 0x1_0000 && c / 256 == v / 0x100_0000;
  }

  lemma U32RoundTrip(b: seq<Byte>, pos: nat, v: nat)
    requires v < TWO32 && Stands(b, pos, PutU32(v))
    ensures U32At(b, pos) == v
  {
    StandsAt(b, pos, PutU32(v), 0);
    StandsAt(b, pos, PutU32(v), 1);
    StandsAt(b, pos, PutU32(v), 2);
    StandsAt(b, pos, PutU32(v), 3);
    U32Digits(v);
  }

  predicate FitsIdx(v: nat, iw: nat) {
    v < if iw == 2 then TWO16 else TWO32
  }

  lemma IdxRoundTrip(b: seq<Byte>, pos: nat, v: nat, iw: nat)
    requires FitsIdx(v, iw) && Stands(b, pos, PutIdx(v, iw))
    ensures IdxAt(b, pos, iw) == v
  {
    if iw == 2 {
      U16RoundTrip(b, pos, v);
    } else {
      U32RoundTrip(b, pos, v);
    }
  }

  // ---- gate records ----

  function OpCode(op: Op): Byte {
    match op
    case And => 0
    case Xor => 1
    case Not => 2
    case Const0 => 3
    case Const1 => 4
  }

  function OpOf(c: nat): Option<Op> {
    if c == 0 then Some(And) else if c == 1 then Some(Xor) else if c == 2 then Some(Not)
    else if c == 3 then Some(Const0) else if c == 4 then Some(Const1) else None
  }

  function ReuseCode(w: WireReuse): Byte {
    match w
    case Dense => 0
    case Linear => 1
    case Full => 2
  }

  function ReuseOf(c: nat): Option<WireReuse> {
    if c == 0 then Some(Dense) else if c == 1 then Some(Linear) else if c == 2 then Some(Full) else None
  }

  /** Four slots a record: three indices, then the op padded with zeros. */
  function GateBytes(g: Gate, iw: nat): (r: seq<Byte>)
    ensures |r| == 4 * Slot(iw)
  {
    PutIdx(g.in0, iw) + PutIdx(g.in1, iw) + PutIdx(g.out, iw) +
      (if iw == 2 then [OpCode(g.op), 0] else [OpCode(g.op), 0, 0, 0])
  }

  function GateAt(b: seq<Byte>, pos: nat, iw: nat): Option<Gate>
    requires pos + 4 * Slot(iw) <= |b|
  {
    var s := Slot(iw);
    match OpOf(b[pos + 3 * s])
    case None => None
    case Some(op) => Some(Gate(IdxAt(b, pos, iw), IdxAt(b, pos + s, iw), IdxAt(b, pos + 2 * s, iw), op))
  }

  predicate GateFits(g: Gate, iw: nat) {
    FitsIdx(g.in0, iw) && FitsIdx(g.in1, iw) && FitsIdx(g.out, iw)
  }

  lemma StandsSplit(b: seq<Byte>, pos: nat, pre: seq<Byte>, last: seq<Byte>)
    requires Stands(b, pos, pre + last)
    ensures Stands(b, pos, pre) && Stands(b, pos + |pre|, last)
  {
    var s := pre + last;
    var t := b[pos..pos + |s|];
    assert b[pos..pos + |pre|] == t[..|pre|] == pre;
    assert b[pos + |pre|..pos + |pre| + |last|] == t[|pre|..] == last;
  }

  lemma GateRoundTrip(b: seq<Byte>, pos: nat, g: Gate, iw: nat)
    requires GateFits(g, iw) && Stands(b, pos, GateBytes(g, iw))
    ensures GateAt(b, pos, iw) == Some(g)
  {
    var x, y, z := PutIdx(g.in0, iw), PutIdx(g.in1, iw), PutIdx(g.out, iw);
    var w: seq<Byte> := if iw == 2 then [OpCode(g.op), 0] else [OpCode(g.op), 0, 0, 0];
    StandsSplit(b, pos, x + y + z, w);
    StandsSplit(b, pos, x + y, z);
    StandsSplit(b, pos, x, y);
    IdxRoundTrip(b, pos, g.in0, iw);
    IdxRoundTrip(b, pos + Slot(iw), g.in1, iw);
    IdxRoundTrip(b, pos + 2 * Slot(iw), g.out, iw);
    StandsAt(b, pos + 3 * Slot(iw), w, 0);
  }

  // ---- whole files ----

  /** Where gate record i starts, and where index i of the outputs starts after n records. */
  function GatePos(iw: nat, i: nat): nat {
    HEADER_LEN + if iw == 2 then 8 * i else 16 * i
  }

  function OutPos(iw: nat, n: nat, i: nat): nat {
    GatePos(iw, n) + if iw == 2 then 2 * i else 4 * i
  }

  function Header(p: BooleanProgram, iw: nat): (r: seq<Byte>)
    ensures |r| == HEADER_LEN
  {
    Magic() + PutU16(1) + [iw % 256, ReuseCode(p.wireReuse)] + PutU32(p.numWires) + PutU32(p.numInputs)
    + PutU32(|p.outputs|) + PutU32(|p.gates|)
  }

  /** 'E', 'M', 'P', 'B'. */
  function Magic(): (r: seq<Byte>)
    ensures |r| == 4
  {
    [0x45, 0x4D, 0x50, 0x42]
  }

  function EncodeGates(p: BooleanProgram, iw: nat, n: nat): (r: seq<Byte>)
    requires n <= |p.gates|
    ensures |r| == GatePos(iw, n)
  {
    if n == 0 then Header(p, iw) else EncodeGates(p, iw, n - 1) + GateBytes(p.gates[n - 1], iw)
  }

  function EncodeOutputs(p: BooleanProgram, iw: nat, n: nat): (r: seq<Byte>)
    requires n <= |p.outputs|
    ensures |r| == OutPos(iw, |p.gates|, n)
  {
    if n == 0 then EncodeGates(p, iw, |p.gates|) else EncodeOutputs(p, iw, n - 1) + PutIdx(p.outputs[n - 1], iw)
  }

  /** Two-byte indices whenever every wire id fits. */
  function IndexWidth(p: BooleanProgram): nat {
    if p.numWires <= 0xFFFF then 2 else 4
  }

  function Encode(p: BooleanProgram): seq<Byte> {
    EncodeOutputs(p, IndexWidth(p), |p.outputs|)
  }

  /** The writer: refuses an invalid program. */
  method Save(p: BooleanProgram) returns (r: Option<seq<Byte>>)
    ensures r == if Valid(p) then Some(Encode(p)) else None
  {
    var ok := ValidateProgram(p);
    if !ok { return None; }
    var iw := IndexWidth(p);
    var b := Header(p, iw);
    for i := 0 to |p.gates|
      invariant b == EncodeGates(p, iw, i)
    {
      b := b + GateBytes(p.gates[i], iw);
    }
    for i := 0 to |p.outputs|
      invariant b == EncodeOutputs(p, iw, i)
    {
      b := b + PutIdx(p.outputs[i], iw);
    }
    return Some(b);
  }

  // ---- decoding, by position ----

  datatype Head = Head(iw: nat, reuse: WireReuse, numWires: nat, numInputs: nat, numOutputs: nat, numGates: nat)

  function DecodeHead(b: seq<Byte>): Option<Head>
    ensures DecodeHead(b).Some? ==> |b| >= HEADER_LEN
  {
    if |b| < HEADER_LEN || b[..4] != Magic() || U16At(b, 4) != 1 || (b[6] != 2 && b[6] != 4) then None
    else match ReuseOf(b[7])
      case None => None
      case Some(w) => Some(Head(b[6], w, U32At(b, 8), U32At(b, 12), U32At(b, 16), U32At(b, 20)))
  }

  function DecodeGates(b: seq<Byte>, iw: nat, n: nat): (r: Option<seq<Gate>>)
    requires GatePos(iw, n) <= |b|
    ensures r.Some? ==> |r.value| == n
  {
    if n == 0 then Some([])
    else match DecodeGates(b, iw, n - 1)
      case None => None
      case Some(gs) =>
        match GateAt(b, GatePos(iw, n - 1), iw)
        case None => None
        case Some(g) => Some(gs + [g])
  }

  function DecodeOutputs(b: seq<Byte>, iw: nat, n: nat, k: nat): (r: seq<nat>)
    requires OutPos(iw, n, k) <= |b|
    ensures |r| == k
  {
    if k == 0 then [] else DecodeOutputs(b, iw, n, k - 1) + [IdxAt(b, OutPos(iw, n, k - 1), iw)]
  }

  /** The program a byte string stands for: the declared sizes must account for every byte. */
  ghost function Decode(b: seq<Byte>): Option<BooleanProgram> {
    match DecodeHead(b)
    case None => None
    case Some(h) =>
      if |b| != OutPos(h.iw, h.numGates, h.numOutputs) then None
      else match DecodeGates(b, h.iw, h.numGates)
        case None => None
        case Some(gs) =>
          var p := BooleanProgram(h.numWires, h.numInputs, h.reuse, gs,
                                  DecodeOutputs(b, h.iw, h.numGates, h.numOutputs));
          if Valid(p) then Some(p) else None
  }

  // ---- round trip ----

  /** The counts of a C++ program object. */
  predicate Fits32(p: BooleanProgram) {
    p.numWires < TWO32 && |p.gates| < TWO32 && |p.outputs| < TWO32
  }

  lemma {:induction false} GateStands(p: BooleanProgram, iw: nat, n: nat, b: seq<Byte>, i: nat)
    requires i < n <= |p.gates| && Stands(b, 0, EncodeGates(p, iw, n))
    ensures Stands(b, GatePos(iw, i), GateBytes(p.gates[i], iw))
    decreases n
  {
    var pre, last := EncodeGates(p, iw, n - 1), GateBytes(p.gates[n - 1], iw);
    assert EncodeGates(p, iw, n) == pre + last;
    if i < n - 1 {
      assert Stands(b, 0, pre) by {
        StandsSplit(b, 0, pre, last);
      }
      GateStands(p, iw, n - 1, b, i);
    } else {
      StandsSplit(b, 0, pre, last);
    }
  }

  lemma {:induction false} OutputStands(p: BooleanProgram, iw: nat, n: nat, b: seq<Byte>, i: nat)
    requires i < n <= |p.outputs| && Stands(b, 0, EncodeOutputs(p, iw, n))
    ensures Stands(b, OutPos(iw, |p.gates|, i), PutIdx(p.outputs[i], iw))
    decreases n
  {
    StandsSplit(b, 0, EncodeOutputs(p, iw, n - 1), PutIdx(p.outputs[n - 1], iw));
    if i < n - 1 {
      OutputStands(p, iw, n - 1, b, i);
    }
  }

  lemma {:induction false} GatesStand(p: BooleanProgram, iw: nat, n: nat, b: seq<Byte>)
    requires n <= |p.outputs| && Stands(b, 0, EncodeOutputs(p, iw, n))
    ensures Stands(b, 0, EncodeGates(p, iw, |p.gates|))
  {
    if n > 0 {
      StandsSplit(b, 0, EncodeOutputs(p, iw, n - 1), PutIdx(p.outputs[n - 1], iw));
      GatesStand(p, iw, n - 1, b);
    }
  }

  lemma {:induction false} HeaderStands(p: BooleanProgram, iw: nat, n: nat, b: seq<Byte>)
    requires n <= |p.gates| && Stands(b, 0, EncodeGates(p, iw, n))
    ensures Stands(b, 0, Header(p, iw))
  {
    if n > 0 {
      StandsSplit(b, 0, EncodeGates(p, iw, n - 1), GateBytes(p.gates[n - 1], iw));
      HeaderStands(p, iw, n - 1, b);
    }
  }

  /** Record i decodes to gate i. */
  predicate GateDecodes(p: BooleanProgram, iw: nat, b: seq<Byte>, i: nat)
    requires i < |p.gates|
  {
    GatePos(iw, i + 1) <= |b| && GateAt(b, GatePos(iw, i), iw) == Some(p.gates[i])
  }

  lemma GatesDecode(p: BooleanProgram, iw: nat, b: seq<Byte>)
    requires Stands(b, 0, EncodeGates(p, iw, |p.gates|))
    requires forall i :: 0 <= i < |p.gates| ==> GateFits(p.gates[i], iw)
    ensures forall i :: 0 <= i < |p.gates| ==> GateDecodes(p, iw, b, i)
  {
    forall i | 0 <= i < |p.gates|
      ensures GateDecodes(p, iw, b, i)
    {
      GateStands(p, iw, |p.gates|, b, i);
      GateRoundTrip(b, GatePos(iw, i), p.gates[i], iw);
    }
  }

  lemma {:induction false} GatesRoundTrip(p: BooleanProgram, iw: nat, b: seq<Byte>, n: nat)
    requires n <= |p.gates| && GatePos(iw, n) <= |b|
    requires forall i :: 0 <= i < |p.gates| ==> GateDecodes(p, iw, b, i)
    ensures DecodeGates(b, iw, n) == Some(p.gates[..n])
  {
    if n > 0 {
      GatesRoundTrip(p, iw, b, n - 1);
      assert GateDecodes(p, iw, b, n - 1);
      assert p.gates[..n] == p.gates[..n - 1] + [p.gates[n - 1]];
    }
  }

  predicate OutputDecodes(p: BooleanProgram, iw: nat, b: seq<Byte>, i: nat)
    requires i < |p.outputs|
  {
    OutPos(iw, |p.gates|, i + 1) <= |b| && IdxAt(b, OutPos(iw, |p.gates|, i), iw) == p.outputs[i]
  }

  lemma OutputsDecode(p: BooleanProgram, iw: nat, b: seq<Byte>)
    requires Stands(b, 0, EncodeOutputs(p, iw, |p.outputs|))
    requires forall i :: 0 <= i < |p.outputs| ==> FitsIdx(p.outputs[i], iw)
    ensures forall i :: 0 <= i < |p.outputs| ==> OutputDecodes(p, iw, b, i)
  {
    forall i | 0 <= i < |p.outputs|
      ensures OutputDecodes(p, iw, b, i)
    {
      OutputStands(p, iw, |p.outputs|, b, i);
      IdxRoundTrip(b, OutPos(iw, |p.gates|, i), p.outputs[i], iw);
    }
  }

  lemma {:induction false} OutputsRoundTrip(p: BooleanProgram, iw: nat, b: seq<Byte>, n: nat)
    requires n <= |p.outputs| && OutPos(iw, |p.gates|, n) <= |b|
    requires forall i :: 0 <= i < |p.outputs| ==> OutputDecodes(p, iw, b, i)
    ensures DecodeOutputs(b, iw, |p.gates|, n) == p.outputs[..n]
  {
    if n > 0 {
      OutputsRoundTrip(p, iw, b, n - 1);
      assert OutputDecodes(p, iw, b, n - 1);
      assert p.outputs[..n] == p.outputs[..n - 1] + [p.outputs[n - 1]];
    }
  }

  lemma HeadRoundTrip(p: BooleanProgram, iw: nat, b: seq<Byte>)
    requires Fits32(p) && p.numInputs <= p.numWires && (iw == 2 || iw == 4) && Stands(b, 0, Header(p, iw))
    ensures DecodeHead(b) == Some(Head(iw, p.wireReuse, p.numWires, p.numInputs, |p.outputs|, |p.gates|))
  {
    var m, v, f := Magic(), PutU16(1), [iw % 256, ReuseCode(p.wireReuse)];
    var a, c, d, e := PutU32(p.numWires), PutU32(p.numInputs), PutU32(|p.outputs|), PutU32(|p.gates|);
    StandsSplit(b, 0, m + v + f + a + c + d, e);
    StandsSplit(b, 0, m + v + f + a + c, d);
    StandsSplit(b, 0, m + v + f + a, c);
    StandsSplit(b, 0, m + v + f, a);
    StandsSplit(b, 0, m + v, f);
    StandsSplit(b, 0, m, v);
    assert b[..4] == b[0..4] == m;
    U16RoundTrip(b, 4, 1);
    StandsAt(b, 6, f, 0);
    StandsAt(b, 6, f, 1);
    U32RoundTrip(b, 8, p.numWires);
    U32RoundTrip(b, 12, p.numInputs);
    U32RoundTrip(b, 16, |p.outputs|);
    U32RoundTrip(b, 20, |p.gates|);
  }

  /** Every id of an accepted program fits the index width the writer picks. */
  lemma IdsFit(p: BooleanProgram)
    requires Valid(p) && Fits32(p)
    ensures forall i :: 0 <= i < |p.gates| ==> GateFits(p.gates[i], IndexWidth(p))
    ensures forall i :: 0 <= i < |p.outputs| ==> FitsIdx(p.outputs[i], IndexWidth(p))
  {
    forall i | 0 <= i < |p.gates|
      ensures GateFits(p.gates[i], IndexWidth(p))
    {
      assert GateOk(p, i);
      var g := p.gates[i];
      assert !g.IsConst() ==> g.Reads(g.in0);
      assert !g.IsConst() && !g.IsNot() ==> g.Reads(g.in1);
    }
  }

  /** Reading back what was written gives the program, in both index widths and every reuse level. */
  lemma RoundTrip(p: BooleanProgram)
    requires Valid(p) && Fits32(p)
    ensures Decode(Encode(p)) == Some(p)
  {
    var iw, b := IndexWidth(p), Encode(p);
    assert b[0..|b|] == b;
    IdsFit(p);
    GatesStand(p, iw, |p.outputs|, b);
    HeaderStands(p, iw, |p.gates|, b);
    HeadRoundTrip(p, iw, b);
    GatesDecode(p, iw, b);
    GatesRoundTrip(p, iw, b, |p.gates|);
    OutputsDecode(p, iw, b);
    OutputsRoundTrip(p, iw, b, |p.outputs|);
    assert p.gates[..|p.gates|] == p.gates && p.outputs[..|p.outputs|] == p.outputs;
  }

  // ---- re-saving ----

  lemma StandsJoin(b: seq<Byte>, pos: nat, pre: seq<Byte>, last: seq<Byte>)
    requires Stands(b, pos, pre) && Stands(b, pos + |pre|, last)
    ensures Stands(b, pos, pre + last)
  {
    var n := |pre|;
    assert b[pos..pos + n + |last|] == b[pos..pos + n] + b[pos + n..pos + n + |last|];
  }

  lemma U16Back(b: seq<Byte>, pos: nat)
    requires pos + 2 <= |b|
    ensures Stands(b, pos, PutU16(U16At(b, pos)))
  {
    assert b[pos..pos + 2] == [b[pos], b[pos + 1]];
  }

  lemma Digits(x: nat, y: nat, z: nat, w: nat)
    requires x < 256 && y < 256 && z < 256 && w < 256
    ensures
      var v := x + 256 * y + 0x1_0000 * z + 0x100_0000 * w;
      v % 256 == x && (v / 256) % 256 == y && (v / 0x1_0000) % 256 == z && (v / 0x100_0000) % 256 == w
  {
    var v := x + 256 * y + 0x1_0000 * z + 0x100_0000 * w;
    assert v / 256 == y + 256 * z + 0x1_0000 * w;
    assert v / 0x1_0000 == z + 256 * w;
    assert v / 0x100_0000 == w;
  }

  lemma U32Back(b: seq<Byte>, pos: nat)
    requires pos + 4 <= |b|
    ensures Stands(b, pos, PutU32(U32At(b, pos)))
  {
    Digits(b[pos], b[pos + 1], b[pos + 2], b[pos + 3]);
    assert b[pos..pos + 4] == [b[pos], b[pos + 1], b[pos + 2], b[pos + 3]];
  }

  lemma IdxBack(b: seq<Byte>, pos: nat, iw: nat)
    requires pos + Slot(iw) <= |b|
    ensures Stands(b, pos, PutIdx(IdxAt(b, pos, iw), iw))
  {
    if iw == 2 {
      U16Back(b, pos);
    } else {
      U32Back(b, pos);
    }
  }

  /** The bytes of record i after its op are zero. */
  predicate ReservedZero(b: seq<Byte>, iw: nat, i: nat)
    requires GatePos(iw, i + 1) <= |b|
  {
    var at := GatePos(iw, i) + 3 * Slot(iw);
    b[at + 1] == 0 && (iw != 2 ==> b[at + 2] == 0 && b[at + 3] == 0)
  }

  lemma GateBack(b: seq<Byte>, iw: nat, i: nat)
    requires GatePos(iw, i + 1) <= |b| && GateAt(b, GatePos(iw, i), iw).Some?
    ensures Stands(b, GatePos(iw, i), GateBytes(GateAt(b, GatePos(iw, i), iw).value, iw)) <==> ReservedZero(b, iw, i)
  {
    var pos, s, g := GatePos(iw, i), Slot(iw), GateAt(b, GatePos(iw, i), iw).value;
    var x, y, z := PutIdx(g.in0, iw), PutIdx(g.in1, iw), PutIdx(g.out, iw);
    var w: seq<Byte> := if iw == 2 then [OpCode(g.op), 0] else [OpCode(g.op), 0, 0, 0];
    IdxBack(b, pos, iw);
    IdxBack(b, pos + s, iw);
    IdxBack(b, pos + 2 * s, iw);
    StandsJoin(b, pos, x, y);
    StandsJoin(b, pos, x + y, z);
    OpBack(b, pos + 3 * s, iw, g.op);
    if ReservedZero(b, iw, i) {
      StandsJoin(b, pos, x + y + z, w);
    }
    if Stands(b, pos, GateBytes(g, iw)) {
      StandsSplit(b, pos, x + y + z, w);
    }
  }

  /** The last slot of a record. */
  lemma OpBack(b: seq<Byte>, at: nat, iw: nat, op: Op)
    requires at + Slot(iw) <= |b| && b[at] == OpCode(op)
    ensures Stands(b, at, if iw == 2 then [OpCode(op), 0] else [OpCode(op), 0, 0, 0])
       <==> b[at + 1] == 0 && (iw != 2 ==> b[at + 2] == 0 && b[at + 3] == 0)
  {
    if iw == 2 {
      assert b[at..at + 2] == [b[at], b[at + 1]];
    } else {
      assert b[at..at + 4] == [b[at], b[at + 1], b[at + 2], b[at + 3]];
    }
  }

  lemma HeadBack(b: seq<Byte>, p: BooleanProgram, iw: nat)
    requires DecodeHead(b) == Some(Head(iw, p.wireReuse, p.numWires, p.numInputs, |p.outputs|, |p.gates|))
    ensures Stands(b, 0, Header(p, iw))
  {
    var m, v, f := Magic(), PutU16(1), [iw % 256, ReuseCode(p.wireReuse)];
    var a, c, d, e := PutU32(p.numWires), PutU32(p.numInputs), PutU32(|p.outputs|), PutU32(|p.gates|);
    assert b[0..4] == b[..4] == m;
    U16Back(b, 4);
    assert b[6..8] == [b[6], b[7]] == f;
    U32Back(b, 8);
    U32Back(b, 12);
    U32Back(b, 16);
    U32Back(b, 20);
    StandsJoin(b, 0, m, v);
    StandsJoin(b, 0, m + v, f);
    StandsJoin(b, 0, m + v + f, a);
    StandsJoin(b, 0, m + v + f + a, c);
    StandsJoin(b, 0, m + v + f + a + c, d);
    StandsJoin(b, 0, m + v + f + a + c + d, e);
  }

  lemma {:induction false} DecodedGate(b: seq<Byte>, iw: nat, n: nat, i: nat)
    requires i < n && GatePos(iw, n) <= |b| && DecodeGates(b, iw, n).Some?
    ensures GateAt(b, GatePos(iw, i), iw) == Some(DecodeGates(b, iw, n).value[i])
  {
    if i < n - 1 {
      DecodedGate(b, iw, n - 1, i);
    }
  }

  lemma {:induction false} DecodedOutput(b: seq<Byte>, iw: nat, n: nat, k: nat, i: nat)
    requires i < k && OutPos(iw, n, k) <= |b|
    ensures DecodeOutputs(b, iw, n, k)[i] == IdxAt(b, OutPos(iw, n, i), iw)
  {
    if i < k - 1 {
      DecodedOutput(b, iw, n, k - 1, i);
    }
  }

  lemma {:induction false} GatesBack(b: seq<Byte>, p: BooleanProgram, iw: nat, n: nat)
    requires n <= |p.gates| && GatePos(iw, n) <= |b| && Stands(b, 0, Header(p, iw))
    requires forall i :: 0 <= i < n ==> Stands(b, GatePos(iw, i), GateBytes(p.gates[i], iw))
    ensures Stands(b, 0, EncodeGates(p, iw, n))
  {
    if n > 0 {
      GatesBack(b, p, iw, n - 1);
      StandsJoin(b, 0, EncodeGates(p, iw, n - 1), GateBytes(p.gates[n - 1], iw));
    }
  }

  lemma {:induction false} OutputsBack(b: seq<Byte>, p: BooleanProgram, iw: nat, n: nat)
    requires n <= |p.outputs| && OutPos(iw, |p.gates|, n) <= |b| && Stands(b, 0, EncodeGates(p, iw, |p.gates|))
    requires forall i :: 0 <= i < n ==> IdxAt(b, OutPos(iw, |p.gates|, i), iw) == p.outputs[i]
    ensures Stands(b, 0, EncodeOutputs(p, iw, n))
  {
    if n > 0 {
      OutputsBack(b, p, iw, n - 1);
      IdxBack(b, OutPos(iw, |p.gates|, n - 1), iw);
      StandsJoin(b, 0, EncodeOutputs(p, iw, n - 1), PutIdx(p.outputs[n - 1], iw));
    }
  }

  /** What an accepted file says about its program. */
  lemma Decoded(b: seq<Byte>)
    requires Decode(b).Some?
    ensures
      var p, iw := Decode(b).value, DecodeHead(b).value.iw;
      && DecodeHead(b) == Some(Head(iw, p.wireReuse, p.numWires, p.numInputs, |p.outputs|, |p.gates|))
      && |b| == OutPos(iw, |p.gates|, |p.outputs|) && (iw == 2 || iw == 4)
      && (forall i :: 0 <= i < |p.gates| ==> RecordIs(b, p, iw, i))
      && (forall i :: 0 <= i < |p.outputs| ==> IdxAt(b, OutPos(iw, |p.gates|, i), iw) == p.outputs[i])
  {
    var p, h := Decode(b).value, DecodeHead(b).value;
    forall i | 0 <= i < |p.gates|
      ensures RecordIs(b, p, h.iw, i)
    {
      DecodedGate(b, h.iw, h.numGates, i);
    }
    forall i | 0 <= i < |p.outputs|
      ensures IdxAt(b, OutPos(h.iw, |p.gates|, i), h.iw) == p.outputs[i]
    {
      DecodedOutput(b, h.iw, h.numGates, h.numOutputs, i);
    }
  }

  predicate RecordIs(b: seq<Byte>, p: BooleanProgram, iw: nat, i: nat)
    requires i < |p.gates|
  {
    GatePos(iw, i + 1) <= |b| && GateAt(b, GatePos(iw, i), iw) == Some(p.gates[i])
  }

  /** All reserved bytes are zero. */
  predicate Clean(b: seq<Byte>, iw: nat, n: nat)
    requires GatePos(iw, n) <= |b|
  {
    forall i :: 0 <= i < n ==> ReservedZero(b, iw, i)
  }

  /** Saving what was loaded gives back the same bytes if and only if the file uses the narrowest
      index width and its reserved bytes are zero; the reader checks neither. */
  lemma ResaveIff(b: seq<Byte>)
    requires Decode(b).Some?
    ensures
      var p, iw := Decode(b).value, DecodeHead(b).value.iw;
      && GatePos(iw, |p.gates|) <= |b|
      && (Encode(p) == b <==> iw == IndexWidth(p) && Clean(b, iw, |p.gates|))
  {
    var p, iw := Decode(b).value, DecodeHead(b).value.iw;
    Decoded(b);
    if iw == IndexWidth(p) && Clean(b, iw, |p.gates|) {
      CleanResaves(b, p, iw);
    }
    if Encode(p) == b {
      ResavedIsClean(b, p, iw);
    }
  }

  lemma CleanResaves(b: seq<Byte>, p: BooleanProgram, iw: nat)
    requires DecodeHead(b) == Some(Head(iw, p.wireReuse, p.numWires, p.numInputs, |p.outputs|, |p.gates|))
    requires |b| == OutPos(iw, |p.gates|, |p.outputs|) && iw == IndexWidth(p) && Clean(b, iw, |p.gates|)
    requires forall i :: 0 <= i < |p.gates| ==> RecordIs(b, p, iw, i)
    requires forall i :: 0 <= i < |p.outputs| ==> IdxAt(b, OutPos(iw, |p.gates|, i), iw) == p.outputs[i]
    ensures Encode(p) == b
  {
    HeadBack(b, p, iw);
    forall i | 0 <= i < |p.gates|
      ensures Stands(b, GatePos(iw, i), GateBytes(p.gates[i], iw))
    {
      assert RecordIs(b, p, iw, i) && ReservedZero(b, iw, i);
      GateBack(b, iw, i);
    }
    GatesBack(b, p, iw, |p.gates|);
    OutputsBack(b, p, iw, |p.outputs|);
    assert b[0..|b|] == b;
  }

  lemma ResavedIsClean(b: seq<Byte>, p: BooleanProgram, iw: nat)
    requires DecodeHead(b) == Some(Head(iw, p.wireReuse, p.numWires, p.numInputs, |p.outputs|, |p.gates|))
    requires |b| == OutPos(iw, |p.gates|, |p.outputs|) && Encode(p) == b && (iw == 2 || iw == 4)
    requires forall i :: 0 <= i < |p.gates| ==> RecordIs(b, p, iw, i)
    ensures iw == IndexWidth(p) && Clean(b, iw, |p.gates|)
  {
    var w := IndexWidth(p);
    assert b[0..|b|] == b;
    GatesStand(p, w, |p.outputs|, b);
    HeaderStands(p, w, |p.gates|, b);
    StandsAt(b, 0, Header(p, w), 6);
    assert Header(p, w)[6] == w;
    forall i | 0 <= i < |p.gates|
      ensures ReservedZero(b, iw, i)
    {
      assert RecordIs(b, p, iw, i);
      GateStands(p, w, |p.gates|, b, i);
      GateBack(b, iw, i);
    }
  }

  // ---- the reader ----

  /** A cursor over the bytes. `Need` is the bounds check every read makes first. */
  class Reader {
    const b: seq<Byte>
    var pos: nat

    constructor (bytes: seq<Byte>)
      ensures b == bytes && pos == 0
    {
      b := bytes;
      pos := 0;
    }

    predicate Need(k: nat)
      reads this
    {
      pos <= |b| && k <= |b| - pos
    }

    method U8() returns (v: nat)
      requires Need(1)
      modifies this
      ensures pos == old(pos) + 1 && v == b[old(pos)]
    {
      v := b[pos];
      pos := pos + 1;
    }

    method U16() returns (v: nat)
      requires Need(2)
      modifies this
      ensures pos == old(pos) + 2 && v == U16At(b, old(pos))
    {
      v := b[pos] as int + 256 * (b[pos + 1] as int);
      pos := pos + 2;
    }

    method U32() returns (v: nat)
      requires Need(4)
      modifies this
      ensures pos == old(pos) + 4 && v == U32At(b, old(pos))
    {
      v := b[pos] as int + 256 * (b[pos + 1] as int) + 0x1_0000 * (b[pos + 2] as int) +
        0x100_0000 * (b[pos + 3] as int);
      pos := pos + 4;
    }

    method Idx(iw: nat) returns (v: nat)
      requires Need(Slot(iw))
      modifies this
      ensures pos == old(pos) + Slot(iw) && v == IdxAt(b, old(pos), iw)
    {
      if iw == 2 {
        v := U16();
      } else {
        v := U32();
      }
    }

    /** One record; the reserved bytes after the op are skipped unread. */
    method GateRecord(iw: nat) returns (g: Option<Gate>)
      requires Need(4 * Slot(iw))
      modifies this
      ensures g == GateAt(b, old(pos), iw)
      ensures g.Some? ==> pos == old(pos) + 4 * Slot(iw)
    {
      var in0 := Idx(iw);
      var in1 := Idx(iw);
      var out := Idx(iw);
      var code := U8();
      var op := OpOf(code);
      if op.None? { return None; }
      var _ := U8();
      if iw != 2 {
        var _ := U8();
        var _ := U8();
      }
      return Some(Gate(in0, in1, out, op.value));
    }

    /** The fields up to the counts. */
    method ReadHead() returns (h: Option<Head>)
      requires pos == 0
      modifies this
      ensures h == DecodeHead(b)
      ensures h.Some? ==> pos == HEADER_LEN
    {
      var magic := Magic();
      for i := 0 to 4
        invariant pos == i <= |b| && b[..i] == magic[..i]
      {
        if !Need(1) { return None; }
        var m := U8();
        if m != magic[i] {
          assert |b| < 4 || b[..4][i] != magic[i];
          return None;
        }
      }
      assert b[..4] == magic;
      if !Need(2) { return None; }
      var version := U16();
      if version != 1 { return None; }
      if !Need(1) { return None; }
      var iw := U8();
      if iw != 2 && iw != 4 { return None; }
      if !Need(1) { return None; }
      var flags := U8();
      var reuse := ReuseOf(flags);
      if reuse.None? { return None; }
      if !Need(4) { return None; }
      var numWires := U32();
      if !Need(4) { return None; }
      var numInputs := U32();
      if !Need(4) { return None; }
      var numOutputs := U32();
      if !Need(4) { return None; }
      var numGates := U32();
      return Some(Head(iw, reuse.value, numWires, numInputs, numOutputs, numGates));
    }

    method ReadGates(iw: nat, n: nat) returns (gates: Option<seq<Gate>>)
      requires pos == HEADER_LEN && GatePos(iw, n) <= |b|
      modifies this
      ensures gates == DecodeGates(b, iw, n)
      ensures gates.Some? ==> pos == GatePos(iw, n)
    {
      var gs: seq<Gate> := [];
      for i := 0 to n
        invariant pos == GatePos(iw, i) && DecodeGates(b, iw, i) == Some(gs)
      {
        var g := GateRecord(iw);
        if g.None? {
          StaysUndecoded(b, iw, i + 1, n);
          return None;
        }
        gs := gs + [g.value];
      }
      return Some(gs);
    }

    method ReadOutputs(iw: nat, n: nat, k: nat) returns (outputs: seq<nat>)
      requires pos == GatePos(iw, n) && OutPos(iw, n, k) <= |b|
      modifies this
      ensures outputs == DecodeOutputs(b, iw, n, k) && pos == OutPos(iw, n, k)
    {
      outputs := [];
      for i := 0 to k
        invariant pos == OutPos(iw, n, i) && outputs == DecodeOutputs(b, iw, n, i)
      {
        var o := Idx(iw);
        outputs := outputs + [o];
      }
    }
  }

  lemma {:induction false} StaysUndecoded(b: seq<Byte>, iw: nat, m: nat, n: nat)
    requires m <= n && GatePos(iw, n) <= |b| && DecodeGates(b, iw, m) == None
    ensures DecodeGates(b, iw, n) == None
  {
    if m < n {
      StaysUndecoded(b, iw, m, n - 1);
    }
  }

  /** The loader: after the exact size check no read can run past the end, an accepted file is
      consumed to its last byte, and what comes out is a valid program. */
  method Load(bytes: seq<Byte>) returns (r: Option<BooleanProgram>, used: nat)
    ensures r == Decode(bytes)
    ensures r.Some? ==> Valid(r.value) && used == |bytes|
  {
    var rd := new Reader(bytes);
    used := 0;
    var h := rd.ReadHead();
    if h.None? { return None, 0; }
    var head := h.value;
    if OutPos(head.iw, head.numGates, head.numOutputs) != |bytes| { return None, 0; }
    var gates := rd.ReadGates(head.iw, head.numGates);
    if gates.None? { return None, 0; }
    var outputs := rd.ReadOutputs(head.iw, head.numGates, head.numOutputs);
    var p := BooleanProgram(head.numWires, head.numInputs, head.reuse, gates.value, outputs);
    var ok := ValidateProgram(p);
    if !ok { return None, 0; }
    return Some(p), rd.pos;
  }

  /** Saving and loading, as calls. */
  method SaveThenLoad(p: BooleanProgram) returns (r: Option<BooleanProgram>)
    requires Fits32(p)
    ensures r == if Valid(p) then Some(p) else None
  {
    var b := Save(p);
    if b.None? { return None; }
    RoundTrip(p);
    var used;
    r, used := Load(b.value);
  }
}
