/** Which byte of a written .empbc file is what (emp-tool/ir/empbc.h), at fixed offsets. */
module EmpbcBytes {

  import opened Program
  import opened Empbc

  /** The bytes of a small field, lowest first. */
  predicate Le16(b: seq<Byte>, pos: nat, v: nat) {
    pos + 2 <= |b| && b[pos] == v % 256 && b[pos + 1] == (v / 256) % 256
  }

  predicate Le32(b: seq<Byte>, pos: nat, v: nat) {
    pos + 4 <= |b| && b[pos] == v % 256 && b[pos + 1] == (v / 256) % 256
    && b[pos + 2] == (v / 65536) % 256 && b[pos + 3] == (v / 16777216) % 256
  }

  lemma IdxBytes(b: seq<Byte>, pos: nat, v: nat, iw: nat)
    requires Stands(b, pos, PutIdx(v, iw))
    ensures if iw == 2 then Le16(b, pos, v) else Le32(b, pos, v)
  {
    StandsAt(b, pos, PutIdx(v, iw), 0);
    StandsAt(b, pos, PutIdx(v, iw), 1);
    if iw != 2 {
      StandsAt(b, pos, PutIdx(v, iw), 2);
      StandsAt(b, pos, PutIdx(v, iw), 3);
    }
  }

  lemma EncodeStands(p: BooleanProgram)
    ensures
      var b, iw := Encode(p), IndexWidth(p);
      && Stands(b, 0, EncodeOutputs(p, iw, |p.outputs|)) && Stands(b, 0, EncodeGates(p, iw, |p.gates|))
      && Stands(b, 0, Header(p, iw))
  {
    var b, iw := Encode(p), IndexWidth(p);
    assert b[0..|b|] == b;
    GatesStand(p, iw, |p.outputs|, b);
    HeaderStands(p, iw, |p.gates|, b);
  }

  /** The header of a written file, byte by byte. */
  lemma HeaderBytes(p: BooleanProgram)
    ensures
      var b := Encode(p);
      && |b| == (if p.numWires <= 0xFFFF then 24 + 8 * |p.gates| + 2 * |p.outputs|
                 else 24 + 16 * |p.gates| + 4 * |p.outputs|)
      && b[..8] == [0x45, 0x4D, 0x50, 0x42, 1, 0, if p.numWires <= 0xFFFF then 2 else 4,
                    match p.wireReuse case Dense => 0 case Linear => 1 case Full => 2]
      && Le32(b, 8, p.numWires) && Le32(b, 12, p.numInputs) && Le32(b, 16, |p.outputs|) && Le32(b, 20, |p.gates|)
  {
    var b, iw := Encode(p), IndexWidth(p);
    EncodeStands(p);
    HeaderParts(p, iw, b);
  }

  lemma HeaderParts(p: BooleanProgram, iw: nat, b: seq<Byte>)
    requires (iw == 2 || iw == 4) && Stands(b, 0, Header(p, iw))
    ensures b[..8]
         == [0x45, 0x4D, 0x50, 0x42, 1, 0, iw, match p.wireReuse case Dense => 0 case Linear => 1 case Full => 2]
    ensures Le32(b, 8, p.numWires) && Le32(b, 12, p.numInputs) && Le32(b, 16, |p.outputs|) && Le32(b, 20, |p.gates|)
  {
    var m, v, f := Magic(), PutU16(1), [iw % 256, ReuseCode(p.wireReuse)];
    var a, c, d, e := PutU32(p.numWires), PutU32(p.numInputs), PutU32(|p.outputs|), PutU32(|p.gates|);
    StandsSplit(b, 0, m + v + f + a + c + d, e);
    StandsSplit(b, 0, m + v + f + a + c, d);
    StandsSplit(b, 0, m + v + f + a, c);
    StandsSplit(b, 0, m + v + f, a);
    FirstBytes(b, iw, p.wireReuse);
    IdxBytes(b, 8, p.numWires, 4);
    IdxBytes(b, 12, p.numInputs, 4);
    IdxBytes(b, 16, |p.outputs|, 4);
    IdxBytes(b, 20, |p.gates|, 4);
  }

  lemma FirstBytes(b: seq<Byte>, iw: nat, w: WireReuse)
    requires (iw == 2 || iw == 4) && Stands(b, 0, Magic() + PutU16(1) + [iw % 256, ReuseCode(w)])
    ensures b[..8] == [0x45, 0x4D, 0x50, 0x42, 1, 0, iw, match w case Dense => 0 case Linear => 1 case Full => 2]
  {
    assert b[..8] == b[0..8];
  }

  /** Gate record i of a written file: 8 bytes from 24 + 8 i on, or 16 from 24 + 16 i on. */
  lemma RecordBytes(p: BooleanProgram, i: nat)
    requires i < |p.gates|
    ensures
      var b, g := Encode(p), p.gates[i];
      var code := match g.op case And => 0 case Xor => 1 case Not => 2 case Const0 => 3 case Const1 => 4;
      if p.numWires <= 0xFFFF then
        var at := 24 + 8 * i;
        && Le16(b, at, g.in0) && Le16(b, at + 2, g.in1) && Le16(b, at + 4, g.out) && at + 8 <= |b|
        && b[at + 6] == code && b[at + 7] == 0
      else
        var at := 24 + 16 * i;
        && Le32(b, at, g.in0) && Le32(b, at + 4, g.in1) && Le32(b, at + 8, g.out) && at + 16 <= |b|
        && b[at + 12] == code && b[at + 13] == 0 && b[at + 14] == 0 && b[at + 15] == 0
  {
    var b, iw, g := Encode(p), IndexWidth(p), p.gates[i];
    EncodeStands(p);
    GateStands(p, iw, |p.gates|, b, i);
    RecordParts(b, GatePos(iw, i), g, iw);
  }

  lemma RecordParts(b: seq<Byte>, pos: nat, g: Gate, iw: nat)
    requires Stands(b, pos, GateBytes(g, iw))
    ensures
      var code := match g.op case And => 0 case Xor => 1 case Not => 2 case Const0 => 3 case Const1 => 4;
      if iw == 2 then
        && Le16(b, pos, g.in0) && Le16(b, pos + 2, g.in1) && Le16(b, pos + 4, g.out) && pos + 8 <= |b|
        && b[pos + 6] == code && b[pos + 7] == 0
      else
        && Le32(b, pos, g.in0) && Le32(b, pos + 4, g.in1) && Le32(b, pos + 8, g.out) && pos + 16 <= |b|
        && b[pos + 12] == code && b[pos + 13] == 0 && b[pos + 14] == 0 && b[pos + 15] == 0
  {
    var x, y, z := PutIdx(g.in0, iw), PutIdx(g.in1, iw), PutIdx(g.out, iw);
    var w: seq<Byte> := if iw == 2 then [OpCode(g.op), 0] else [OpCode(g.op), 0, 0, 0];
    StandsSplit(b, pos, x + y + z, w);
    StandsSplit(b, pos, x + y, z);
    StandsSplit(b, pos, x, y);
    IdxBytes(b, pos, g.in0, iw);
    IdxBytes(b, pos + Slot(iw), g.in1, iw);
    IdxBytes(b, pos + 2 * Slot(iw), g.out, iw);
    forall k | 0 <= k < |w| ensures b[pos + 3 * Slot(iw) + k] == w[k] {
      StandsAt(b, pos + 3 * Slot(iw), w, k);
    }
    StandsAt(b, pos + 3 * Slot(iw), w, 0);
    StandsAt(b, pos + 3 * Slot(iw), w, 1);
  }

  /** Output i of a written file follows the records. */
  lemma OutputBytes(p: BooleanProgram, i: nat)
    requires i < |p.outputs|
    ensures if p.numWires <= 0xFFFF then Le16(Encode(p), 24 + 8 * |p.gates| + 2 * i, p.outputs[i])
            else Le32(Encode(p), 24 + 16 * |p.gates| + 4 * i, p.outputs[i])
  {
    var b, iw := Encode(p), IndexWidth(p);
    EncodeStands(p);
    OutputStands(p, iw, |p.outputs|, b, i);
    IdxBytes(b, OutPos(iw, |p.gates|, i), p.outputs[i], iw);
  }
}
