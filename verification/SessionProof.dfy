/** Every run of the chunked session reveals what the eager session reveals. */
module SessionProof {
  import opened Program
  import opened Wrappers
  import opened Execute
  import opened FlushPlan
  import opened Session

  // ---- counting handles ----

  lemma HoldersBind(handles: map<Handle, nat>, h: Handle, id: nat, x: nat)
    requires h !in handles
    ensures Holders(handles[h := id], x) == if x == id then Holders(handles, x) + {h} else Holders(handles, x)
  {
  }

  lemma CountedBind(rc: seq<int>, handles: map<Handle, nat>, h: Handle, id: nat)
    requires Counted(rc, handles) && h !in handles && id < |rc|
    ensures Counted(Pin(rc, id), handles[h := id])
  {
    forall x | 0 < x < |rc| ensures Pin(rc, id)[x] == |Holders(handles[h := id], x)| {
      HoldersBind(handles, h, id, x);
    }
  }

  lemma CountedDrop(rc: seq<int>, handles: map<Handle, nat>, h: Handle)
    requires Counted(rc, handles) && h in handles
    ensures Counted(Unpin(rc, handles[h]), handles - {h})
  {
    var rest, id := handles - {h}, handles[h];
    forall x | 0 < x < |rc| ensures Unpin(rc, id)[x] == |Holders(rest, x)| {
      assert rest[h := id] == handles;
      HoldersBind(rest, h, id, x);
    }
  }

  /** A move hands the count over: the table is untouched. */
  lemma CountedMove(rc: seq<int>, handles: map<Handle, nat>, h: Handle, src: Handle)
    requires Counted(rc, handles) && h !in handles && src in handles
    ensures Counted(rc, handles[h := handles[src]][src := 0])
  {
    var id := handles[src];
    CountedDrop(rc, handles, src);
    CountedBind(Unpin(rc, id), handles - {src}, h, id);
    assert Pin(Unpin(rc, id), id) == rc;
    CountedBind(rc, (handles - {src})[h := id], src, 0);
    assert (handles - {src})[h := id][src := 0] == handles[h := id][src := 0];
  }

  lemma CountedAssign(rc: seq<int>, handles: map<Handle, nat>, h: Handle, id: nat)
    requires Counted(rc, handles) && h in handles && id < |rc|
    ensures Counted(Pin(Unpin(rc, handles[h]), id), handles[h := id])
  {
    CountedDrop(rc, handles, h);
    CountedBind(Unpin(rc, handles[h]), handles - {h}, h, id);
    assert (handles - {h})[h := id] == handles[h := id];
  }

  lemma CountedMoveAssign(rc: seq<int>, handles: map<Handle, nat>, h: Handle, src: Handle)
    requires Counted(rc, handles) && h in handles && src in handles && h != src
    ensures Counted(Unpin(rc, handles[h]), handles[h := handles[src]][src := 0])
  {
    CountedDrop(rc, handles, h);
    CountedMove(Unpin(rc, handles[h]), handles - {h}, h, src);
    assert (handles - {h})[h := handles[src]][src := 0] == handles[h := handles[src]][src := 0];
  }

  /** New ids start with count 0. */
  lemma CountedGrow(rc: seq<int>, handles: map<Handle, nat>, n: nat)
    requires Counted(rc, handles)
    ensures Counted(rc + Zeros(n), handles)
  {
    forall x | 0 < x < |rc| + n ensures (rc + Zeros(n))[x] == |Holders(handles, x)| {
      if x >= |rc| {
        assert Holders(handles, x) == {};
      }
    }
  }

  /** A count is positive exactly when some handle is on the id. */
  lemma CountMeansHeld(s: State, id: nat)
    requires Counted(s.rc, s.handles) && 0 < id < |s.rc|
    ensures InScope(s, id) <==> exists h :: h in s.handles && s.handles[h] == id
  {
    if h :| h in s.handles && s.handles[h] == id {
      assert h in Holders(s.handles, id);
    } else {
      assert Holders(s.handles, id) == {};
    }
  }

  // ---- values ----

  lemma BackedInRange(s: State, id: nat)
    requires Inv(s) && Backed(s, id)
    ensures 0 < id < |s.rc|
  {
  }

  /** Recording a gate evaluates it and changes nothing older. */
  lemma ValueAppend(s: State, s': State, g: Gate)
    requires s'.gates == s.gates + [g] && s'.carried == s.carried
    ensures Value(s', g.out) == GateValue(Clear(), g, ExecTo(Clear(), s.gates, |s.gates|, s.carried))
    ensures forall id: nat :: id != g.out ==> Value(s', id) == Value(s, id)
  {
    ExecPrefix(Clear(), s.gates, s'.gates, |s.gates|, s.carried);
  }

  lemma {:induction false} ChunkKeeps(gates: seq<Gate>, n: nat, m: map<nat, bool>, id: nat)
    requires n <= |gates| && !Local(gates, id)
    ensures Read(Clear(), ExecTo(Clear(), gates, n, m), id) == Read(Clear(), m, id)
  {
    if n > 0 {
      assert gates[n - 1].out != id;
      ChunkKeeps(gates, n - 1, m, id);
    }
  }

  /** A materialized id keeps its bit. */
  lemma ValueOfCarried(s: State, id: nat)
    requires Inv(s) && id in s.carried
    ensures Value(s, id) == s.carried[id]
  {
    ChunkKeeps(s.gates, |s.gates|, s.carried, id);
  }

  /** Materializing more ids leaves the chunk's values alone. */
  lemma {:induction false} ChunkAgree(s: State, n: nat, m: map<nat, bool>, id: nat)
    requires Inv(s) && n <= |s.gates|
    requires forall w :: w in s.carried ==> w in m && m[w] == s.carried[w]
    requires id in s.carried || exists i :: 0 <= i < n && s.gates[i].out == id
    ensures Read(Clear(), ExecTo(Clear(), s.gates, n, m), id)
         == Read(Clear(), ExecTo(Clear(), s.gates, n, s.carried), id)
  {
    if n > 0 {
      var g := s.gates[n - 1];
      if id != g.out {
        ChunkAgree(s, n - 1, m, id);
      } else {
        if !g.IsConst() {
          assert g.Reads(g.in0);
          OperandEarlier(s, n - 1, g.in0);
          ChunkAgree(s, n - 1, m, g.in0);
          if !g.IsNot() {
            assert g.Reads(g.in1);
            OperandEarlier(s, n - 1, g.in1);
            ChunkAgree(s, n - 1, m, g.in1);
          }
        }
      }
    }
  }

  lemma OperandEarlier(s: State, i: nat, w: nat)
    requires Inv(s) && i < |s.gates| && s.gates[i].Reads(w)
    ensures w in s.carried || exists j :: 0 <= j < i && s.gates[j].out == w
  {
    assert Backed(s, w);
    if w !in s.carried {
      assert Local(s.gates, w);
      var j :| 0 <= j < |s.gates| && s.gates[j].out == w;
      assert s.gates[j].out < s.gates[i].out;
      assert j < i;
    }
  }

  // ---- recording ----

  ghost predicate Appended(s: State, g: Gate, s': State) {
    && s'.gates == s.gates + [g]
    && s'.pending == s.pending + {g.out}
    && s'.carried == s.carried
    && |s'.rc| == |s.rc| + 1
  }

  lemma RecordedAppend(s: State, g: Gate)
    requires Inv(s) && g.out == |s.rc| && forall w: nat :: g.Reads(w) ==> Backed(s, w)
    ensures Recorded(s.gates + [g])
  {
    forall w: nat | g.Reads(w) ensures w < g.out {
      BackedInRange(s, w);
    }
  }

  lemma PendingAppend(s: State, g: Gate, s': State)
    requires Inv(s) && g.out == |s.rc| && Appended(s, g, s')
    ensures PendingExact(s')
  {
    forall id ensures id in s'.pending <==> Local(s'.gates, id) {
      assert s'.gates[|s.gates|].out == g.out;
      if Local(s.gates, id) {
        var i :| 0 <= i < |s.gates| && s.gates[i].out == id;
        assert s'.gates[i].out == id;
      }
    }
  }

  lemma OperandsAppend(s: State, g: Gate, s': State)
    requires OperandsBacked(s) && Appended(s, g, s') && forall w: nat :: g.Reads(w) ==> Backed(s, w)
    ensures OperandsBacked(s')
  {
    forall i, w: nat | 0 <= i < |s'.gates| && s'.gates[i].Reads(w) ensures Backed(s', w) {
      assert Backed(s, w);
    }
  }

  lemma OperandsKept(s: State, s': State)
    requires OperandsBacked(s) && s'.gates == s.gates && s'.pending == s.pending && s.carried.Keys <= s'.carried.Keys
    ensures OperandsBacked(s')
  {
    forall i, w: nat | 0 <= i < |s'.gates| && s'.gates[i].Reads(w) ensures Backed(s', w) {
      assert Backed(s, w);
    }
  }

  lemma CachedAppend(gates: seq<Gate>, g: Gate, cached: Option<nat>, op: Op)
    requires CachedConst(gates, cached, op)
    ensures CachedConst(gates + [g], cached, op)
  {
    if cached.Some? {
      var i :| 0 <= i < |gates| && gates[i] == Gate(0, 0, cached.value, op);
      assert (gates + [g])[i] == gates[i];
    }
  }

  lemma RecordInv(s: State, h: Handle, g: Gate)
    requires Inv(s) && h !in s.handles && g.out == |s.rc| < UINT32_MAX && forall w: nat :: g.Reads(w) ==> Backed(s, w)
    ensures Inv(Record(s, h, g.in0, g.in1, g.op).state)
  {
    var o := |s.rc|;
    var s' := Record(s, h, g.in0, g.in1, g.op).state;
    RecordedAppend(s, g);
    PendingAppend(s, g, s');
    OperandsAppend(s, g, s');
    CachedAppend(s.gates, g, s.const0, Const0);
    CachedAppend(s.gates, g, s.const1, Const1);
    assert Counted(s'.rc, s'.handles) by {
      assert [0] == Zeros(1);
      CountedGrow(s.rc, s.handles, 1);
      CountedBind(s.rc + [0], s.handles, h, o);
    }
    forall x | x in s'.handles ensures s'.handles[x] == 0 || Backed(s', s'.handles[x]) {
      assert x != h ==> s.handles[x] == 0 || Backed(s, s.handles[x]);
    }
  }

  ghost function CellOf(s: State, id: nat): Cell {
    if id == 0 then Null else Bit(Value(s, id))
  }

  ghost predicate SameValues(s: State, s': State) {
    forall x :: x in s.handles ==> s.handles[x] == 0 || Value(s', s.handles[x]) == Value(s, s.handles[x])
  }

  lemma EnvBind(s: State, s': State, h: Handle, id: nat)
    requires SameValues(s, s') && s'.handles == s.handles[h := id]
    ensures EnvOf(s') == EnvOf(s)[h := if id == 0 then Null else Bit(Value(s', id))]
  {
    assert EnvOf(s').Keys == EnvOf(s).Keys + {h};
  }

  lemma SameValuesAppend(s: State, s': State, g: Gate)
    requires Inv(s) && g.out == |s.rc| && s'.gates == s.gates + [g] && s'.carried == s.carried
    ensures SameValues(s, s')
  {
    ValueAppend(s, s', g);
    forall x | x in s.handles && s.handles[x] != 0 ensures Value(s', s.handles[x]) == Value(s, s.handles[x]) {
      BackedInRange(s, s.handles[x]);
    }
  }

  ghost function GateBit(s: State, g: Gate): bool {
    GateValue(Clear(), g, ExecTo(Clear(), s.gates, |s.gates|, s.carried))
  }

  /** A recorded gate: the invariant stays, and the new handle sees the gate's value. */
  lemma RecordRefines(s: State, h: Handle, g: Gate)
    requires Inv(s) && h !in s.handles && g.out == |s.rc| && forall w: nat :: g.Reads(w) ==> Backed(s, w)
    ensures |s.rc| >= UINT32_MAX ==> Record(s, h, g.in0, g.in1, g.op) == Failed(Overflow)
    ensures |s.rc| < UINT32_MAX ==>
              var r := Record(s, h, g.in0, g.in1, g.op);
              r.Done? && Inv(r.state) && r.out.None? && EnvOf(r.state) == EnvOf(s)[h := Bit(GateBit(s, g))]
  {
    if |s.rc| < UINT32_MAX {
      RecordInv(s, h, g);
      var s' := Record(s, h, g.in0, g.in1, g.op).state;
      assert EnvOf(s') == EnvOf(s)[h := Bit(GateBit(s, g))] by {
        SameValuesAppend(s, s', g);
        EnvBind(s, s', h, g.out);
        ValueAppend(s, s', g);
      }
    }
  }

  lemma ConstCached(s: State, h: Handle, id: nat, v: bool)
    requires Inv(s) && h !in s.handles && CachedConst(s.gates, Some(id), if v then Const1 else Const0)
    ensures Inv(Bind(s, h, id)) && EnvOf(Bind(s, h, id)) == EnvOf(s)[h := Bit(v)]
  {
    var s' := Bind(s, h, id);
    var i :| 0 <= i < |s.gates| && s.gates[i] == Gate(0, 0, id, if v then Const1 else Const0);
    assert Local(s.gates, id);
    BindInv(s, h, id);
    BackedInRange(s, id);
    EnvBind(s, s', h, id);
    ConstValue(s, i, v);
  }

  /** The eager view depends on handles, chunk and materialized bits only. */
  lemma EnvSame(s: State, s': State)
    requires s'.handles == s.handles && s'.gates == s.gates && s'.carried == s.carried
    ensures EnvOf(s') == EnvOf(s)
  {
  }

  lemma ConstsOnly(s: State, s': State)
    requires Inv(s) && s' == s.(const0 := s'.const0, const1 := s'.const1)
    requires CachedConst(s.gates, s'.const0, Const0) && CachedConst(s.gates, s'.const1, Const1)
    ensures Inv(s') && EnvOf(s') == EnvOf(s)
  {
    OperandsKept(s, s');
    EnvSame(s, s');
  }

  lemma ConstNew(s: State, h: Handle, v: bool)
    requires Inv(s) && h !in s.handles && |s.rc| < UINT32_MAX && (if v then s.const1 else s.const0).None?
    ensures Inv(RecordConst(s, h, v).state) && EnvOf(RecordConst(s, h, v).state) == EnvOf(s)[h := Bit(v)]
  {
    var op, id := if v then Const1 else Const0, |s.rc|;
    var s' := Record(s, h, 0, 0, op).state;
    assert Inv(s') && EnvOf(s') == EnvOf(s)[h := Bit(v)] by {
      RecordRefines(s, h, Gate(0, 0, id, op));
    }
    assert CachedConst(s'.gates, Some(id), op) by {
      assert s'.gates[|s.gates|] == Gate(0, 0, id, op);
    }
    ConstsOnly(s', RecordConst(s, h, v).state);
  }

  lemma ConstRefines(s: State, h: Handle, v: bool)
    requires Inv(s) && h !in s.handles
    ensures match RecordConst(s, h, v)
            case Done(s', out) => Inv(s') && out.None? && EnvOf(s') == EnvOf(s)[h := Bit(v)]
            case Failed(f) => f == Overflow && |s.rc| >= UINT32_MAX
  {
    var cached := if v then s.const1 else s.const0;
    if cached.Some? {
      ConstCached(s, h, cached.value, v);
    } else if |s.rc| < UINT32_MAX {
      ConstNew(s, h, v);
    }
  }

  /** A second handle on something backed, or on nothing. */
  lemma BindInv(s: State, h: Handle, id: nat)
    requires Inv(s) && h !in s.handles && (id == 0 || Backed(s, id))
    ensures Inv(Bind(s, h, id)) && SameValues(s, Bind(s, h, id))
  {
    var s' := Bind(s, h, id);
    if id != 0 {
      BackedInRange(s, id);
    }
    CountedBind(s.rc, s.handles, h, id);
    OperandsKept(s, s');
    forall x | x in s'.handles ensures s'.handles[x] == 0 || Backed(s', s'.handles[x]) {
      assert x != h ==> s.handles[x] == 0 || Backed(s, s.handles[x]);
    }
  }

  /** A deduplicated constant wire has its constant's value. */
  lemma ConstValue(s: State, i: nat, v: bool)
    requires Inv(s) && i < |s.gates| && s.gates[i].op == if v then Const1 else Const0
    ensures Value(s, s.gates[i].out) == v
  {
    ExecFrame(Clear(), s.gates, i + 1, |s.gates|, s.carried, s.gates[i].out);
  }

  // ---- materializing ----

  /** The first n handles are on the ids first, first + 1, ... */
  ghost predicate BoundTo(handles: map<Handle, nat>, hs: seq<Handle>, first: nat, n: nat, handles': map<Handle, nat>)
    requires n <= |hs|
  {
    && (forall x :: x in handles' ==> x in handles || x in hs)
    && (forall k :: 0 <= k < n ==> hs[k] in handles' && handles'[hs[k]] == first + k)
    && (forall x :: x in handles ==> x in handles' && handles'[x] == handles[x])
    && (forall k :: n <= k < |hs| ==> hs[k] !in handles')
  }

  ghost predicate NewHandles(handles: map<Handle, nat>, hs: seq<Handle>) {
    && (forall k :: 0 <= k < |hs| ==> hs[k] !in handles)
    && (forall i, j :: 0 <= i < j < |hs| ==> hs[i] != hs[j])
  }

  lemma BoundNext(handles: map<Handle, nat>, hs: seq<Handle>, first: nat, n: nat, handles': map<Handle, nat>)
    requires n < |hs| && NewHandles(handles, hs) && BoundTo(handles, hs, first, n, handles')
    ensures BoundTo(handles, hs, first, n + 1, handles'[hs[n] := first + n])
  {
  }

  lemma {:induction false} BindAllFacts(s: State, hs: seq<Handle>, first: nat, n: nat)
    requires Counted(s.rc, s.handles) && NewHandles(s.handles, hs) && n <= |hs| && first + |hs| <= |s.rc|
    ensures var s' := BindAll(s, hs, first, n);
            && s' == s.(rc := s'.rc, handles := s'.handles)
            && |s'.rc| == |s.rc|
            && Counted(s'.rc, s'.handles)
            && BoundTo(s.handles, hs, first, n, s'.handles)
  {
    if n > 0 {
      BindAllFacts(s, hs, first, n - 1);
      var mid := BindAll(s, hs, first, n - 1);
      BoundNext(s.handles, hs, first, n - 1, mid.handles);
      CountedBind(mid.rc, mid.handles, hs[n - 1], first + n - 1);
      assert BindAll(s, hs, first, n) == Bind(mid, hs[n - 1], first + n - 1);
    }
  }

  ghost predicate BitsSet(env: Env, hs: seq<Handle>, bits: seq<bool>, n: nat, r: Env)
    requires n <= |hs| == |bits|
  {
    && (forall x :: x in r ==> x in env || x in hs)
    && (forall k :: 0 <= k < n ==> hs[k] in r && r[hs[k]] == Bit(bits[k]))
    && (forall x :: x in env && x !in hs ==> x in r && r[x] == env[x])
    && (forall x :: x in env ==> x in r)
  }

  lemma {:induction false} SetBitsFacts(env: Env, hs: seq<Handle>, bits: seq<bool>, n: nat)
    requires n <= |hs| == |bits| && forall i, j :: 0 <= i < j < |hs| ==> hs[i] != hs[j]
    ensures BitsSet(env, hs, bits, n, SetBits(env, hs, bits, n))
  {
    if n > 0 {
      SetBitsFacts(env, hs, bits, n - 1);
    }
  }

  lemma {:induction false} FillFacts(m: map<nat, bool>, first: nat, bits: seq<bool>, n: nat)
    requires n <= |bits|
    ensures forall id :: id in Fill(m, first, bits, n) <==> id in m || first <= id < first + n
    ensures forall k :: 0 <= k < n ==> Fill(m, first, bits, n)[first + k] == bits[k]
    ensures forall id :: id in m && id < first ==> Fill(m, first, bits, n)[id] == m[id]
  {
    if n > 0 {
      FillFacts(m, first, bits, n - 1);
    }
  }

  lemma MaterializeShape(s: State, hs: seq<Handle>, bits: seq<bool>)
    requires Counted(s.rc, s.handles) && |hs| == |bits| && NewHandles(s.handles, hs) && |s.rc| + |bits| <= UINT32_MAX
    ensures var s' := Materialize(s, hs, bits).state;
            && s' == s.(rc := s'.rc, handles := s'.handles, carried := Fill(s.carried, |s.rc|, bits, |bits|))
            && |s'.rc| == |s.rc| + |bits|
            && Counted(s'.rc, s'.handles)
            && BoundTo(s.handles, hs, |s.rc|, |hs|, s'.handles)
  {
    var mid := s.(rc := s.rc + Zeros(|bits|), carried := Fill(s.carried, |s.rc|, bits, |bits|));
    CountedGrow(s.rc, s.handles, |bits|);
    BindAllFacts(mid, hs, |s.rc|, |hs|);
  }

  lemma MaterializeInv(s: State, hs: seq<Handle>, bits: seq<bool>)
    requires Inv(s) && |hs| == |bits| && NewHandles(s.handles, hs) && |s.rc| + |bits| <= UINT32_MAX
    ensures Inv(Materialize(s, hs, bits).state)
  {
    var s' := Materialize(s, hs, bits).state;
    MaterializeShape(s, hs, bits);
    FillFacts(s.carried, |s.rc|, bits, |bits|);
    OperandsKept(s, s');
    forall x | x in s'.handles ensures s'.handles[x] == 0 || Backed(s', s'.handles[x]) {
      if x in s.handles {
        assert s.handles[x] == 0 || Backed(s, s.handles[x]);
      } else {
        var k :| 0 <= k < |hs| && hs[k] == x;
        assert s'.handles[hs[k]] == |s.rc| + k;
      }
    }
  }

  /** A handle made by materializing shows its bit. */
  lemma NewCell(s: State, hs: seq<Handle>, bits: seq<bool>, k: nat)
    requires Counted(s.rc, s.handles) && |hs| == |bits| && NewHandles(s.handles, hs) && |s.rc| + |bits| <= UINT32_MAX &&
             k < |hs|
    requires PendingExact(s) && |s.rc| > 0
    ensures var s' := Materialize(s, hs, bits).state;
            hs[k] in s'.handles && CellOf(s', s'.handles[hs[k]]) == Bit(bits[k])
  {
    var m := Fill(s.carried, |s.rc|, bits, |bits|);
    FillFacts(s.carried, |s.rc|, bits, |bits|);
    assert Read(Clear(), ExecTo(Clear(), s.gates, |s.gates|, m), |s.rc| + k) == bits[k] by {
      assert !Local(s.gates, |s.rc| + k);
      ChunkKeeps(s.gates, |s.gates|, m, |s.rc| + k);
    }
    MaterializeShape(s, hs, bits);
  }

  /** An older handle shows what it showed. */
  lemma OldCell(s: State, hs: seq<Handle>, bits: seq<bool>, x: Handle)
    requires Inv(s) && |hs| == |bits| && NewHandles(s.handles, hs) && |s.rc| + |bits| <= UINT32_MAX && x in s.handles
    ensures var s' := Materialize(s, hs, bits).state;
            x in s'.handles && CellOf(s', s'.handles[x]) == CellOf(s, s.handles[x])
  {
    MaterializeShape(s, hs, bits);
    FillFacts(s.carried, |s.rc|, bits, |bits|);
    if s.handles[x] != 0 {
      OldValue(s, Materialize(s, hs, bits).state, s.handles[x]);
    }
  }

  /** An environment is determined by its cells. */
  lemma EnvIsSetBits(s': State, env: Env, hs: seq<Handle>, bits: seq<bool>)
    requires |hs| == |bits| && forall i, j :: 0 <= i < j < |hs| ==> hs[i] != hs[j]
    requires forall x :: x in s'.handles <==> x in env || x in hs
    requires forall k :: 0 <= k < |hs| ==> CellOf(s', s'.handles[hs[k]]) == Bit(bits[k])
    requires forall x :: x in env && x !in hs ==> CellOf(s', s'.handles[x]) == env[x]
    ensures EnvOf(s') == SetBits(env, hs, bits, |hs|)
  {
    SetBitsFacts(env, hs, bits, |hs|);
    var r := SetBits(env, hs, bits, |hs|);
    assert forall k :: 0 <= k < |hs| ==> hs[k] in r;
    assert EnvOf(s').Keys == r.Keys;
    forall x | x in EnvOf(s') ensures EnvOf(s')[x] == r[x] {
      assert EnvOf(s')[x] == CellOf(s', s'.handles[x]);
      if x in hs {
        var k :| 0 <= k < |hs| && hs[k] == x;
        assert r[hs[k]] == Bit(bits[k]);
      }
    }
  }

  lemma MaterializedEnv(s: State, hs: seq<Handle>, bits: seq<bool>)
    requires Inv(s) && |hs| == |bits| && NewHandles(s.handles, hs) && |s.rc| + |bits| <= UINT32_MAX
    ensures EnvOf(Materialize(s, hs, bits).state) == SetBits(EnvOf(s), hs, bits, |hs|)
  {
    var s' := Materialize(s, hs, bits).state;
    assert BoundTo(s.handles, hs, |s.rc|, |hs|, s'.handles) by { MaterializeShape(s, hs, bits); }
    forall k | 0 <= k < |hs| ensures CellOf(s', s'.handles[hs[k]]) == Bit(bits[k]) {
      NewCell(s, hs, bits, k);
    }
    forall x | x in s.handles && x !in hs ensures CellOf(s', s'.handles[x]) == EnvOf(s)[x] {
      OldCell(s, hs, bits, x);
    }
    EnvIsSetBits(s', EnvOf(s), hs, bits);
  }

  /** Inputs and program results: old handles keep their bits, new ones get theirs. */
  lemma MaterializeRefines(s: State, hs: seq<Handle>, bits: seq<bool>)
    requires Inv(s) && |hs| == |bits| && NewHandles(s.handles, hs)
    ensures |s.rc| + |bits| > UINT32_MAX ==> Materialize(s, hs, bits) == Failed(Overflow)
    ensures |s.rc| + |bits| <= UINT32_MAX ==>
              var r := Materialize(s, hs, bits);
              r.Done? && Inv(r.state) && EnvOf(r.state) == SetBits(EnvOf(s), hs, bits, |hs|)
  {
    if |s.rc| + |bits| <= UINT32_MAX {
      assert EnvOf(Materialize(s, hs, bits).state)
           == SetBits(EnvOf(s), hs, bits, |hs|) by { MaterializedEnv(s, hs, bits); }
      MaterializeInv(s, hs, bits);
    }
  }

  /** Materializing fresh ids changes no older value. */
  lemma OldValue(s: State, s': State, id: nat)
    requires Inv(s) && Backed(s, id) && s'.gates == s.gates
    requires forall w :: w in s.carried ==> w in s'.carried && s'.carried[w] == s.carried[w]
    ensures Value(s', id) == Value(s, id)
  {
    if id !in s.carried {
      assert Local(s.gates, id);
    }
    ChunkAgree(s, |s.gates|, s'.carried, id);
  }

  // ---- handle operations ----

  lemma HandlesOnly(s: State, rc: seq<int>, handles: map<Handle, nat>)
    requires Inv(s) && |rc| == |s.rc| && Counted(rc, handles)
    requires forall x :: x in handles ==> handles[x] == 0 || Backed(s, handles[x])
    ensures Inv(s.(rc := rc, handles := handles))
  {
    OperandsKept(s, s.(rc := rc, handles := handles));
  }

  /** Two states over one chunk show the same cell for the same id. */
  lemma EnvCells(s: State, s': State, env: Env)
    requires s'.gates == s.gates && s'.carried == s.carried
    requires env.Keys == s'.handles.Keys && forall x :: x in env ==> env[x] == CellOf(s, s'.handles[x])
    ensures EnvOf(s') == env
  {
  }

  lemma MoveRefines(s: State, h: Handle, src: Handle)
    requires Inv(s) && h !in s.handles && src in s.handles
    ensures var s' := s.(handles := s.handles[h := s.handles[src]][src := 0]);
            Inv(s') && EnvOf(s') == EnvOf(s)[h := EnvOf(s)[src]][src := Null]
  {
    var handles := s.handles[h := s.handles[src]][src := 0];
    var s' := s.(handles := handles);
    assert EnvOf(s') == EnvOf(s)[h := EnvOf(s)[src]][src := Null] by {
      EnvCells(s, s', EnvOf(s)[h := EnvOf(s)[src]][src := Null]);
    }
    CountedMove(s.rc, s.handles, h, src);
    HandlesOnly(s, s.rc, handles);
  }

  lemma AssignRefines(s: State, h: Handle, src: Handle)
    requires Inv(s) && h in s.handles && src in s.handles && s.handles[h] != s.handles[src]
    ensures var s' := s.(rc := Pin(Unpin(s.rc, s.handles[h]), s.handles[src]),
                         handles := s.handles[h := s.handles[src]]);
            Inv(s') && EnvOf(s') == EnvOf(s)[h := EnvOf(s)[src]]
  {
    var s' := s.(rc := Pin(Unpin(s.rc, s.handles[h]), s.handles[src]), handles := s.handles[h := s.handles[src]]);
    CountedAssign(s.rc, s.handles, h, s.handles[src]);
    HandlesOnly(s, s'.rc, s'.handles);
    EnvHandles(s, s');
  }

  lemma MoveAssignRefines(s: State, h: Handle, src: Handle)
    requires Inv(s) && h in s.handles && src in s.handles && h != src
    ensures var s' := s.(rc := Unpin(s.rc, s.handles[h]), handles := s.handles[h := s.handles[src]][src := 0]);
            Inv(s') && EnvOf(s') == EnvOf(s)[h := EnvOf(s)[src]][src := Null]
  {
    var handles := s.handles[h := s.handles[src]][src := 0];
    var s' := s.(rc := Unpin(s.rc, s.handles[h]), handles := handles);
    assert EnvOf(s') == EnvOf(s)[h := EnvOf(s)[src]][src := Null] by {
      EnvCells(s, s', EnvOf(s)[h := EnvOf(s)[src]][src := Null]);
    }
    CountedMoveAssign(s.rc, s.handles, h, src);
    HandlesOnly(s, s'.rc, handles);
  }

  lemma DestroyRefines(s: State, h: Handle)
    requires Inv(s) && h in s.handles
    ensures var s' := s.(rc := Unpin(s.rc, s.handles[h]), handles := s.handles - {h});
            Inv(s') && EnvOf(s') == EnvOf(s) - {h}
  {
    var s' := s.(rc := Unpin(s.rc, s.handles[h]), handles := s.handles - {h});
    CountedDrop(s.rc, s.handles, h);
    HandlesOnly(s, s'.rc, s'.handles);
    EnvHandles(s, s');
  }

  /** Rebinding handles shows old cells under new names. */
  lemma EnvHandles(s: State, s': State)
    requires s'.gates == s.gates && s'.carried == s.carried
    ensures forall x :: x in s'.handles ==> EnvOf(s')[x] == CellOf(s, s'.handles[x])
    ensures forall x :: x in s.handles ==> EnvOf(s)[x] == CellOf(s, s.handles[x])
    ensures CellOf(s, 0) == Null
  {
  }

  lemma CopyRefines(s: State, h: Handle, src: Handle)
    requires Inv(s) && h !in s.handles && src in s.handles
    ensures var s' := Bind(s, h, s.handles[src]);
            Inv(s') && EnvOf(s') == EnvOf(s)[h := EnvOf(s)[src]]
  {
    BindInv(s, h, s.handles[src]);
    EnvHandles(s, Bind(s, h, s.handles[src]));
  }

  // ---- flushing ----

  /** What a flush may be asked to keep: nothing stale, and every pending id in scope. */
  ghost predicate KeepsHeld(s: State, keep: seq<nat>) {
    && (forall id :: id in keep ==> Backed(s, id))
    && (forall h :: h in s.handles && s.handles[h] in s.pending ==> s.handles[h] in keep)
  }

  lemma NothingStale(s: State, keep: seq<nat>)
    requires Inv(s)
    ensures !ReadsStale(s.gates, NeededSet(s.gates, keep), s.carried.Keys)
  {
    forall gi, w: nat | 0 <= gi < |s.gates| && s.gates[gi].Reads(w) ensures Local(s.gates, w) || w in s.carried.Keys {
      assert Backed(s, w);
    }
  }

  lemma FlushSucceeds(s: State, keep: seq<nat>)
    requires Inv(s) && forall id :: id in keep ==> Backed(s, id)
    ensures Flush(s, keep).Done? && Flush(s, keep).out.None?
    ensures var s' := Flush(s, keep).state;
            s' == DropChunk(s).(carried := s.carried + KeptValues(s, keep), numAnd := s'.numAnd)
  {
    NothingStale(s, keep);
    if forall id :: id in keep ==> id !in s.pending {
      assert KeptValues(s, keep) == map[];
    }
  }

  lemma DropInv(s: State, carried: map<nat, bool>, numAnd: nat)
    requires Inv(s)
    requires forall id :: id in carried ==> 0 < id < |s.rc|
    requires forall x :: x in s.handles ==> s.handles[x] == 0 || s.handles[x] in carried
    ensures Inv(DropChunk(s).(carried := carried, numAnd := numAnd))
  {
  }

  lemma DropEnv(s: State, carried: map<nat, bool>, numAnd: nat)
    requires forall x :: x in s.handles && s.handles[x] != 0 ==>
      s.handles[x] in carried && carried[s.handles[x]] == Value(s, s.handles[x])
    ensures EnvOf(DropChunk(s).(carried := carried, numAnd := numAnd)) == EnvOf(s)
  {
  }

  lemma KeptHolds(s: State, keep: seq<nat>, id: nat)
    requires Inv(s) && Backed(s, id) && (id in s.pending ==> id in keep)
    ensures var m := s.carried + KeptValues(s, keep); id in m && m[id] == Value(s, id)
  {
    if id in s.carried {
      ValueOfCarried(s, id);
    }
  }

  /** A flush that keeps what is held succeeds, is invisible, and leaves the kept ids
      materialized with their values. */
  lemma FlushRefines(s: State, keep: seq<nat>)
    requires Inv(s) && KeepsHeld(s, keep)
    ensures Flush(s, keep).Done? && Inv(Flush(s, keep).state) && EnvOf(Flush(s, keep).state) == EnvOf(s)
    ensures Flush(s, keep).state.handles == s.handles && Flush(s, keep).state.rc == s.rc &&
            Flush(s, keep).state.gates == []
    ensures forall id :: id in keep ==>
      id in Flush(s, keep).state.carried && Flush(s, keep).state.carried[id] == Value(s, id)
  {
    FlushSucceeds(s, keep);
    var s' := Flush(s, keep).state;
    var m := s.carried + KeptValues(s, keep);
    forall x | x in s.handles && s.handles[x] != 0
      ensures s.handles[x] in m && m[s.handles[x]] == Value(s, s.handles[x])
    {
      KeptHolds(s, keep, s.handles[x]);
    }
    forall id | id in m ensures 0 < id < |s.rc| {
      BackedInRange(s, id);
    }
    DropInv(s, m, s'.numAnd);
    DropEnv(s, m, s'.numAnd);
    forall id | id in keep ensures id in m && m[id] == Value(s, id) {
      KeptHolds(s, keep, id);
    }
  }

  lemma LiveKeeps(s: State, ids: seq<nat>)
    requires Inv(s) && forall id :: id in ids ==> Backed(s, id)
    ensures KeepsHeld(s, LivePending(s, |s.gates|) + ids)
  {
    var live := LivePending(s, |s.gates|);
    forall h | h in s.handles && s.handles[h] in s.pending ensures s.handles[h] in live {
      var id := s.handles[h];
      assert Local(s.gates, id);
      BackedInRange(s, id);
      CountMeansHeld(s, id);
    }
    forall id | id in live + ids ensures Backed(s, id) {
      if id in live {
        assert Local(s.gates, id);
      }
    }
  }

  lemma IdsBacked(s: State, hs: seq<Handle>)
    requires Inv(s) && HoldBits(EnvOf(s), hs)
    ensures forall id :: id in Ids(s, hs) ==> id != 0 && Backed(s, id)
  {
    forall id | id in Ids(s, hs) ensures id != 0 && Backed(s, id) {
      var k :| 0 <= k < |hs| && Ids(s, hs)[k] == id;
    }
  }

  lemma RevealRefines(s: State, hs: seq<Handle>, keeps: seq<Handle>, mine: bool)
    requires Inv(s) && HoldBits(EnvOf(s), hs) && HoldBits(EnvOf(s), keeps)
    ensures var r := RevealStep(s, Ids(s, hs), Ids(s, keeps), mine);
            r.Done? && Inv(r.state) && EnvOf(r.state) == EnvOf(s) &&
              r.out == if mine then Some(Bits(EnvOf(s), hs)) else None
  {
    var ids := Ids(s, hs);
    var more := Ids(s, keeps);
    IdsBacked(s, hs);
    IdsBacked(s, keeps);
    LiveKeeps(s, ids + more);
    var keep := LivePending(s, |s.gates|) + ids + more;
    assert keep == LivePending(s, |s.gates|) + (ids + more);
    FlushRefines(s, keep);
    var s' := Flush(s, keep).state;
    forall k | 0 <= k < |hs| ensures Decode(s'.carried, ids)[k] == Bits(EnvOf(s), hs)[k] {
      assert ids[k] in keep;
    }
    assert Decode(s'.carried, ids) == Bits(EnvOf(s), hs);
  }

  lemma PruneRefines(s: State, m: map<nat, bool>)
    requires Inv(s) && s.gates == [] && s.const0.None? && s.const1.None?
    requires m == Pruned(s.rc, s.carried)
    ensures Inv(s.(carried := m)) && EnvOf(s.(carried := m)) == EnvOf(s)
  {
    forall x | x in s.handles && s.handles[x] != 0
      ensures s.handles[x] in m && m[s.handles[x]] == Value(s, s.handles[x])
    {
      var id := s.handles[x];
      assert Backed(s, id);
      assert !Local(s.gates, id);
      BackedInRange(s, id);
      CountMeansHeld(s, id);
    }
    DropInv(s, m, s.numAnd);
    DropEnv(s, m, s.numAnd);
    assert s.pending == {};
    assert s.(carried := m) == DropChunk(s).(carried := m, numAnd := s.numAnd);
  }

  lemma CheckpointRefines(s: State)
    requires Inv(s)
    ensures CheckpointStep(s).Done? && Inv(CheckpointStep(s).state) && EnvOf(CheckpointStep(s).state) == EnvOf(s)
  {
    var live := LivePending(s, |s.gates|);
    LiveKeeps(s, []);
    assert live + [] == live;
    FlushRefines(s, live);
    FlushSucceeds(s, live);
    PruneRefines(Flush(s, live).state, CheckpointStep(s).state.carried);
  }

  lemma ArgumentBits(s: State, args: seq<Handle>)
    requires Inv(s) && HoldBits(EnvOf(s), args)
    requires forall k :: 0 <= k < |args| ==> s.handles[args[k]] in s.carried
    ensures Decode(s.carried, Ids(s, args)) == Bits(EnvOf(s), args)
  {
    forall k | 0 <= k < |args| ensures Decode(s.carried, Ids(s, args))[k] == Bits(EnvOf(s), args)[k] {
      ValueOfCarried(s, s.handles[args[k]]);
    }
  }

  /** The state a successful run leaves, given the bits its program computed. */
  ghost function RunState(s: State, outs: seq<Handle>, bits: seq<bool>, ands: nat): State
    requires |outs| == |bits| && |s.rc| + |bits| <= UINT32_MAX
  {
    var m := Materialize(s, outs, bits).state;
    m.(numAnd := m.numAnd + ands)
  }

  lemma RunStateInv(s: State, outs: seq<Handle>, bits: seq<bool>, ands: nat)
    requires Inv(s) && |outs| == |bits| && NewHandles(s.handles, outs) && |s.rc| + |bits| <= UINT32_MAX
    ensures Inv(RunState(s, outs, bits, ands))
  {
    MaterializeInv(s, outs, bits);
    NumAndFree(Materialize(s, outs, bits).state, Materialize(s, outs, bits).state.numAnd + ands);
  }

  lemma RunStateEnv(s: State, outs: seq<Handle>, bits: seq<bool>, ands: nat)
    requires Inv(s) && |outs| == |bits| && NewHandles(s.handles, outs) && |s.rc| + |bits| <= UINT32_MAX
    ensures EnvOf(RunState(s, outs, bits, ands)) == SetBits(EnvOf(s), outs, bits, |outs|)
  {
    MaterializedEnv(s, outs, bits);
    EnvSame(Materialize(s, outs, bits).state, RunState(s, outs, bits, ands));
  }

  lemma RunStepIs(s: State, prog: BooleanProgram, ids: seq<nat>, outs: seq<Handle>)
    requires |outs| == |prog.outputs| && |ids| == prog.numInputs && |s.rc| + |outs| <= UINT32_MAX
    requires forall k :: 0 <= k < |ids| ==> ids[k] in s.carried
    ensures RunStep(s, prog, ids, outs)
         == Done(RunState(s, outs, Eval(Clear(), prog, Decode(s.carried, ids)), AndCount(prog.gates, |prog.gates|)),
                 None)
  {
  }

  /** A run needs materialized arguments, the right width and room for its outputs; nothing else
      can refuse it. */
  lemma RunRefusal(s: State, prog: BooleanProgram, args: seq<Handle>, outs: seq<Handle>)
    requires Inv(s) && HoldBits(EnvOf(s), args) && |outs| == |prog.outputs|
    ensures var r := RunStep(s, prog, Ids(s, args), outs);
            && (r == Failed(Unflushed) <==> exists k :: 0 <= k < |args| && s.handles[args[k]] in s.pending)
            && (r == Failed(Width) ==> |args| != prog.numInputs)
            && (r == Failed(Overflow) ==> |s.rc| + |outs| > UINT32_MAX)
            && r != Failed(StaleWire)
            && (r.Done? ==> |args| == prog.numInputs && |s.rc| + |outs| <= UINT32_MAX
                            && forall k :: 0 <= k < |args| ==> s.handles[args[k]] in s.carried)
  {
    var ids := Ids(s, args);
    forall k | 0 <= k < |args| ensures ids[k] == s.handles[args[k]] && (ids[k] in s.carried <==> ids[k] !in s.pending) {
      assert EnvOf(s)[args[k]].Bit?;
      assert Backed(s, s.handles[args[k]]);
    }
  }

  lemma NumAndFree(s: State, n: nat)
    requires Inv(s)
    ensures Inv(s.(numAnd := n)) && EnvOf(s.(numAnd := n)) == EnvOf(s)
  {
    OperandsKept(s, s.(numAnd := n));
  }

  // ---- one call ----

  /** The faults a well-used session can still raise, each with the caller's way to see it
      coming. A stale wire is not among them. */
  ghost predicate MayFail(s: State, call: Call, f: Fault)
    requires Usable(EnvOf(s), call)
  {
    match f
    case Overflow => |s.rc| + Allocates(call) > UINT32_MAX
    case Unflushed => call.Run? && exists k :: 0 <= k < |call.args| && s.handles[call.args[k]] in s.pending
    case Width => call.Run? && |call.args| != call.prog.numInputs
    case StaleWire => false
  }

  function Allocates(call: Call): nat {
    match call
    case Input(dst, _) => |dst|
    case PublicBit(_, _) => 1
    case AndGate(_, _, _) => 1
    case XorGate(_, _, _) => 1
    case NotGate(_, _) => 1
    case Run(_, _, outs) => |outs|
    case _ => 0
  }

  ghost predicate Matches(s: State, call: Call)
    requires Usable(EnvOf(s), call)
  {
    match Step(s, call)
    case Done(s', out) => Inv(s') && EnvOf(s') == EagerStep(EnvOf(s), call).0 && out == EagerStep(EnvOf(s), call).1
    case Failed(f) => MayFail(s, call, f)
  }

  lemma OperandBacked(s: State, h: Handle)
    requires Inv(s) && HoldsBit(EnvOf(s), h)
    ensures Backed(s, s.handles[h]) &&
            EnvOf(s)[h] == Bit(Read(Clear(), ExecTo(Clear(), s.gates, |s.gates|, s.carried), s.handles[h]))
  {
  }

  lemma AndMatches(s: State, h: Handle, a: Handle, b: Handle)
    requires Inv(s) && Usable(EnvOf(s), AndGate(h, a, b))
    ensures Matches(s, AndGate(h, a, b))
  {
    var g := Gate(s.handles[a], s.handles[b], |s.rc|, And);
    OperandBacked(s, a);
    OperandBacked(s, b);
    assert forall w: nat :: g.Reads(w) ==> Backed(s, w);
    assert GateBit(s, g) == (EnvOf(s)[a].v && EnvOf(s)[b].v);
    RecordRefines(s, h, g);
  }

  lemma XorMatches(s: State, h: Handle, a: Handle, b: Handle)
    requires Inv(s) && Usable(EnvOf(s), XorGate(h, a, b))
    ensures Matches(s, XorGate(h, a, b))
  {
    var g := Gate(s.handles[a], s.handles[b], |s.rc|, Xor);
    OperandBacked(s, a);
    OperandBacked(s, b);
    assert forall w: nat :: g.Reads(w) ==> Backed(s, w);
    assert GateBit(s, g) == (EnvOf(s)[a].v != EnvOf(s)[b].v);
    RecordRefines(s, h, g);
  }

  lemma NotMatches(s: State, h: Handle, a: Handle)
    requires Inv(s) && Usable(EnvOf(s), NotGate(h, a))
    ensures Matches(s, NotGate(h, a))
  {
    var g := Gate(s.handles[a], 0, |s.rc|, Not);
    OperandBacked(s, a);
    assert forall w: nat :: g.Reads(w) ==> Backed(s, w);
    assert GateBit(s, g) == !EnvOf(s)[a].v;
    RecordRefines(s, h, g);
  }

  lemma HandleMatches(s: State, call: Call)
    requires Inv(s) && Usable(EnvOf(s), call)
    requires call.Copy? || call.Move? || call.Assign? || call.MoveAssign? || call.Destroy?
    ensures Matches(s, call)
  {
    match call {
      case Copy(h, src) => CopyRefines(s, h, src);
      case Move(h, src) => MoveRefines(s, h, src);
      case Assign(h, src) =>
        if s.handles[h] != s.handles[src] {
          AssignRefines(s, h, src);
        } else {
          assert EnvOf(s)[h := EnvOf(s)[src]] == EnvOf(s);
        }
      case MoveAssign(h, src) =>
        if h != src {
          MoveAssignRefines(s, h, src);
        }
      case Destroy(h) => DestroyRefines(s, h);
    }
  }

  lemma RunMatches(s: State, call: Call)
    requires Inv(s) && Usable(EnvOf(s), call) && call.Run?
    ensures Matches(s, call)
  {
    var Run(prog, args, outs) := call;
    RunRefusal(s, prog, args, outs);
    if Step(s, call).Done? {
      var ids, ands := Ids(s, args), AndCount(prog.gates, |prog.gates|);
      var bits := Eval(Clear(), prog, Decode(s.carried, ids));
      RunStepIs(s, prog, ids, outs);
      assert bits == Eval(Clear(), prog, Bits(EnvOf(s), args)) by { ArgumentBits(s, args); }
      RunStateInv(s, outs, bits, ands);
      RunStateEnv(s, outs, bits, ands);
    }
  }

  /** Every call on a reachable session acts like the eager one or raises a foreseeable fault. */
  lemma StepMatches(s: State, call: Call)
    requires Inv(s) && Usable(EnvOf(s), call)
    ensures Matches(s, call)
  {
    match call {
      case Input(dst, bits) => MaterializeRefines(s, dst, bits);
      case PublicBit(h, v) => ConstRefines(s, h, v);
      case Reveal(hs, keep, mine) => RevealRefines(s, hs, keep, mine);
      case Checkpoint => CheckpointRefines(s);
      case Run(_, _, _) => RunMatches(s, call);
      case AndGate(h, a, b) => AndMatches(s, h, a, b);
      case XorGate(h, a, b) => XorMatches(s, h, a, b);
      case NotGate(h, a) => NotMatches(s, h, a);
      case _ => HandleMatches(s, call);
    }
  }

  // ---- whole runs ----

  /** A caller that respects object lifetimes throughout, judged on the eager session. */
  ghost predicate UsableRun(env: Env, calls: seq<Call>)
    decreases |calls|
  {
    calls != [] ==> Usable(env, calls[0]) && UsableRun(EagerStep(env, calls[0]).0, calls[1..])
  }

  /** Everything the eager session reveals. */
  ghost function EagerOutputs(env: Env, calls: seq<Call>): seq<Option<seq<bool>>>
    requires UsableRun(env, calls)
    decreases |calls|
  {
    if calls == [] then []
    else [EagerStep(env, calls[0]).1] + EagerOutputs(EagerStep(env, calls[0]).0, calls[1..])
  }

  datatype RunResult = RunResult(outs: seq<Option<seq<bool>>>, fault: Option<Fault>, last: State)

  /** What the lazy session reveals until it ends or a call is refused. */
  ghost function LazyRun(s: State, calls: seq<Call>): RunResult
    decreases |calls|
  {
    if calls == [] || !Usable(EnvOf(s), calls[0]) then RunResult([], None, s)
    else
      match Step(s, calls[0])
      case Failed(f) => RunResult([], Some(f), s)
      case Done(s', out) =>
        var rest := LazyRun(s', calls[1..]);
        RunResult([out] + rest.outs, rest.fault, rest.last)
  }

  /** A run that stopped was refused its next call, for a reason the caller could see coming. */
  ghost predicate StoppedForCause(r: RunResult, calls: seq<Call>) {
    r.fault.Some? ==>
      |r.outs| < |calls| && Usable(EnvOf(r.last), calls[|r.outs|]) && MayFail(r.last, calls[|r.outs|], r.fault.value)
  }

  lemma {:induction false} RunFrom(s: State, calls: seq<Call>)
    requires Inv(s) && UsableRun(EnvOf(s), calls)
    ensures LazyRun(s, calls).outs <= EagerOutputs(EnvOf(s), calls)
    ensures LazyRun(s, calls).fault.None? ==> LazyRun(s, calls).outs == EagerOutputs(EnvOf(s), calls)
    ensures Inv(LazyRun(s, calls).last)
    ensures StoppedForCause(LazyRun(s, calls), calls)
    decreases |calls|
  {
    if calls != [] {
      StepMatches(s, calls[0]);
      if Step(s, calls[0]).Done? {
        RunFrom(Step(s, calls[0]).state, calls[1..]);
      }
    }
  }

  /** Over every run of a fresh session, whatever it reveals is what eager evaluation reveals, it stops
      early only for id overflow or an ill-used run(circuit), no stale-wire error fires, every live
      handle stays pending or materialized, and every count is the number of live handles on its id. */
  lemma LazyLooksEager(calls: seq<Call>)
    requires UsableRun(map[], calls)
    ensures var r := LazyRun(INITIAL, calls);
            && r.outs <= EagerOutputs(map[], calls)
            && (r.fault.None? ==> r.outs == EagerOutputs(map[], calls))
            && StoppedForCause(r, calls) && r.fault != Some(StaleWire)
            && Counted(r.last.rc, r.last.handles)
            && (forall h :: h in r.last.handles ==> r.last.handles[h] == 0 || Backed(r.last, r.last.handles[h]))
  {
    assert EnvOf(INITIAL) == map[];
    assert Inv(INITIAL);
    RunFrom(INITIAL, calls);
  }

  /** checkpoint(keep...) leaves a sound session exactly when it was given every live wire. */
  lemma ExplicitKeep(s: State, keep: seq<nat>)
    requires Inv(s) && forall id :: id in keep ==> Backed(s, id)
    ensures CheckpointKeepStep(s, keep).Done?
    ensures Inv(CheckpointKeepStep(s, keep).state) <==>
              forall h :: h in s.handles && s.handles[h] != 0 ==> s.handles[h] in keep
  {
    FlushSucceeds(s, keep);
    var s' := CheckpointKeepStep(s, keep).state;
    var m := s'.carried;
    assert s' == DropChunk(s).(carried := m, numAnd := s'.numAnd);
    forall id | id in m ensures 0 < id < |s.rc| {
      BackedInRange(s, id);
    }
    assert forall id :: id in m ==> id in keep;
    forall id | id in keep ensures id in m {
      KeptHolds(s, keep, id);
    }
    if forall h :: h in s.handles && s.handles[h] != 0 ==> s.handles[h] in keep {
      DropInv(s, m, s'.numAnd);
    } else {
      var h :| h in s.handles && s.handles[h] != 0 && s.handles[h] !in keep;
      assert !Backed(s', s'.handles[h]);
    }
  }
}
