/** In what order a flush lists its outputs (emp-tool/ir/session/flush_plan.h,
    emp-tool/ir/session/chunked_session.h). */
module PlanOrder {
  import opened Program
  import opened FlushPlan
  import opened Session

  /** v stands in the list before w first does. */
  ghost predicate ListedBefore(keep: seq<nat>, v: nat, w: nat) {
    exists i :: 0 <= i < |keep| && keep[i] == v && forall j :: 0 <= j <= i ==> keep[j] != w
  }

  lemma ListedLonger(keep: seq<nat>, x: nat, v: nat, w: nat)
    requires ListedBefore(keep, v, w)
    ensures ListedBefore(keep + [x], v, w)
  {
    var i :| 0 <= i < |keep| && keep[i] == v && forall j :: 0 <= j <= i ==> keep[j] != w;
    var all := keep + [x];
    assert all[i] == v && forall j :: 0 <= j <= i ==> all[j] != w;
  }

  lemma ListedLast(keep: seq<nat>, v: nat, w: nat)
    requires v in keep && w !in keep
    ensures ListedBefore(keep + [w], v, w)
  {
    var i :| 0 <= i < |keep| && keep[i] == v;
    var all := keep + [w];
    assert all[i] == v && forall j :: 0 <= j <= i ==> all[j] == keep[j];
  }

  /** The outputs of a planned program stand in the order in which the keep list first names them. */
  lemma {:induction false} KeepOrder(gates: seq<Gate>, keep: seq<nat>, a: nat, b: nat)
    requires a < b < |PendingKeeps(gates, keep)|
    ensures ListedBefore(keep, PendingKeeps(gates, keep)[a], PendingKeeps(gates, keep)[b])
    decreases |keep|
  {
    var n := |keep| - 1;
    var r, w := PendingKeeps(gates, keep[..n]), keep[n];
    assert keep == keep[..n] + [w];
    if b < |r| {
      KeepOrder(gates, keep[..n], a, b);
      ListedLonger(keep[..n], w, r[a], r[b]);
    } else {
      assert r[a] in r && w !in keep[..n];
      ListedLast(keep[..n], r[a], w);
    }
  }

  /** What is in scope is listed in chunk order. */
  lemma {:induction false} LiveOrder(s: State, n: nat, a: nat, b: nat)
    requires Recorded(s.gates) && n <= |s.gates| && a < b < |LivePending(s, n)|
    ensures LivePending(s, n)[a] < LivePending(s, n)[b]
  {
    if b < |LivePending(s, n - 1)| {
      LiveOrder(s, n - 1, a, b);
    } else {
      assert LivePending(s, n - 1)[a] in LivePending(s, n - 1);
    }
  }
}
