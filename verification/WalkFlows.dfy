/** Currents sent along walks: what one unit does to every node's balance and to an edge the walk crosses once. */
module WalkFlows {
  import opened Graph
  import opened Kirchhoff

  /** One unit of current along a walk. */
  ghost function WalkFlow(m: nat, w: seq<Step>): (phi: seq<real>)
    requires Uses(w, m, -1)
    ensures |phi| == m
  {
    if w == [] then seq(m, _ => 0.0)
    else
      assert forall i :: 0 <= i < |w| - 1 ==> w[1..][i] == w[i + 1];
      var rest := WalkFlow(m, w[1..]);
      rest[w[0].edge := rest[w[0].edge] + if w[0].forward then 1.0 else -1.0]
  }

  lemma {:induction false} NetOfZero(es: seq<Edge>, phi: seq<real>, v: nat, k: nat)
    requires k <= |es| == |phi| && forall i :: 0 <= i < k ==> phi[i] == 0.0
    ensures Net(es, phi, v, k) == 0.0
  {
    if k > 0 {
      NetOfZero(es, phi, v, k - 1);
    }
  }

  lemma {:induction false} NetOfUpdate(es: seq<Edge>, phi: seq<real>, e: nat, x: real, v: nat, k: nat)
    requires k <= |es| == |phi| && e < |es|
    ensures Net(es, phi[e := phi[e] + x], v, k) == Net(es, phi, v, k) + if e < k then Leaving(es[e], x, v) else 0.0
  {
    if k > 0 {
      NetOfUpdate(es, phi, e, x, v, k - 1);
    }
  }

  lemma {:induction false} NetOfSum(es: seq<Edge>, phi: seq<real>, psi: seq<real>, sum: seq<real>, v: nat, k: nat)
    requires k <= |es| == |phi| == |psi| == |sum| && forall i :: 0 <= i < k ==> sum[i] == phi[i] + psi[i]
    ensures Net(es, sum, v, k) == Net(es, phi, v, k) + Net(es, psi, v, k)
  {
    if k > 0 {
      NetOfSum(es, phi, psi, sum, v, k - 1);
    }
  }

  /** It leaves the first node of the walk and enters the last; every other node passes it on. */
  lemma {:induction false} WalkFlowNet(es: seq<Edge>, w: seq<Step>, u: nat, x: nat, v: nat)
    requires Uses(w, |es|, -1) && Walk(es, w, u, x)
    ensures Net(es, WalkFlow(|es|, w), v, |es|) == (if v == u then 1.0 else 0.0) - if v == x then 1.0 else 0.0
  {
    if w == [] {
      NetOfZero(es, WalkFlow(|es|, w), v, |es|);
    } else {
      assert forall i :: 0 <= i < |w| - 1 ==> w[1..][i] == w[i + 1];
      WalkFlowNet(es, w[1..], To(es, w[0]), x, v);
      NetOfUpdate(es, WalkFlow(|es|, w[1..]), w[0].edge, if w[0].forward then 1.0 else -1.0, v, |es|);
    }
  }

  /** An edge off the first part of a walk carries what the rest puts on it. */
  lemma {:induction false} WalkFlowPast(m: nat, w: seq<Step>, rest: seq<Step>, e: nat)
    requires Uses(w, m, e) && Uses(rest, m, -1) && e < m
    ensures Uses(w + rest, m, -1) && WalkFlow(m, w + rest)[e] == WalkFlow(m, rest)[e]
  {
    if w == [] {
      assert w + rest == rest;
    } else {
      assert forall i :: 0 <= i < |w| - 1 ==> w[1..][i] == w[i + 1];
      WalkFlowPast(m, w[1..], rest, e);
      assert (w + rest)[1..] == w[1..] + rest;
    }
  }

  /** A walk that crosses `e` once, forwards. */
  lemma WalkOver(n: nat, es: seq<Edge>, e: nat, u: nat, x: nat) returns (w: seq<Step>)
    requires WellFormed(n, es) && e < |es| && u < n && x < n
    requires Joined(n, es, |es|, e, u, es[e].a) && Joined(n, es, |es|, e, x, es[e].b)
    ensures Uses(w, |es|, -1) && Walk(es, w, u, x) && WalkFlow(|es|, w)[e] == 1.0
  {
    assert Joined(n, es, |es|, e, es[e].b, x);
    var w1 := JoinedTrail(n, es, |es|, e, u, es[e].a);
    var w2 := JoinedTrail(n, es, |es|, e, es[e].b, x);
    hide Labels, Joined;
    var over := [Step(e, true)] + w2;
    assert over[1..] == w2 && w2 + [] == w2;
    WalkFlowPast(|es|, w2, [], e);
    WalkConcat(es, w1, over, u, es[e].a, x);
    WalkFlowPast(|es|, w1, over, e);
    w := w1 + over;
  }
}
