/** Kirchhoff's current law on copper: signed edge currents, what leaves each node, and what a cut carries.

    A flow gives every edge a current along the edge's own point order.  It conserves an injection when the
    current leaving each node equals the current put in there.  On loop-free copper a conserving flow is forced:
    each edge carries exactly the injections on its own side of the cut.  */
module Kirchhoff {
  import opened Graph

  /** What edge `e` carrying `x` takes out of node `v`.  A self-loop takes out what it puts back. */
  ghost function Leaving(e: Edge, x: real, v: nat): real {
    (if e.a == v then x else 0.0) - (if e.b == v then x else 0.0)
  }

  /** Current leaving `v` along the first `k` edges. */
  ghost function Net(es: seq<Edge>, phi: seq<real>, v: nat, k: nat): real
    requires k <= |es| == |phi|
  {
    if k == 0 then 0.0 else Net(es, phi, v, k - 1) + Leaving(es[k - 1], phi[k - 1], v)
  }

  ghost predicate Conserves(n: nat, es: seq<Edge>, phi: seq<real>, inject: seq<real>)
    requires |phi| == |es| && |inject| == n
  {
    forall v :: 0 <= v < n ==> Net(es, phi, v, |es|) == inject[v]
  }

  /** Sum of `g` over the nodes below `m` labelled `c`. */
  ghost function SideSum(L: seq<nat>, c: nat, g: seq<real>, m: nat): real
    requires m <= |L| == |g|
  {
    if m == 0 then 0.0
    else SideSum(L, c, g, m - 1) + if L[m - 1] == c then g[m - 1] else 0.0
  }

  lemma SideSumAgrees(L: seq<nat>, c: nat, g: seq<real>, h: seq<real>, m: nat)
    requires m <= |L| == |g| == |h|
    requires forall v :: 0 <= v < m && L[v] == c ==> g[v] == h[v]
    ensures SideSum(L, c, g, m) == SideSum(L, c, h, m)
  {
    if m > 0 {
      SideSumAgrees(L, c, g, h, m - 1);
    }
  }

  lemma SideSumPlus(L: seq<nat>, c: nat, g: seq<real>, h: seq<real>, s: seq<real>, m: nat)
    requires m <= |L| == |g| == |h| == |s|
    requires forall v :: 0 <= v < m ==> s[v] == g[v] + h[v]
    ensures SideSum(L, c, s, m) == SideSum(L, c, g, m) + SideSum(L, c, h, m)
  {
    if m > 0 {
      SideSumPlus(L, c, g, h, s, m - 1);
    }
  }

  ghost function OnSide(L: seq<nat>, c: nat, v: nat, m: nat): real
    requires v < |L|
  {
    if v < m && L[v] == c then 1.0 else 0.0
  }

  /** One edge takes out of a side exactly what crosses: nothing when both ends are on it, or neither. */
  lemma SideSumOfEdge(L: seq<nat>, c: nat, e: Edge, x: real, g: seq<real>, m: nat)
    requires m <= |L| == |g| && e.a < |L| && e.b < |L|
    requires forall v :: 0 <= v < m ==> g[v] == Leaving(e, x, v)
    ensures SideSum(L, c, g, m) == x * (OnSide(L, c, e.a, m) - OnSide(L, c, e.b, m))
  {
    if m > 0 {
      SideSumOfEdge(L, c, e, x, g, m - 1);
    }
  }

  ghost function NetOfNodes(es: seq<Edge>, phi: seq<real>, n: nat, k: nat): (g: seq<real>)
    requires k <= |es| == |phi|
    ensures |g| == n && forall v :: 0 <= v < n ==> g[v] == Net(es, phi, v, k)
  {
    seq(n, v requires 0 <= v < n => Net(es, phi, v, k))
  }

  /** Current crossing out of the side labelled `c`, over the first `k` edges. */
  ghost function Crossing(L: seq<nat>, c: nat, es: seq<Edge>, phi: seq<real>, k: nat): real
    requires WellFormed(|L|, es) && k <= |es| == |phi|
  {
    if k == 0 then 0.0
    else Crossing(L, c, es, phi, k - 1)
         + phi[k - 1] * (OnSide(L, c, es[k - 1].a, |L|) - OnSide(L, c, es[k - 1].b, |L|))
  }

  /** The nodes of a side together lose exactly what crosses its boundary. */
  lemma SideLosesWhatCrosses(L: seq<nat>, c: nat, es: seq<Edge>, phi: seq<real>, k: nat)
    requires WellFormed(|L|, es) && k <= |es| == |phi|
    ensures SideSum(L, c, NetOfNodes(es, phi, |L|, k), |L|) == Crossing(L, c, es, phi, k)
  {
    var n := |L|;
    if k == 0 {
      ZeroSideSum(L, c, NetOfNodes(es, phi, n, 0), n);
    } else {
      SideLosesWhatCrosses(L, c, es, phi, k - 1);
      var last := seq(n, v requires 0 <= v < n => Leaving(es[k - 1], phi[k - 1], v));
      SideSumPlus(L, c, NetOfNodes(es, phi, n, k - 1), last, NetOfNodes(es, phi, n, k), n);
      SideSumOfEdge(L, c, es[k - 1], phi[k - 1], last, n);
    }
  }

  lemma ZeroSideSum(L: seq<nat>, c: nat, g: seq<real>, m: nat)
    requires m <= |L| == |g|
    requires forall v :: 0 <= v < m ==> g[v] == 0.0
    ensures SideSum(L, c, g, m) == 0.0
  {
    if m > 0 {
      ZeroSideSum(L, c, g, m - 1);
    }
  }

  /** Only edges whose ends carry different labels can cross. */
  lemma CrossingIsOneEdge(L: seq<nat>, c: nat, es: seq<Edge>, phi: seq<real>, k: nat, e: int)
    requires WellFormed(|L|, es) && k <= |es| == |phi| && -1 <= e < |es|
    requires forall i :: 0 <= i < |es| && i != e ==> L[es[i].a] == L[es[i].b]
    ensures Crossing(L, c, es, phi, k)
         == if 0 <= e < k then phi[e] * (OnSide(L, c, es[e].a, |L|) - OnSide(L, c, es[e].b, |L|)) else 0.0
  {
    if k > 0 {
      CrossingIsOneEdge(L, c, es, phi, k - 1, e);
    }
  }

  /** A whole component loses nothing: all currents at its nodes cancel. */
  lemma ComponentBalances(n: nat, es: seq<Edge>, phi: seq<real>, c: nat)
    requires WellFormed(n, es) && |phi| == |es|
    ensures SideSum(Labels(n, es, |es|, -1), c, NetOfNodes(es, phi, n, |es|), n) == 0.0
  {
    var L := Labels(n, es, |es|, -1);
    forall i | 0 <= i < |es|
      ensures L[es[i].a] == L[es[i].b]
    {
      EdgeJoined(n, es, |es|, -1, i);
    }
    SideLosesWhatCrosses(L, c, es, phi, |es|);
    CrossingIsOneEdge(L, c, es, phi, |es|, -1);
  }

  /** What crosses the cut at `e` out of the side labelled `c`. */
  lemma CutCarriesSide(n: nat, es: seq<Edge>, phi: seq<real>, e: nat, c: nat)
    requires WellFormed(n, es) && |phi| == |es| && e < |es|
    ensures var L := Labels(n, es, |es|, e);
            SideSum(L, c, NetOfNodes(es, phi, n, |es|), n)
            == phi[e] * (OnSide(L, c, es[e].a, n) - OnSide(L, c, es[e].b, n))
  {
    var L := Labels(n, es, |es|, e);
    forall i | 0 <= i < |es| && i != e
      ensures L[es[i].a] == L[es[i].b]
    {
      EdgeJoined(n, es, |es|, e, i);
    }
    SideLosesWhatCrosses(L, c, es, phi, |es|);
    CrossingIsOneEdge(L, c, es, phi, |es|, e);
  }

  /** Total injected on the near side of edge `e` once the edge is cut. */
  ghost function InjectedBehind(n: nat, es: seq<Edge>, e: nat, inject: seq<real>): real
    requires WellFormed(n, es) && e < |es| && |inject| == n
  {
    var L := Labels(n, es, |es|, e);
    SideSum(L, L[es[e].a], inject, n)
  }

  /** Cutting one edge of loop-free copper splits it, and the edge carries exactly what was injected behind
      the cut.  No resistances enter. */
  lemma CutCarriesInjection(n: nat, es: seq<Edge>, phi: seq<real>, inject: seq<real>, e: nat)
    requires WellFormed(n, es) && !HasCycle(es) && |phi| == |es| && |inject| == n && e < |es|
    requires Conserves(n, es, phi, inject)
    ensures phi[e] == InjectedBehind(n, es, e, inject)
  {
    var L := Labels(n, es, |es|, e);
    var c := L[es[e].a];
    AcyclicEdgeIsBridge(n, es, e);
    CutCarriesSide(n, es, phi, e, c);
    SideSumAgrees(L, c, NetOfNodes(es, phi, n, |es|), inject, n);
  }

  /** On loop-free copper at most one flow conserves a given injection. */
  lemma ConservingFlowIsUnique(n: nat, es: seq<Edge>, phi: seq<real>, psi: seq<real>, inject: seq<real>)
    requires WellFormed(n, es) && !HasCycle(es) && |phi| == |psi| == |es| && |inject| == n
    requires Conserves(n, es, phi, inject) && Conserves(n, es, psi, inject)
    ensures phi == psi
  {
    forall e | 0 <= e < |es|
      ensures phi[e] == psi[e]
    {
      CutCarriesInjection(n, es, phi, inject, e);
      CutCarriesInjection(n, es, psi, inject, e);
    }
  }
}
