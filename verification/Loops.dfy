/** Copper with loops: which edges conservation alone settles, and what the solve gives the others when its edge count
    does not find the loop. */
module Loops {
  import opened Optional
  import opened Graph
  import opened Kirchhoff
  import opened Series
  import opened SpanningTree
  import opened SolveNet
  import opened WalkFlows

  /** A flow over this copper that conserves the injections. */
  ghost predicate Flow(n: nat, es: seq<Edge>, inject: seq<real>, phi: seq<real>) {
    |phi| == |es| && |inject| == n && Conserves(n, es, phi, inject)
  }

  /** Every conserving flow has the same current in edge `e`. */
  ghost predicate Forced(n: nat, es: seq<Edge>, inject: seq<real>, e: nat)
    requires e < |es|
  {
    forall phi, psi | Flow(n, es, inject, phi) && Flow(n, es, inject, psi) :: phi[e] == psi[e]
  }

  /** Off every cycle, the cut at the edge leaves its current no choice. */
  lemma BridgeIsForced(n: nat, es: seq<Edge>, inject: seq<real>, phi: seq<real>, psi: seq<real>, e: nat)
    requires WellFormed(n, es) && e < |es| && !OnCycle(es, e)
    requires Flow(n, es, inject, phi) && Flow(n, es, inject, psi)
    ensures phi[e] == psi[e]
  {
    OnCycleIffJoined(n, es, e);
    var L := Labels(n, es, |es|, e);
    var c := L[es[e].a];
    CutCarriesSide(n, es, phi, e, c);
    CutCarriesSide(n, es, psi, e, c);
    assert NetOfNodes(es, phi, n, |es|) == NetOfNodes(es, psi, n, |es|);
    assert OnSide(L, c, es[e].a, n) == 1.0 && OnSide(L, c, es[e].b, n) == 0.0;
    hide Labels, SideSum, OnSide;
  }

  /** On a cycle, a unit sent round it makes another flow. */
  lemma CycleLeavesOpen(n: nat, es: seq<Edge>, inject: seq<real>, phi: seq<real>, e: nat) returns (psi: seq<real>)
    requires WellFormed(n, es) && e < |es| && OnCycle(es, e) && Flow(n, es, inject, phi)
    ensures Flow(n, es, inject, psi) && psi[e] == phi[e] + 1.0
  {
    OnCycleIffJoined(n, es, e);
    var a, b := es[e].a, es[e].b;
    assert Joined(n, es, |es|, e, b, a);
    var back := JoinedTrail(n, es, |es|, e, b, a);
    hide Labels, Joined, OnCycle;
    var w := [Step(e, true)] + back;
    assert w[1..] == back && back + [] == back;
    WalkFlowPast(|es|, back, [], e);
    assert Uses(w, |es|, -1) && Walk(es, w, a, a) && WalkFlow(|es|, w)[e] == 1.0;
    var round := WalkFlow(|es|, w);
    psi := seq(|es|, i requires 0 <= i < |es| => phi[i] + round[i]);
    forall v | 0 <= v < n
      ensures Net(es, psi, v, |es|) == inject[v]
    {
      NetOfSum(es, phi, round, psi, v, |es|);
      WalkFlowNet(es, w, a, a, v);
    }
  }

  /** Conservation alone settles an edge's current exactly when the edge lies on no cycle, whatever the copper. */
  lemma ForcedExactlyWhen(n: nat, es: seq<Edge>, inject: seq<real>, phi: seq<real>, e: nat)
    requires WellFormed(n, es) && e < |es| && Flow(n, es, inject, phi)
    ensures Forced(n, es, inject, e) <==> !OnCycle(es, e)
  {
    hide Flow, OnCycle;
    if OnCycle(es, e) {
      var psi := CycleLeavesOpen(n, es, inject, phi, e);
      FlowSized(n, es, inject, phi);
      FlowSized(n, es, inject, psi);
    } else {
      forall phi, psi | Flow(n, es, inject, phi) && Flow(n, es, inject, psi)
        ensures |phi| == |psi| == |es| && phi[e] == psi[e]
      {
        FlowSized(n, es, inject, phi);
        FlowSized(n, es, inject, psi);
        BridgeIsForced(n, es, inject, phi, psi, e);
      }
    }
  }

  lemma FlowSized(n: nat, es: seq<Edge>, inject: seq<real>, phi: seq<real>)
    requires Flow(n, es, inject, phi)
    ensures |phi| == |es|
  {
  }

  /** A solve that gives no reason gives every edge off all cycles a value, and it is the one value conservation allows;
      an edge on a cycle may have one too, but conservation allows others. */
  lemma SolvedEdges(n: nat, es: seq<Edge>, pads: PadCurrents, rows: seq<Option<Series>>, f: nat, e: nat)
    requires WellFormed(n, es) && Reported(n, es, pads, rows, None) && e < |es|
    requires Conserves(n, es, FlowAt(rows, f), Accounted(n, es, PadsOf(pads, n, f)))
    ensures !OnCycle(es, e) ==> rows[e].Some?
    ensures Forced(n, es, Accounted(n, es, PadsOf(pads, n, f)), e) <==> !OnCycle(es, e)
  {
    ForcedExactlyWhen(n, es, Accounted(n, es, PadsOf(pads, n, f)), FlowAt(rows, f), e);
    hide Forced, Accounted, Conserves, HasCycle;
    if rows[e].None? {
      ValuelessIsOnCycle(n, es, rows, e);
    }
  }

  /** Valued edges lead round an edge without a value. */
  lemma ValuelessIsOnCycle(n: nat, es: seq<Edge>, rows: seq<Option<Series>>, e: nat)
    requires WellFormed(n, es) && |rows| == |es| && e < |es| && Spans(n, es, rows) && rows[e].None?
    ensures OnCycle(es, e)
  {
    EdgeJoined(n, es, |es|, -1, e);
    var w :| ValuedWalk(es, rows, w, es[e].a, es[e].b);
    WalkInRange(es, w, es[e].a, es[e].b);
    WalkStaysJoined(n, es, |es|, e, w, es[e].a, es[e].b);
    OnCycleIffJoined(n, es, e);
  }

  // ------------------------------------------------------------------------------------------------------
  // A loop the edge count misses
  // ------------------------------------------------------------------------------------------------------

  const TRIANGLE_AND_TRACE := [Edge(0, 1), Edge(1, 2), Edge(2, 0), Edge(3, 4)]

  /** A triangle beside a separate straight trace: a cycle the edge-count test does not report. */
  lemma LoopTestMissesDetachedTriangle()
    ensures WellFormed(5, TRIANGLE_AND_TRACE) && HasCycle(TRIANGLE_AND_TRACE) && !(|TRIANGLE_AND_TRACE| > 5 - 1)
    ensures forall e: nat :: e < 3 ==> OnCycle(TRIANGLE_AND_TRACE, e)
  {
    var es := TRIANGLE_AND_TRACE;
    var w := [Step(0, true), Step(1, true), Step(2, true)];
    assert w[1..] == [Step(1, true), Step(2, true)] && w[1..][1..] == [Step(2, true)] && w[1..][1..][1..] == [];
    assert Walk(es, w[1..][1..][1..], 0, 0);
    assert Walk(es, w[1..][1..], 2, 0);
    assert Walk(es, w[1..], 1, 0);
    assert Cycle(es, w, 0);
    forall e: nat | e < 3
      ensures OnCycle(es, e)
    {
      assert w[e].edge == e;
    }
  }

  /** One ampere in at node 0 and out at node 1. */
  const ONE_AMPERE: PadCurrents := map[0 := Some([1.0]), 1 := Some([-1.0])]

  /** Two of the triangle's three edges are given a value, as if the third carried nothing: the ampere takes one way
      round whole, or the other.  Conservation allows any split, and no edge of the triangle is forced. */
  method MissedLoopGetsValues() returns (rows: seq<Option<Series>>, reason: Option<Reason>)
    ensures reason == None && |rows| == 4 && rows[3] == Some([0.0])
    ensures || rows[..3] == [Some([1.0]), None, Some([0.0])]
            || rows[..3] == [Some([1.0]), Some([0.0]), None]
            || rows[..3] == [None, Some([-1.0]), Some([-1.0])]
    ensures forall e: nat :: e < 3 ==> OnCycle(TRIANGLE_AND_TRACE, e)
    ensures WellFormed(5, TRIANGLE_AND_TRACE)
    ensures forall e: nat :: e < 3 ==>
              !Forced(5, TRIANGLE_AND_TRACE, Accounted(5, TRIANGLE_AND_TRACE, PadsOf(ONE_AMPERE, 5, 0)), e)
  {
    LoopTestMissesDetachedTriangle();
    hide HasCycle, OnCycle, Conserves, Accounted, FlowAt, PadsOf, Forced;
    rows, reason := Solve(5, TRIANGLE_AND_TRACE, ONE_AMPERE, 1);
    assert !Unknown(ONE_AMPERE);
    NoReason(reason);
    TwoOfThreeValued(rows);
    TriangleBalances(rows);
    forall e: nat | e < 3
      ensures !Forced(5, TRIANGLE_AND_TRACE, Accounted(5, TRIANGLE_AND_TRACE, PadsOf(ONE_AMPERE, 5, 0)), e)
    {
      SolvedEdges(5, TRIANGLE_AND_TRACE, ONE_AMPERE, rows, 0, e);
    }
    TriangleValues(rows, FlowAt(rows, 0));
  }

  /** Without a second valued edge one corner would be cut off, and without the trace its far end. */
  lemma TwoOfThreeValued(rows: seq<Option<Series>>)
    requires WellFormed(5, TRIANGLE_AND_TRACE) && |rows| == 4 && Spans(5, TRIANGLE_AND_TRACE, rows)
    ensures rows[3].Some? && (rows[0].Some? || rows[1].Some?) && (rows[1].Some? || rows[2].Some?)
    ensures rows[0].Some? || rows[2].Some?
  {
    LeadsOut(rows, 1, 0, 0);
    LeadsOut(rows, 2, 1, 1);
    LeadsOut(rows, 0, 2, 2);
    LeadsOut(rows, 3, 4, 3);
  }

  /** Where an edge joins two nodes, a valued edge leaves the first. */
  lemma LeadsOut(rows: seq<Option<Series>>, u: nat, v: nat, e: nat)
    requires WellFormed(5, TRIANGLE_AND_TRACE) && |rows| == 4 && Spans(5, TRIANGLE_AND_TRACE, rows) && u != v && e < 4
    requires TRIANGLE_AND_TRACE[e] == Edge(u, v) || TRIANGLE_AND_TRACE[e] == Edge(v, u)
    ensures exists i :: 0 <= i < 4 && rows[i].Some? && (TRIANGLE_AND_TRACE[i].a == u || TRIANGLE_AND_TRACE[i].b == u)
  {
    EdgeJoined(5, TRIANGLE_AND_TRACE, 4, -1, e);
    assert Joined(5, TRIANGLE_AND_TRACE, 4, -1, u, v);
    hide Labels, Joined;
    var w: seq<Step> :| ValuedWalk(TRIANGLE_AND_TRACE, rows, w, u, v);
    assert rows[w[0].edge].Some?;
  }

  /** What the four flows are bound to: nodes 1, 2 and 4 are no roots. */
  lemma TriangleBalances(rows: seq<Option<Series>>)
    requires WellFormed(5, TRIANGLE_AND_TRACE) && |rows| == 4
    requires Conserves(5, TRIANGLE_AND_TRACE, FlowAt(rows, 0),
                       Accounted(5, TRIANGLE_AND_TRACE, PadsOf(ONE_AMPERE, 5, 0)))
    ensures var phi := FlowAt(rows, 0); phi[1] - phi[0] == -1.0 && phi[2] - phi[1] == 0.0 && phi[3] == 0.0
  {
    var es := TRIANGLE_AND_TRACE;
    var phi, g := FlowAt(rows, 0), PadsOf(ONE_AMPERE, 5, 0);
    NotRoot(0, 1, 0);
    NotRoot(1, 2, 1);
    NotRoot(3, 4, 3);
    var h := Accounted(5, es, g);
    assert h[1] == -1.0 && h[2] == 0.0 && h[4] == 0.0;
    hide Accounted, FlowAt, PadsOf, IsRoot;
    NetOfFour(phi, 1);
    NetOfFour(phi, 2);
    NetOfFour(phi, 4);
  }

  lemma NotRoot(u: nat, v: nat, e: nat)
    requires WellFormed(5, TRIANGLE_AND_TRACE) && e < 4 && u < v && TRIANGLE_AND_TRACE[e] == Edge(u, v)
    ensures !IsRoot(5, TRIANGLE_AND_TRACE, v)
  {
    EdgeJoined(5, TRIANGLE_AND_TRACE, 4, -1, e);
    hide Labels;
  }

  lemma NetOfFour(phi: seq<real>, v: nat)
    requires |phi| == 4
    ensures var es := TRIANGLE_AND_TRACE;
            Net(es, phi, v, 4) == Leaving(es[0], phi[0], v) + Leaving(es[1], phi[1], v)
                                  + Leaving(es[2], phi[2], v) + Leaving(es[3], phi[3], v)
  {
    var es := TRIANGLE_AND_TRACE;
    assert Net(es, phi, v, 1) == Leaving(es[0], phi[0], v);
    assert Net(es, phi, v, 2) == Net(es, phi, v, 1) + Leaving(es[1], phi[1], v);
    assert Net(es, phi, v, 3) == Net(es, phi, v, 2) + Leaving(es[2], phi[2], v);
  }

  lemma TriangleValues(rows: seq<Option<Series>>, phi: seq<real>)
    requires |rows| == 4 && ValidRows(rows, 1) && phi == FlowAt(rows, 0)
    requires rows[3].Some? && !(rows[0].Some? && rows[1].Some? && rows[2].Some?)
    requires (rows[0].Some? || rows[1].Some?) && (rows[1].Some? || rows[2].Some?) && (rows[0].Some? || rows[2].Some?)
    requires phi[1] - phi[0] == -1.0 && phi[2] - phi[1] == 0.0 && phi[3] == 0.0
    ensures rows[3] == Some([0.0])
    ensures || rows[..3] == [Some([1.0]), None, Some([0.0])]
            || rows[..3] == [Some([1.0]), Some([0.0]), None]
            || rows[..3] == [None, Some([-1.0]), Some([-1.0])]
  {
    forall e | 0 <= e < 4 && rows[e].Some?
      ensures rows[e] == Some([phi[e]])
    {
      assert rows[e].value == [phi[e]];
    }
    assert rows[..3] == [rows[0], rows[1], rows[2]];
  }
}
