/** Which edges of a net an unknown pad current touches: the edges the known pads settle, against those that the solve
    leaves without a value. */
module UnknownPads {
  import opened Optional
  import opened Graph
  import opened Kirchhoff
  import opened Series
  import opened SolveNet
  import opened WalkFlows

  predicate UnknownAt(pads: PadCurrents, v: nat) {
    v in pads && pads[v].None?
  }

  /** No pad joined to the edge is unknown. */
  ghost predicate FreeOfUnknown(n: nat, es: seq<Edge>, pads: PadCurrents, e: nat)
    requires WellFormed(n, es) && e < |es|
  {
    forall v: nat | v < n && UnknownAt(pads, v) :: !Joined(n, es, |es|, -1, v, es[e].a)
  }

  /** Once edge `e` is cut, no pad on the side of `end` is unknown. */
  ghost predicate SideKnown(n: nat, es: seq<Edge>, pads: PadCurrents, e: nat, end: nat)
    requires WellFormed(n, es) && e < |es| && end < n
  {
    forall v: nat | v < n && UnknownAt(pads, v) :: !Joined(n, es, |es|, e, v, end)
  }

  /** A flow that conserves every current that is known, whatever the unknown pads inject. */
  ghost predicate Fits(n: nat, es: seq<Edge>, pads: PadCurrents, f: nat, phi: seq<real>) {
    && |phi| == |es|
    && forall v: nat | v < n && !UnknownAt(pads, v) :: Net(es, phi, v, |es|) == PadAt(pads, v, f)
  }

  /** All flows that fit agree on edge `e`: the unknown pads have no say in it. */
  ghost predicate Determined(n: nat, es: seq<Edge>, pads: PadCurrents, f: nat, e: nat)
    requires e < |es|
  {
    forall phi, psi | Fits(n, es, pads, f, phi) && Fits(n, es, pads, f, psi) :: phi[e] == psi[e]
  }

  // ------------------------------------------------------------------------------------------------------
  // A known side settles the edge
  // ------------------------------------------------------------------------------------------------------

  lemma KnownSideDetermines(n: nat, es: seq<Edge>, pads: PadCurrents, f: nat, e: nat, end: nat)
    requires WellFormed(n, es) && !HasCycle(es) && e < |es| && (end == es[e].a || end == es[e].b)
    requires SideKnown(n, es, pads, e, end)
    ensures Determined(n, es, pads, f, e)
  {
    forall phi, psi | Fits(n, es, pads, f, phi) && Fits(n, es, pads, f, psi)
      ensures phi[e] == psi[e]
    {
      FlowsAgree(n, es, pads, f, e, end, phi, psi);
    }
  }

  lemma FlowsAgree(n: nat, es: seq<Edge>, pads: PadCurrents, f: nat, e: nat, end: nat, phi: seq<real>, psi: seq<real>)
    requires WellFormed(n, es) && !HasCycle(es) && e < |es| && (end == es[e].a || end == es[e].b)
    requires SideKnown(n, es, pads, e, end) && Fits(n, es, pads, f, phi) && Fits(n, es, pads, f, psi)
    ensures |phi| == |psi| == |es| && phi[e] == psi[e]
  {
    var L := Labels(n, es, |es|, e);
    AcyclicEdgeIsBridge(n, es, e);
    SideAgrees(n, es, pads, f, e, end, phi, psi);
    hide Labels, SideKnown, HasCycle, Fits, SideSum;
    CutCarriesSide(n, es, phi, e, L[end]);
    CutCarriesSide(n, es, psi, e, L[end]);
    SameCrossing(phi[e], psi[e], OnSide(L, L[end], es[e].a, n) - OnSide(L, L[end], es[e].b, n));
  }

  lemma SameCrossing(x: real, y: real, side: real)
    requires x * side == y * side && (side == 1.0 || side == -1.0)
    ensures x == y
  {
  }

  lemma SideAgrees(n: nat, es: seq<Edge>, pads: PadCurrents, f: nat, e: nat, end: nat, phi: seq<real>, psi: seq<real>)
    requires WellFormed(n, es) && e < |es| && end < n && SideKnown(n, es, pads, e, end)
    requires Fits(n, es, pads, f, phi) && Fits(n, es, pads, f, psi)
    ensures var L := Labels(n, es, |es|, e);
            SideSum(L, L[end], NetOfNodes(es, phi, n, |es|), n) == SideSum(L, L[end], NetOfNodes(es, psi, n, |es|), n)
  {
    var L := Labels(n, es, |es|, e);
    var g, h := NetOfNodes(es, phi, n, |es|), NetOfNodes(es, psi, n, |es|);
    forall v: nat | v < n && L[v] == L[end]
      ensures g[v] == h[v]
    {
      assert Joined(n, es, |es|, e, v, end);
    }
    SideSumAgrees(L, L[end], g, h, n);
  }

  // ------------------------------------------------------------------------------------------------------
  // Unknown pads on both sides do not
  // ------------------------------------------------------------------------------------------------------

  /** Between two unknown pads, one on either side of the cut, any current can be sent over the edge. */
  lemma UnknownSidesLeaveOpen(n: nat, es: seq<Edge>, pads: PadCurrents, f: nat, e: nat, phi: seq<real>, u: nat, x: nat)
    requires WellFormed(n, es) && e < |es| && u < n && x < n && Fits(n, es, pads, f, phi)
    requires UnknownAt(pads, u) && Joined(n, es, |es|, e, u, es[e].a)
    requires UnknownAt(pads, x) && Joined(n, es, |es|, e, x, es[e].b)
    ensures !Determined(n, es, pads, f, e)
  {
    var w := WalkOver(n, es, e, u, x);
    var unit := WalkFlow(|es|, w);
    var psi := seq(|es|, i requires 0 <= i < |es| => phi[i] + unit[i]);
    forall v: nat | v < n && !UnknownAt(pads, v)
      ensures Net(es, psi, v, |es|) == PadAt(pads, v, f)
    {
      NetOfSum(es, phi, unit, psi, v, |es|);
      WalkFlowNet(es, w, u, x, v);
    }
    assert Fits(n, es, pads, f, psi) && psi[e] == phi[e] + 1.0;
  }

  // ------------------------------------------------------------------------------------------------------
  // What the solve leaves without a value
  // ------------------------------------------------------------------------------------------------------

  /** On loop-free copper an unknown pad has a say in an edge exactly when there is one on either side of its cut:
      with all of one side known, the currents there already settle it. */
  lemma DeterminedExactlyWhen(n: nat, es: seq<Edge>, pads: PadCurrents, f: nat, e: nat, phi: seq<real>)
    requires WellFormed(n, es) && !HasCycle(es) && e < |es| && Fits(n, es, pads, f, phi)
    ensures Determined(n, es, pads, f, e) <==> SideKnown(n, es, pads, e, es[e].a) || SideKnown(n, es, pads, e, es[e].b)
  {
    if SideKnown(n, es, pads, e, es[e].a) {
      KnownSideDetermines(n, es, pads, f, e, es[e].a);
    } else if SideKnown(n, es, pads, e, es[e].b) {
      KnownSideDetermines(n, es, pads, f, e, es[e].b);
    } else {
      var u: nat :| u < n && UnknownAt(pads, u) && Joined(n, es, |es|, e, u, es[e].a);
      var x: nat :| x < n && UnknownAt(pads, x) && Joined(n, es, |es|, e, x, es[e].b);
      UnknownSidesLeaveOpen(n, es, pads, f, e, phi, u, x);
    }
  }

  /** On loop-free copper every edge is left without a value as soon as any pad of the net is unknown. */
  lemma ValuelessExactlyWhen(n: nat, es: seq<Edge>, pads: PadCurrents, perEdge: seq<Option<Series>>,
                             reason: Option<Reason>, e: nat)
    requires WellFormed(n, es) && !HasCycle(es) && e < |es| && Reported(n, es, pads, perEdge, reason)
    ensures perEdge[e].None? <==> Unknown(pads)
  {
    CycleIffTooManyEdges(n, es);
    var L := Labels(n, es, |es|, -1);
    assert L[es[e].a] in LabelSet(L) && Components(n, es, |es|) >= 1;
    hide HasCycle, Labels, Components;
    if reason != Some(Loop) && reason != Some(UnknownPadCurrent) {
      NoReason(reason);
    }
  }

  /** An edge no unknown pad is joined to is left without a value exactly when another component holds one. */
  lemma FreeEdgeValuelessExactlyWhen(n: nat, es: seq<Edge>, pads: PadCurrents, perEdge: seq<Option<Series>>,
                                     reason: Option<Reason>, e: nat)
    requires WellFormed(n, es) && !HasCycle(es) && e < |es| && Reported(n, es, pads, perEdge, reason)
    requires (forall v :: v in pads ==> v < n) && FreeOfUnknown(n, es, pads, e)
    ensures perEdge[e].None? <==>
            exists v: nat :: v < n && UnknownAt(pads, v) && !Joined(n, es, |es|, -1, v, es[e].a)
  {
    ValuelessExactlyWhen(n, es, pads, perEdge, reason, e);
    hide Joined, Reported;
    if Unknown(pads) {
      var v :| v in pads && pads[v].None?;
      assert UnknownAt(pads, v);
    }
  }

  /** More: an edge the known pads settle is left without a value exactly when some pad of the net is unknown and one
      side of the edge's cut holds none. */
  lemma SettledEdgeValuelessExactlyWhen(n: nat, es: seq<Edge>, pads: PadCurrents, perEdge: seq<Option<Series>>,
                                        reason: Option<Reason>, e: nat, f: nat, phi: seq<real>)
    requires WellFormed(n, es) && !HasCycle(es) && e < |es| && Reported(n, es, pads, perEdge, reason)
    requires Fits(n, es, pads, f, phi)
    ensures Determined(n, es, pads, f, e) && perEdge[e].None? <==>
            Unknown(pads) && (SideKnown(n, es, pads, e, es[e].a) || SideKnown(n, es, pads, e, es[e].b))
  {
    ValuelessExactlyWhen(n, es, pads, perEdge, reason, e);
    DeterminedExactlyWhen(n, es, pads, f, e, phi);
    hide Determined, SideKnown, Fits, Unknown, Reported;
  }

  /** Two separate traces, with an unknown pad on the second: the first carries one ampere and is left without. */
  lemma SeparateTraceIsSilenced(perEdge: seq<Option<Series>>, reason: Option<Reason>)
    requires var es := [Edge(0, 1), Edge(2, 3)];
             var pads: PadCurrents := map[0 := Some([1.0]), 1 := Some([-1.0]), 2 := None];
             Reported(4, es, pads, perEdge, reason)
    ensures var es := [Edge(0, 1), Edge(2, 3)];
            var pads: PadCurrents := map[0 := Some([1.0]), 1 := Some([-1.0]), 2 := None];
            && WellFormed(4, es) && !HasCycle(es) && FreeOfUnknown(4, es, pads, 0)
            && Fits(4, es, pads, 0, [1.0, 0.0]) && Determined(4, es, pads, 0, 0)
            && perEdge[0].None? && reason == Some(UnknownPadCurrent)
  {
    var es := [Edge(0, 1), Edge(2, 3)];
    var pads: PadCurrents := map[0 := Some([1.0]), 1 := Some([-1.0]), 2 := None];
    TwoTraces(es);
    assert UnknownAt(pads, 2);
    ValuelessExactlyWhen(4, es, pads, perEdge, reason, 0);
    forall phi | Fits(4, es, pads, 0, phi)
      ensures phi[0] == 1.0
    {
      assert !UnknownAt(pads, 0);
      assert Net(es, phi, 0, 1) == Net(es, phi, 0, 0) + phi[0];
      assert Net(es, phi, 0, 2) == phi[0];
    }
    assert Fits(4, es, pads, 0, [1.0, 0.0]) by {
      hide HasCycle, Labels;
      assert Net(es, [1.0, 0.0], 0, 2) == 1.0 && Net(es, [1.0, 0.0], 1, 2) == -1.0 && Net(es, [1.0, 0.0], 3, 2) == 0.0;
    }
    hide HasCycle, Fits, Reported;
  }

  lemma TwoTraces(es: seq<Edge>)
    requires es == [Edge(0, 1), Edge(2, 3)]
    ensures WellFormed(4, es) && !HasCycle(es) && Labels(4, es, 2, -1) == [1, 1, 3, 3]
  {
    assert Labels(4, es, 0, -1) == [0, 1, 2, 3];
    assert Labels(4, es, 1, -1) == [1, 1, 2, 3];
    var L := Labels(4, es, 2, -1);
    assert L == [1, 1, 3, 3];
    assert LabelSet(L) == {1, 3};
    CycleIffTooManyEdges(4, es);
  }
}
