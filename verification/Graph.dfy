/** Undirected multigraphs given as an edge list, the shape in which routed copper arrives.

    Connectivity is computed by merging labels edge by edge, and cycles are closed trails.  The two meet in
    the rank formula: the copper has a cycle exactly when it has more edges than nodes minus components.  */
module Graph {

  /** One piece of copper between two nodes.  Parallel edges and self-loops are allowed. */
  datatype Edge = Edge(a: nat, b: nat)

  /** Walking along an edge, in its own direction or against it. */
  datatype Step = Step(edge: nat, forward: bool)

  ghost predicate WellFormed(n: nat, es: seq<Edge>) {
    forall i :: 0 <= i < |es| ==> es[i].a < n && es[i].b < n
  }

  // ------------------------------------------------------------------------------------------------------
  // Connectivity by labels
  // ------------------------------------------------------------------------------------------------------

  ghost function Relabel(L: seq<nat>, from: nat, to: nat): (R: seq<nat>)
    ensures |R| == |L|
    ensures forall i :: 0 <= i < |L| ==> R[i] == if L[i] == from then to else L[i]
  {
    seq(|L|, i requires 0 <= i < |L| => if L[i] == from then to else L[i])
  }

  /** Component labels after the first `k` edges, leaving out edge `skip` (use -1 to leave none out). */
  ghost function Labels(n: nat, es: seq<Edge>, k: nat, skip: int): (L: seq<nat>)
    requires WellFormed(n, es) && k <= |es|
    ensures |L| == n
  {
    if k == 0 then seq(n, i => i)
    else
      var P := Labels(n, es, k - 1, skip);
      if k - 1 == skip then P else Relabel(P, P[es[k - 1].a], P[es[k - 1].b])
  }

  /** `u` and `v` lie in the same component of the first `k` edges without edge `skip`. */
  ghost predicate Joined(n: nat, es: seq<Edge>, k: nat, skip: int, u: nat, v: nat)
    requires WellFormed(n, es) && k <= |es| && u < n && v < n
  {
    Labels(n, es, k, skip)[u] == Labels(n, es, k, skip)[v]
  }

  /** All the copper is one piece. */
  ghost predicate Connected(n: nat, es: seq<Edge>)
    requires WellFormed(n, es)
  {
    forall u, v :: 0 <= u < n && 0 <= v < n ==> Joined(n, es, |es|, -1, u, v)
  }

  // ------------------------------------------------------------------------------------------------------
  // Walks, trails and cycles
  // ------------------------------------------------------------------------------------------------------

  ghost function From(es: seq<Edge>, s: Step): nat
    requires s.edge < |es|
  {
    if s.forward then es[s.edge].a else es[s.edge].b
  }

  ghost function To(es: seq<Edge>, s: Step): nat
    requires s.edge < |es|
  {
    if s.forward then es[s.edge].b else es[s.edge].a
  }

  ghost predicate Walk(es: seq<Edge>, w: seq<Step>, u: nat, v: nat) {
    if w == [] then u == v
    else w[0].edge < |es| && From(es, w[0]) == u && Walk(es, w[1..], To(es, w[0]), v)
  }

  ghost predicate Linked(es: seq<Edge>, u: nat, v: nat) {
    exists w :: Walk(es, w, u, v)
  }

  /** The walk stays on the first `k` edges and off edge `skip`. */
  ghost predicate Uses(w: seq<Step>, k: nat, skip: int) {
    forall i :: 0 <= i < |w| ==> w[i].edge < k && w[i].edge != skip
  }

  /** No edge is walked twice. */
  ghost predicate Trail(w: seq<Step>) {
    forall i, j :: 0 <= i < j < |w| ==> w[i].edge != w[j].edge
  }

  ghost predicate Cycle(es: seq<Edge>, w: seq<Step>, u: nat) {
    w != [] && Walk(es, w, u, u) && Trail(w)
  }

  ghost predicate HasCycle(es: seq<Edge>) {
    exists w, u :: Cycle(es, w, u)
  }

  /** The edge lies on some cycle. */
  ghost predicate OnCycle(es: seq<Edge>, e: nat) {
    exists w: seq<Step>, u, i :: Cycle(es, w, u) && 0 <= i < |w| && w[i].edge == e
  }

  /** The same walk, backwards. */
  ghost function Reversed(w: seq<Step>): (r: seq<Step>)
    ensures |r| == |w| && forall i :: 0 <= i < |r| ==> r[i].edge == w[|w| - 1 - i].edge
  {
    if w == [] then [] else Reversed(w[1..]) + [Step(w[0].edge, !w[0].forward)]
  }

  lemma {:induction false} WalkBack(es: seq<Edge>, w: seq<Step>, u: nat, v: nat)
    requires Walk(es, w, u, v)
    ensures Walk(es, Reversed(w), v, u)
  {
    if w != [] {
      WalkBack(es, w[1..], To(es, w[0]), v);
      var back := Step(w[0].edge, !w[0].forward);
      assert [back][1..] == [];
      assert Walk(es, [back], To(es, w[0]), u);
      WalkConcat(es, Reversed(w[1..]), [back], v, To(es, w[0]), u);
    }
  }

  lemma WalkConcat(es: seq<Edge>, w1: seq<Step>, w2: seq<Step>, u: nat, v: nat, x: nat)
    requires Walk(es, w1, u, v) && Walk(es, w2, v, x)
    ensures Walk(es, w1 + w2, u, x)
  {
    if w1 == [] {
      assert w1 + w2 == w2;
    } else {
      WalkConcat(es, w1[1..], w2, To(es, w1[0]), v, x);
      assert (w1 + w2)[1..] == w1[1..] + w2;
    }
  }

  /** A walk can be cut in two at any step. */
  lemma WalkSplit(es: seq<Edge>, w: seq<Step>, p: nat, u: nat, v: nat)
    requires Walk(es, w, u, v) && p < |w|
    ensures w[p].edge < |es|
    ensures Walk(es, w[..p], u, From(es, w[p])) && Walk(es, w[p + 1..], To(es, w[p]), v)
  {
    if p > 0 {
      WalkSplit(es, w[1..], p - 1, To(es, w[0]), v);
      assert w[1..][..p - 1] == w[..p][1..];
      assert w[1..][p..] == w[p + 1..];
    } else {
      assert w[..0] == [];
    }
  }

  lemma EdgeJoined(n: nat, es: seq<Edge>, k: nat, skip: int, i: nat)
    requires WellFormed(n, es) && k <= |es| && i < k && i != skip
    ensures Joined(n, es, k, skip, es[i].a, es[i].b)
  {
    if i < k - 1 {
      EdgeJoined(n, es, k - 1, skip, i);
    }
  }

  /** Every node and edge of a walk lies in the component it started in. */
  lemma WalkStaysJoined(n: nat, es: seq<Edge>, k: nat, skip: int, w: seq<Step>, u: nat, v: nat)
    requires WellFormed(n, es) && k <= |es| && u < n
    requires Walk(es, w, u, v) && Uses(w, k, skip)
    ensures v < n && Joined(n, es, k, skip, u, v)
    ensures forall i :: 0 <= i < |w| ==> Joined(n, es, k, skip, u, es[w[i].edge].a)
  {
    if w != [] {
      EdgeJoined(n, es, k, skip, w[0].edge);
      WalkStaysJoined(n, es, k, skip, w[1..], To(es, w[0]), v);
      forall i | 0 <= i < |w|
        ensures Joined(n, es, k, skip, u, es[w[i].edge].a)
      {
        if i > 0 {
          assert w[i] == w[1..][i - 1];
        }
      }
    }
  }

  /** Nodes joined only by the last edge sit on its two sides. */
  lemma NewlyJoined(n: nat, es: seq<Edge>, k: nat, skip: int, u: nat, v: nat) returns (forward: bool)
    requires WellFormed(n, es) && 0 < k <= |es| && u < n && v < n && k - 1 != skip
    requires Joined(n, es, k, skip, u, v) && !Joined(n, es, k - 1, skip, u, v)
    ensures var s := Step(k - 1, forward);
            Joined(n, es, k - 1, skip, u, From(es, s)) && Joined(n, es, k - 1, skip, To(es, s), v)
  {
    forward := Joined(n, es, k - 1, skip, u, es[k - 1].a);
  }

  /** Two nodes with one label are linked by a trail: the labels mean what they should. */
  lemma {:induction false} JoinedTrail(n: nat, es: seq<Edge>, k: nat, skip: int, u: nat, v: nat) returns (w: seq<Step>)
    requires WellFormed(n, es) && k <= |es| && u < n && v < n
    requires Joined(n, es, k, skip, u, v)
    ensures Walk(es, w, u, v) && Uses(w, k, skip) && Trail(w)
  {
    JoinedEarly(n, es, k, skip, u, v);
    hide Labels, Joined;
    if k == 0 {
      w := [];
    } else if k - 1 == skip || Joined(n, es, k - 1, skip, u, v) {
      w := JoinedTrail(n, es, k - 1, skip, u, v);
    } else {
      var forward := NewlyJoined(n, es, k, skip, u, v);
      var s := Step(k - 1, forward);
      var x, y := From(es, s), To(es, s);
      var w1 := JoinedTrail(n, es, k - 1, skip, u, x);
      var w2 := JoinedTrail(n, es, k - 1, skip, y, v);
      TrailsApart(n, es, k - 1, skip, w1, u, x, w2, y, v);
      w := TrailAcross(es, w1, s, w2, u, v, k, skip);
    }
  }

  /** Trails in different components share no edge. */
  lemma TrailsApart(n: nat, es: seq<Edge>, k: nat, skip: int, w1: seq<Step>, u: nat, x: nat, w2: seq<Step>, y: nat,
                    v: nat)
    requires WellFormed(n, es) && k <= |es| && u < n && y < n
    requires Walk(es, w1, u, x) && Uses(w1, k, skip) && Walk(es, w2, y, v) && Uses(w2, k, skip)
    requires !Joined(n, es, k, skip, u, y)
    ensures forall i, j :: 0 <= i < |w1| && 0 <= j < |w2| ==> w1[i].edge != w2[j].edge
  {
    WalkStaysJoined(n, es, k, skip, w1, u, x);
    WalkStaysJoined(n, es, k, skip, w2, y, v);
    forall i, j | 0 <= i < |w1| && 0 <= j < |w2|
      ensures w1[i].edge != w2[j].edge
    {
      assert Joined(n, es, k, skip, u, es[w1[i].edge].a) && Joined(n, es, k, skip, y, es[w2[j].edge].a);
    }
  }

  lemma JoinedEarly(n: nat, es: seq<Edge>, k: nat, skip: int, u: nat, v: nat)
    requires WellFormed(n, es) && k <= |es| && u < n && v < n && Joined(n, es, k, skip, u, v)
    ensures if k == 0 then u == v else k - 1 == skip ==> Joined(n, es, k - 1, skip, u, v)
  {
  }

  /** Two edge-disjoint trails on earlier edges, joined by a new edge, make a trail. */
  lemma TrailAcross(es: seq<Edge>, w1: seq<Step>, s: Step, w2: seq<Step>, u: nat, v: nat, k: nat, skip: int)
    returns (w: seq<Step>)
    requires 0 < k <= |es| && s.edge == k - 1 && s.edge != skip
    requires Walk(es, w1, u, From(es, s)) && Uses(w1, k - 1, skip) && Trail(w1)
    requires Walk(es, w2, To(es, s), v) && Uses(w2, k - 1, skip) && Trail(w2)
    requires forall i, j :: 0 <= i < |w1| && 0 <= j < |w2| ==> w1[i].edge != w2[j].edge
    ensures Walk(es, w, u, v) && Uses(w, k, skip) && Trail(w)
  {
    var rest := [s] + w2;
    assert rest[1..] == w2;
    WalkConcat(es, w1, rest, u, From(es, s), v);
    w := w1 + rest;
  }

  /** Labels decide exactly the existence of a walk. */
  lemma {:induction false} JoinedIffWalk(n: nat, es: seq<Edge>, u: nat, v: nat)
    requires WellFormed(n, es) && u < n && v < n
    ensures Joined(n, es, |es|, -1, u, v) <==> Linked(es, u, v)
  {
    if Joined(n, es, |es|, -1, u, v) {
      var w := JoinedTrail(n, es, |es|, -1, u, v);
    }
    if Linked(es, u, v) {
      var w :| Walk(es, w, u, v);
      WalkInRange(es, w, u, v);
      WalkStaysJoined(n, es, |es|, -1, w, u, v);
    }
  }

  lemma WalkInRange(es: seq<Edge>, w: seq<Step>, u: nat, v: nat)
    requires Walk(es, w, u, v)
    ensures Uses(w, |es|, -1)
  {
    if w != [] {
      WalkInRange(es, w[1..], To(es, w[0]), v);
      assert forall i :: 0 < i < |w| ==> w[i] == w[1..][i - 1];
    }
  }

  /** Whatever agrees across every edge agrees across a whole component. */
  lemma InvariantOnComponent(n: nat, es: seq<Edge>, Q: seq<bool>, u: nat, v: nat)
    requires WellFormed(n, es) && |Q| == n && u < n && v < n
    requires forall i :: 0 <= i < |es| ==> Q[es[i].a] == Q[es[i].b]
    requires Joined(n, es, |es|, -1, u, v)
    ensures Q[u] == Q[v]
  {
    var w := JoinedTrail(n, es, |es|, -1, u, v);
    InvariantOnWalk(n, es, Q, w, u, v);
  }

  lemma InvariantOnWalk(n: nat, es: seq<Edge>, Q: seq<bool>, w: seq<Step>, u: nat, v: nat)
    requires WellFormed(n, es) && |Q| == n && u < n && Walk(es, w, u, v)
    requires forall i :: 0 <= i < |es| ==> Q[es[i].a] == Q[es[i].b]
    ensures v < n && Q[u] == Q[v]
  {
    if w != [] {
      InvariantOnWalk(n, es, Q, w[1..], To(es, w[0]), v);
    }
  }

  // ------------------------------------------------------------------------------------------------------
  // The rank formula
  // ------------------------------------------------------------------------------------------------------

  ghost function LabelSet(L: seq<nat>): set<nat> {
    set x | x in L
  }

  ghost function Components(n: nat, es: seq<Edge>, k: nat): nat
    requires WellFormed(n, es) && k <= |es|
  {
    |LabelSet(Labels(n, es, k, -1))|
  }

  /** Edge `i` joins two nodes that earlier edges had already joined. */
  ghost predicate ClosesLoop(n: nat, es: seq<Edge>, i: nat)
    requires WellFormed(n, es) && i < |es|
  {
    Joined(n, es, i, -1, es[i].a, es[i].b)
  }

  /** Edges among the first `k` whose ends were already joined by earlier edges. */
  ghost function Redundant(n: nat, es: seq<Edge>, k: nat): nat
    requires WellFormed(n, es) && k <= |es|
  {
    if k == 0 then 0
    else Redundant(n, es, k - 1) + if ClosesLoop(n, es, k - 1) then 1 else 0
  }

  lemma RelabelSet(L: seq<nat>, a: nat, b: nat)
    requires a < |L| && b < |L|
    ensures L[a] == L[b] ==> LabelSet(Relabel(L, L[a], L[b])) == LabelSet(L)
    ensures L[a] != L[b] ==> LabelSet(Relabel(L, L[a], L[b])) == LabelSet(L) - {L[a]}
  {
    var R := Relabel(L, L[a], L[b]);
    forall x | x in L && (x != L[a] || L[a] == L[b])
      ensures x in R
    {
      var i :| 0 <= i < |L| && L[i] == x;
      assert R[i] == x;
    }
    forall x | x in R
      ensures x in L && (x == L[a] ==> L[a] == L[b])
    {
      var i :| 0 <= i < |R| && R[i] == x;
      assert L[b] in L && L[i] in L;
    }
  }

  lemma FreshLabelSet(n: nat)
    ensures |LabelSet(seq(n, i => i))| == n
  {
    var L := seq(n, i => i);
    if n > 0 {
      FreshLabelSet(n - 1);
      assert L == seq(n - 1, i => i) + [n - 1];
      assert LabelSet(L) == LabelSet(seq(n - 1, i => i)) + {n - 1};
    }
  }

  lemma RankFormula(n: nat, es: seq<Edge>, k: nat)
    requires WellFormed(n, es) && k <= |es|
    ensures Components(n, es, k) + k == n + Redundant(n, es, k)
  {
    if k == 0 {
      FreshLabelSet(n);
    } else {
      RankFormula(n, es, k - 1);
      var P := Labels(n, es, k - 1, -1);
      RelabelSet(P, es[k - 1].a, es[k - 1].b);
      assert P[es[k - 1].a] in LabelSet(P);
    }
  }

  lemma {:induction false} RedundantPositive(n: nat, es: seq<Edge>, k: nat)
    requires WellFormed(n, es) && k <= |es|
    ensures Redundant(n, es, k) > 0 <==> exists i :: 0 <= i < k && ClosesLoop(n, es, i)
  {
    if k > 0 {
      RedundantPositive(n, es, k - 1);
    }
  }

  /** The largest edge index on a non-empty walk. */
  lemma LastEdge(w: seq<Step>) returns (p: nat)
    requires w != []
    ensures p < |w| && forall i :: 0 <= i < |w| ==> w[i].edge <= w[p].edge
  {
    if |w| == 1 {
      p := 0;
    } else {
      var q := LastEdge(w[1..]);
      p := if w[0].edge > w[q + 1].edge then 0 else q + 1;
      assert forall i :: 0 < i < |w| ==> w[i] == w[1..][i - 1];
    }
  }

  /** On any cycle, the edge added last joined two nodes the others had already joined. */
  lemma CycleHasRedundantEdge(n: nat, es: seq<Edge>, w: seq<Step>, u: nat) returns (e: nat)
    requires WellFormed(n, es) && Cycle(es, w, u)
    ensures e < |es| && ClosesLoop(n, es, e)
  {
    var p := LastEdge(w);
    e := w[p].edge;
    WalkSplit(es, w, p, u, u);
    assert u == From(es, w[0]) && w[0].edge < |es|;
    assert Uses(w[..p], e, -1);
    assert Uses(w[p + 1..], e, -1);
    WalkStaysJoined(n, es, e, -1, w[..p], u, From(es, w[p]));
    WalkStaysJoined(n, es, e, -1, w[p + 1..], To(es, w[p]), u);
  }

  /** An edge whose ends are joined without it lies on a cycle. */
  lemma EdgeClosesCycle(n: nat, es: seq<Edge>, k: nat, skip: int, e: nat)
    requires WellFormed(n, es) && e < |es| && k <= |es|
    requires k <= e || skip == e
    requires Joined(n, es, k, skip, es[e].a, es[e].b)
    ensures HasCycle(es)
  {
    var back := JoinedTrail(n, es, k, skip, es[e].b, es[e].a);
    var w := [Step(e, true)] + back;
    assert w[1..] == back;
    assert Cycle(es, w, es[e].a);
  }

  /** An edge lies on a cycle exactly when its ends stay joined without it. */
  lemma OnCycleIffJoined(n: nat, es: seq<Edge>, e: nat)
    requires WellFormed(n, es) && e < |es|
    ensures OnCycle(es, e) <==> Joined(n, es, |es|, e, es[e].a, es[e].b)
  {
    if Joined(n, es, |es|, e, es[e].a, es[e].b) {
      var back := JoinedTrail(n, es, |es|, e, es[e].b, es[e].a);
      var w := [Step(e, true)] + back;
      assert w[1..] == back;
      assert Cycle(es, w, es[e].a) && w[0].edge == e;
    }
    if OnCycle(es, e) {
      var w: seq<Step>, u, p :| Cycle(es, w, u) && 0 <= p < |w| && w[p].edge == e;
      RoundTheCycle(n, es, w, u, p);
    }
  }

  /** The rest of a cycle leads from one end of an edge to the other. */
  lemma RoundTheCycle(n: nat, es: seq<Edge>, w: seq<Step>, u: nat, p: nat)
    requires WellFormed(n, es) && Cycle(es, w, u) && p < |w| && w[p].edge < |es|
    ensures Joined(n, es, |es|, w[p].edge, es[w[p].edge].a, es[w[p].edge].b)
  {
    var e := w[p].edge;
    WalkInRange(es, w, u, u);
    WalkSplit(es, w, p, u, u);
    var rest := w[p + 1..] + w[..p];
    WalkConcat(es, w[p + 1..], w[..p], To(es, w[p]), u, From(es, w[p]));
    forall i | 0 <= i < |rest|
      ensures rest[i].edge < |es| && rest[i].edge != e
    {
      assert rest[i] == if i < |w| - p - 1 then w[p + 1 + i] else w[i - (|w| - p - 1)];
    }
    WalkStaysJoined(n, es, |es|, e, rest, To(es, w[p]), From(es, w[p]));
  }

  /** An acyclic piece of copper falls apart when any one edge is cut. */
  lemma AcyclicEdgeIsBridge(n: nat, es: seq<Edge>, e: nat)
    requires WellFormed(n, es) && e < |es| && !HasCycle(es)
    ensures !Joined(n, es, |es|, e, es[e].a, es[e].b)
  {
    if Joined(n, es, |es|, e, es[e].a, es[e].b) {
      EdgeClosesCycle(n, es, |es|, e, e);
    }
  }

  /** There is a cycle exactly when there are more edges than nodes minus components. */
  lemma CycleIffTooManyEdges(n: nat, es: seq<Edge>)
    requires WellFormed(n, es)
    ensures HasCycle(es) <==> |es| > n - Components(n, es, |es|)
  {
    RankFormula(n, es, |es|);
    RedundantPositive(n, es, |es|);
    if HasCycle(es) {
      var w, u :| Cycle(es, w, u);
      var e := CycleHasRedundantEdge(n, es, w, u);
    }
    if e :| 0 <= e < |es| && ClosesLoop(n, es, e) {
      EdgeClosesCycle(n, es, e, -1, e);
    }
  }

  lemma OnlyElement(S: set<nat>, x: nat, y: nat)
    requires |S| == 1 && x in S && y in S
    ensures x == y
  {
    assert |S - {x}| == 0;
  }

  lemma ConnectedMeansOneComponent(n: nat, es: seq<Edge>)
    requires WellFormed(n, es) && n > 0
    ensures Connected(n, es) <==> Components(n, es, |es|) == 1
  {
    var L := Labels(n, es, |es|, -1);
    assert L[0] in LabelSet(L);
    if Connected(n, es) {
      forall x | x in LabelSet(L)
        ensures x == L[0]
      {
        var i :| 0 <= i < |L| && L[i] == x;
        assert Joined(n, es, |es|, -1, 0, i);
      }
      assert LabelSet(L) == {L[0]};
    } else if |LabelSet(L)| == 1 {
      forall v | 0 <= v < n
        ensures L[v] == L[0]
      {
        OnlyElement(LabelSet(L), L[0], L[v]);
      }
    }
  }
}
