/** The per-net current solve of the board viewer: a depth-first walk picks a spanning tree of the copper, and a
    reverse pass hands every node's current up to its parent.  */
module SolveNet {
  import opened Optional
  import opened Graph
  import opened Kirchhoff
  import opened Series
  import opened SpanningTree
  import opened HandUp

  datatype Reason = Loop | UnknownPadCurrent

  /** Everything the pads of `v`'s component inject. */
  ghost function ComponentTotal(n: nat, es: seq<Edge>, g: seq<real>, v: nat): real
    requires WellFormed(n, es) && v < n && |g| == n
  {
    var L := Labels(n, es, |es|, -1);
    SideSum(L, L[v], g, n)
  }

  /** The injection a solve accounts for: every node's own, and at a root its own less the component's total. */
  ghost function Accounted(n: nat, es: seq<Edge>, g: seq<real>): (h: seq<real>)
    requires WellFormed(n, es) && |g| == n
    ensures |h| == n
    ensures forall v :: 0 <= v < n ==>
      h[v] == if IsRoot(n, es, v) then g[v] - ComponentTotal(n, es, g, v) else g[v]
  {
    seq(n, v requires 0 <= v < n =>
      if IsRoot(n, es, v) then g[v] - ComponentTotal(n, es, g, v) else g[v])
  }

  // ------------------------------------------------------------------------------------------------------
  // The whole net
  // ------------------------------------------------------------------------------------------------------

  /** The components walked so far are solved; the rest is untouched. */
  ghost predicate Progress(n: nat, es: seq<Edge>, L: seq<nat>, t: Tree, pads: PadCurrents, frames: nat, p: Pass)
    requires WellFormed(n, es) && |L| == n
  {
    && Forest(n, es, t) && Closed(n, es, t.seen) && Shaped(n, es, frames, p)
    && (forall v :: 0 <= v < n && t.seen[v] ==> (t.pe[v] >= 0 <==> !Least(L, v)))
    && (forall v, f :: 0 <= v < n && t.pe[v] >= 0 && 0 <= f < frames ==>
         NetAt(es, p.rows, f, v) == PadAt(pads, v, f))
    && (forall v :: 0 <= v < n && !t.seen[v] ==> p.acc[v] == None)
    && (forall v, f :: 0 <= v < n && !t.seen[v] && 0 <= f < frames ==> NetAt(es, p.rows, f, v) == 0.0)
    && (forall e :: 0 <= e < |es| ==> (p.rows[e].Some? <==> IsTreeEdge(t, e)))
    && (forall v :: 0 <= v < n && t.seen[v] ==> Reaches(es, t, v))
  }

  /** A freshly walked component starts its reverse pass with no currents handed up. */
  lemma StartHanded(n: nat, es: seq<Edge>, L: seq<nat>, root: nat, t0: Tree, t: Tree, pads: PadCurrents, frames: nat,
                    order: seq<nat>, p: Pass)
    requires WellFormed(n, es) && |L| == n && root < n
    requires Progress(n, es, L, t0, pads, frames, p)
    requires Frontier(n, es, L, root, t0.seen, t, order, []) && Keeps(t0, t)
    ensures Ordered(n, es, t, order) && Handed(n, es, t, pads, frames, order, p, p, |order|)
  {
    forall k | 0 < k < |order|
      ensures t.pe[order[k]] >= 0 && p.rows[t.pe[order[k]]].None?
    {
      var _ := ParentIndex(n, es, t, order, k);
      forall v | 0 <= v < n
        ensures t0.pe[v] != t.pe[order[k]]
      {
        assert t0.pe[v] >= 0 ==> t.pe[v] == t0.pe[v] && v != order[k];
      }
    }
  }

  lemma FinishHanded(n: nat, es: seq<Edge>, L: seq<nat>, root: nat, t0: Tree, t: Tree, pads: PadCurrents, frames: nat,
                     order: seq<nat>, p0: Pass, p: Pass)
    requires WellFormed(n, es) && |L| == n && root < n && Least(L, root)
    requires Progress(n, es, L, t0, pads, frames, p0)
    requires Frontier(n, es, L, root, t0.seen, t, order, []) && Keeps(t0, t) && Closed(n, es, t.seen)
    requires Ordered(n, es, t, order) && Handed(n, es, t, pads, frames, order, p0, p, 0)
    ensures Progress(n, es, L, t, pads, frames, p)
  {
    hide Reaches, NetAt;
    forall v | 0 <= v < n && t.seen[v]
      ensures t.pe[v] >= 0 <==> !Least(L, v)
    {
      if v in order {
        LeastInOrder(n, es, L, root, t0.seen, t, order, v);
      }
    }
    forall v, f | 0 <= v < n && t.pe[v] >= 0 && 0 <= f < frames
      ensures NetAt(es, p.rows, f, v) == PadAt(pads, v, f)
    {
      if v in order {
        var k :| 0 <= k < |order| && order[k] == v;
        NodeFacts(n, es, t, order, k);
      } else {
        assert t0.seen[v] && t0.pe[v] >= 0;
      }
    }
    forall e | 0 <= e < |es|
      ensures p.rows[e].Some? <==> IsTreeEdge(t, e)
    {
      TreeEdgesFilled(n, es, L, root, t0, t, frames, order, p0, p, e);
    }
    forall v | 0 <= v < n && t.seen[v]
      ensures Reaches(es, t, v)
    {
      SeenReaches(n, es, L, root, t0, t, order, v);
    }
  }

  lemma SeenReaches(n: nat, es: seq<Edge>, L: seq<nat>, root: nat, t0: Tree, t: Tree, order: seq<nat>, v: nat)
    requires WellFormed(n, es) && |L| == n && root < n && v < n && Forest(n, es, t0) && Keeps(t0, t)
    requires Frontier(n, es, L, root, t0.seen, t, order, []) && Ordered(n, es, t, order) && t.seen[v]
    requires t0.seen[v] ==> Reaches(es, t0, v)
    ensures Reaches(es, t, v)
  {
    if t0.seen[v] {
      ReachesKeeps(n, es, t0, t, v);
    } else {
      assert v in order && order[0] in order;
      var k :| 0 <= k < |order| && order[k] == v;
      OrderReaches(n, es, t, order, k);
    }
  }

  lemma TreeEdgesFilled(n: nat, es: seq<Edge>, L: seq<nat>, root: nat, t0: Tree, t: Tree, frames: nat,
                        order: seq<nat>, p0: Pass, p: Pass, e: nat)
    requires WellFormed(n, es) && |L| == n && root < n && e < |es|
    requires Forest(n, es, t0) && Frontier(n, es, L, root, t0.seen, t, order, []) && Keeps(t0, t)
    requires |p0.rows| == |p.rows| == |es| && (p0.rows[e].Some? <==> IsTreeEdge(t0, e))
    requires Ordered(n, es, t, order) && Filled(n, es, t, order, p0, p, 0)
    ensures p.rows[e].Some? <==> IsTreeEdge(t, e)
  {
    hide Waiting, NoDuplicates, Earlier, Link;
    if p.rows[e].Some? {
      if p0.rows[e].Some? {
        var v :| 0 <= v < n && t0.pe[v] == e;
        assert t.pe[v] == e;
      } else {
        var k :| 0 < k < |order| && t.pe[order[k]] == e;
      }
    }
    if IsTreeEdge(t, e) {
      var v :| 0 <= v < n && t.pe[v] == e;
      if v in order {
        var k :| 0 <= k < |order| && order[k] == v;
        assert Hung(t, order[0], order[k], order, k);
      } else {
        assert t0.pe[v] == e;
      }
    }
  }

  // ------------------------------------------------------------------------------------------------------
  // What the values mean
  // ------------------------------------------------------------------------------------------------------

  /** When every other node of a component loses its own injection, the root loses its own less the total. */
  lemma RootTakesResidual(n: nat, es: seq<Edge>, phi: seq<real>, g: seq<real>, v: nat)
    requires WellFormed(n, es) && |phi| == |es| && |g| == n && v < n
    requires forall u :: 0 <= u < n && u != v && Joined(n, es, |es|, -1, u, v) ==> Net(es, phi, u, |es|) == g[u]
    ensures Net(es, phi, v, |es|) == g[v] - ComponentTotal(n, es, g, v)
  {
    var L := Labels(n, es, |es|, -1);
    var nets := NetOfNodes(es, phi, n, |es|);
    ComponentBalances(n, es, phi, L[v]);
    forall u | 0 <= u < n && u != v && L[u] == L[v]
      ensures nets[u] == g[u]
    {
      assert Joined(n, es, |es|, -1, u, v);
    }
    SideSumWithout(L, L[v], nets, g, v, n);
  }

  lemma SideSumWithout(L: seq<nat>, c: nat, g: seq<real>, h: seq<real>, v: nat, m: nat)
    requires m <= |L| == |g| == |h| && v < |L| && L[v] == c
    requires forall u :: 0 <= u < m && u != v && L[u] == c ==> g[u] == h[u]
    ensures SideSum(L, c, g, m) - SideSum(L, c, h, m) == if v < m then g[v] - h[v] else 0.0
  {
    if m > 0 {
      SideSumWithout(L, c, g, h, v, m - 1);
    }
  }

  /** Once every node is seen or bare, the values conserve what each component's pads inject. */
  lemma DoneConserves(n: nat, es: seq<Edge>, adj: seq<seq<Half>>, t: Tree, pads: PadCurrents, frames: nat, p: Pass,
                      f: nat)
    requires WellFormed(n, es) && Adjacency(n, es, adj, |es|) && f < frames
    requires Progress(n, es, Labels(n, es, |es|, -1), t, pads, frames, p)
    requires forall u :: 0 <= u < n ==> t.seen[u] || adj[u] == []
    ensures Conserves(n, es, FlowAt(p.rows, f), Accounted(n, es, PadsOf(pads, n, f)))
  {
    var L := Labels(n, es, |es|, -1);
    var g := PadsOf(pads, n, f);
    forall v | 0 <= v < n
      ensures Net(es, FlowAt(p.rows, f), v, |es|) == Accounted(n, es, g)[v]
    {
      if t.pe[v] >= 0 {
        assert NetAt(es, p.rows, f, v) == g[v];
      } else {
        LeastWhenNotChild(n, es, adj, t, v);
        forall u | 0 <= u < n && u != v && Joined(n, es, |es|, -1, u, v)
          ensures Net(es, FlowAt(p.rows, f), u, |es|) == g[u]
        {
          SeenTogether(n, es, adj, t, u, v);
          if t.pe[u] < 0 {
            LeastIsUnique(L, u, v);
          }
          assert NetAt(es, p.rows, f, u) == g[u];
        }
        RootTakesResidual(n, es, FlowAt(p.rows, f), g, v);
      }
    }
  }

  // ------------------------------------------------------------------------------------------------------
  // The solve
  // ------------------------------------------------------------------------------------------------------

  predicate Unknown(pads: PadCurrents) {
    exists v | v in pads :: pads[v].None?
  }

  /** Walk one new component and solve it. */
  method SolveComponent(n: nat, es: seq<Edge>, ghost L: seq<nat>, adj: seq<seq<Half>>, root: nat, pads: PadCurrents,
                        frames: nat,
                        seen: array<bool>, parentOf: array<int>, parentEdgeOf: array<int>, parentForward: array<bool>,
                        acc: array<Option<Series>>, values: array<Option<Series>>)
    requires WellFormed(n, es) && Adjacency(n, es, adj, |es|) && ValidPads(pads, frames) && root < n
    requires L == Labels(n, es, |es|, -1)
    requires seen != parentForward && parentOf != parentEdgeOf && acc != values
    requires Progress(n, es, L, TreeOf(seen, parentOf, parentEdgeOf, parentForward), pads, frames,
               Pass(values[..], acc[..]))
    requires seen.Length == n && !seen[root] && forall u :: 0 <= u < root ==> seen[u] || adj[u] == []
    modifies seen, parentOf, parentEdgeOf, parentForward, acc, values
    ensures Progress(n, es, L, TreeOf(seen, parentOf, parentEdgeOf, parentForward), pads, frames,
              Pass(values[..], acc[..]))
    ensures seen[root] && forall u :: 0 <= u < n && old(seen[u]) ==> seen[u]
  {
    hide Labels, Handed, Frontier;
    ghost var t0 := TreeOf(seen, parentOf, parentEdgeOf, parentForward);
    ghost var p0 := Pass(values[..], acc[..]);
    EdgesShareLabels(n, es);
    NewRootIsLeast(n, es, adj, t0.seen, root);
    var order := Explore(n, es, L, adj, root, seen, parentOf, parentEdgeOf, parentForward);
    ghost var t := TreeOf(seen, parentOf, parentEdgeOf, parentForward);
    StartHanded(n, es, L, root, t0, t, pads, frames, order, p0);
    Accumulate(n, es, t, order, pads, frames, parentOf, parentEdgeOf, parentForward, acc, values);
    FinishHanded(n, es, L, root, t0, t, pads, frames, order, p0, Pass(values[..], acc[..]));
    RootIsSeen(n, es, L, root, t0.seen, t, order);
  }

  /** Solve component after component, in the order of their first nodes. */
  method SolveComponents(n: nat, es: seq<Edge>, ghost L: seq<nat>, adj: seq<seq<Half>>, pads: PadCurrents, frames: nat,
                         seen: array<bool>, parentOf: array<int>, parentEdgeOf: array<int>, parentForward: array<bool>,
                         acc: array<Option<Series>>, values: array<Option<Series>>)
    requires WellFormed(n, es) && Adjacency(n, es, adj, |es|) && ValidPads(pads, frames) && L == Labels(n, es, |es|, -1)
    requires seen != parentForward && parentOf != parentEdgeOf && acc != values && seen.Length == n
    requires Progress(n, es, L, TreeOf(seen, parentOf, parentEdgeOf, parentForward), pads, frames,
               Pass(values[..], acc[..]))
    modifies seen, parentOf, parentEdgeOf, parentForward, acc, values
    ensures |L| == n
    ensures Progress(n, es, L, TreeOf(seen, parentOf, parentEdgeOf, parentForward), pads, frames,
                     Pass(values[..], acc[..]))
    ensures |adj| == n && forall u :: 0 <= u < n ==> seen[u] || adj[u] == []
  {
    hide Progress, Labels, Adjacency, ValidPads, TreeOf;
    AdjacencySize(n, es, adj);
    for root := 0 to n
      invariant Progress(n, es, L, TreeOf(seen, parentOf, parentEdgeOf, parentForward), pads, frames,
                  Pass(values[..], acc[..]))
      invariant forall u :: 0 <= u < root ==> seen[u] || adj[u] == []
    {
      if !seen[root] && adj[root] != [] {
        SolveComponent(n, es, L, adj, root, pads, frames, seen, parentOf, parentEdgeOf, parentForward, acc, values);
      }
    }
  }

  lemma AdjacencySize(n: nat, es: seq<Edge>, adj: seq<seq<Half>>)
    requires WellFormed(n, es) && Adjacency(n, es, adj, |es|)
    ensures |adj| == n
  {
  }

  method SolveForest(n: nat, es: seq<Edge>, pads: PadCurrents, frames: nat) returns (perEdge: seq<Option<Series>>)
    requires WellFormed(n, es) && ValidPads(pads, frames)
    ensures |perEdge| == |es| && ValidRows(perEdge, frames)
    ensures forall f :: 0 <= f < frames ==>
      Conserves(n, es, FlowAt(perEdge, f), Accounted(n, es, PadsOf(pads, n, f)))
    ensures (forall e :: 0 <= e < |es| ==> perEdge[e].Some?) <==> !HasCycle(es)
    ensures Spans(n, es, perEdge)
  {
    hide Spans, Progress, Conserves, Labels, Adjacency, HasCycle, Accounted, PadsOf, FlowAt, ValidPads, ValidRows;
    var adj := BuildAdjacency(n, es);
    var values := new Option<Series>[|es|](_ => None);
    var seen := new bool[n](_ => false);
    var parentOf := new int[n](_ => -1);
    var parentEdgeOf := new int[n](_ => -1);
    var parentForward := new bool[n](_ => false);
    var acc := new Option<Series>[n](_ => None);
    ghost var L := Labels(n, es, |es|, -1);
    StartProgress(n, es, L, TreeOf(seen, parentOf, parentEdgeOf, parentForward), pads, frames,
      Pass(values[..], acc[..]));
    SolveComponents(n, es, L, adj, pads, frames, seen, parentOf, parentEdgeOf, parentForward, acc, values);
    ghost var t := TreeOf(seen, parentOf, parentEdgeOf, parentForward);
    DoneMeans(n, es, adj, t, pads, frames, Pass(values[..], acc[..]));
    return values[..];
  }

  lemma NoReason(reason: Option<Reason>)
    requires reason != Some(Loop) && reason != Some(UnknownPadCurrent)
    ensures reason == None
  {
    if reason.Some? {
      match reason.value
      case Loop =>
      case UnknownPadCurrent =>
    }
  }

  /** The walk stays on edges that have a value. */
  ghost predicate ValuedWalk(es: seq<Edge>, rows: seq<Option<Series>>, w: seq<Step>, u: nat, v: nat) {
    Walk(es, w, u, v) && forall i :: 0 <= i < |w| ==> w[i].edge < |rows| && rows[w[i].edge].Some?
  }

  /** Edges with a value link all that the copper links. */
  ghost predicate Spans(n: nat, es: seq<Edge>, rows: seq<Option<Series>>)
    requires WellFormed(n, es)
  {
    forall u: nat, v: nat | u < n && v < n && Joined(n, es, |es|, -1, u, v) :: exists w :: ValuedWalk(es, rows, w, u, v)
  }

  /** Which reason is given when, and which edges have a value. */
  ghost predicate Reported(n: nat, es: seq<Edge>, pads: PadCurrents, perEdge: seq<Option<Series>>,
                           reason: Option<Reason>)
    requires WellFormed(n, es)
  {
    && |perEdge| == |es|
    && (reason == Some(Loop) <==> |es| > n - 1)
    && (reason == Some(UnknownPadCurrent) <==> |es| <= n - 1 && Unknown(pads))
    && (reason.Some? ==> forall e :: 0 <= e < |es| ==> perEdge[e].None?)
    && (reason.None? ==> ((forall e :: 0 <= e < |es| ==> perEdge[e].Some?) <==> !HasCycle(es)))
    && (reason.None? ==> Spans(n, es, perEdge))
  }

  method Solve(n: nat, es: seq<Edge>, pads: PadCurrents, frames: nat)
    returns (perEdge: seq<Option<Series>>, reason: Option<Reason>)
    requires WellFormed(n, es) && ValidPads(pads, frames)
    ensures ValidRows(perEdge, frames) && Reported(n, es, pads, perEdge, reason)
    ensures reason.None? ==> forall f :: 0 <= f < frames ==>
      Conserves(n, es, FlowAt(perEdge, f), Accounted(n, es, PadsOf(pads, n, f)))
  {
    if |es| > n - 1 {
      return seq(|es|, _ => None), Some(Loop);
    }
    if Unknown(pads) {
      return seq(|es|, _ => None), Some(UnknownPadCurrent);
    }
    perEdge := SolveForest(n, es, pads, frames);
    reason := None;
  }

  lemma StartProgress(n: nat, es: seq<Edge>, L: seq<nat>, t: Tree, pads: PadCurrents, frames: nat, p: Pass)
    requires WellFormed(n, es) && |L| == n
    requires |t.seen| == |t.par| == |t.pe| == |t.fw| == |p.acc| == n && |p.rows| == |es|
    requires forall v :: 0 <= v < n ==> !t.seen[v] && t.pe[v] == -1 && p.acc[v] == None
    requires forall e :: 0 <= e < |es| ==> p.rows[e] == None
    ensures Progress(n, es, L, t, pads, frames, p)
  {
    forall v, f | 0 <= v < n && 0 <= f < frames
      ensures NetAt(es, p.rows, f, v) == 0.0
    {
      NoFlowNoNet(es, FlowAt(p.rows, f), v, |es|);
    }
  }

  lemma NoFlowNoNet(es: seq<Edge>, phi: seq<real>, v: nat, k: nat)
    requires k <= |es| == |phi| && forall e :: 0 <= e < |es| ==> phi[e] == 0.0
    ensures Net(es, phi, v, k) == 0.0
  {
    if k > 0 {
      NoFlowNoNet(es, phi, v, k - 1);
    }
  }

  lemma DoneMeans(n: nat, es: seq<Edge>, adj: seq<seq<Half>>, t: Tree, pads: PadCurrents, frames: nat, p: Pass)
    requires WellFormed(n, es) && Adjacency(n, es, adj, |es|)
    requires Progress(n, es, Labels(n, es, |es|, -1), t, pads, frames, p)
    requires forall u :: 0 <= u < n ==> t.seen[u] || adj[u] == []
    ensures |p.rows| == |es| && ValidRows(p.rows, frames)
    ensures forall f :: 0 <= f < frames ==> Conserves(n, es, FlowAt(p.rows, f), Accounted(n, es, PadsOf(pads, n, f)))
    ensures (forall e :: 0 <= e < |es| ==> p.rows[e].Some?) <==> !HasCycle(es)
    ensures Spans(n, es, p.rows)
  {
    forall f | 0 <= f < frames
      ensures Conserves(n, es, FlowAt(p.rows, f), Accounted(n, es, PadsOf(pads, n, f)))
    {
      DoneConserves(n, es, adj, t, pads, frames, p, f);
    }
    forall v | 0 <= v < n
      ensures t.pe[v] >= 0 <==> !Least(Labels(n, es, |es|, -1), v)
    {
      if t.pe[v] < 0 {
        LeastWhenNotChild(n, es, adj, t, v);
      }
    }
    ValuedIffAcyclic(n, es, t);
    forall u: nat, v: nat | u < n && v < n && Joined(n, es, |es|, -1, u, v)
      ensures exists w :: ValuedWalk(es, p.rows, w, u, v)
    {
      if u == v {
        assert ValuedWalk(es, p.rows, [], u, v);
      } else {
        SeenTogether(n, es, adj, t, u, v);
        TreeLinks(n, es, t, p.rows, u, v);
      }
    }
  }

  /** Up to the root that two joined nodes share, and down again. */
  lemma TreeLinks(n: nat, es: seq<Edge>, t: Tree, rows: seq<Option<Series>>, u: nat, v: nat)
    requires WellFormed(n, es) && u < n && v < n && Joined(n, es, |es|, -1, u, v) && |t.seen| == |t.pe| == n
    requires Reaches(es, t, u) && Reaches(es, t, v)
    requires forall x :: 0 <= x < n && t.seen[x] && t.pe[x] == -1 ==> Least(Labels(n, es, |es|, -1), x)
    requires |rows| == |es| && forall e :: 0 <= e < |es| ==> (rows[e].Some? <==> IsTreeEdge(t, e))
    ensures exists w :: ValuedWalk(es, rows, w, u, v)
  {
    hide ValuedWalk, IsTreeEdge, Least, Reaches;
    var r, up := WayUp(n, es, t, rows, u);
    var q, up' := WayUp(n, es, t, rows, v);
    LeastIsUnique(Labels(n, es, |es|, -1), r, q);
    hide Labels;
    DownAgain(es, rows, up, u, up', v, r);
  }

  lemma WayUp(n: nat, es: seq<Edge>, t: Tree, rows: seq<Option<Series>>, u: nat) returns (r: nat, w: seq<Step>)
    requires WellFormed(n, es) && u < n && |t.seen| == |t.pe| == n && Reaches(es, t, u)
    requires |rows| == |es| && forall e :: 0 <= e < |es| ==> (rows[e].Some? <==> IsTreeEdge(t, e))
    ensures r < n && t.seen[r] && t.pe[r] == -1 && Joined(n, es, |es|, -1, u, r)
    ensures ValuedWalk(es, rows, w, u, r)
  {
    hide IsTreeEdge, Labels;
    r, w :| r < n && t.seen[r] && t.pe[r] == -1 && TreeWalk(es, t, w, u, r);
    WalkInRange(es, w, u, r);
    WalkStaysJoined(n, es, |es|, -1, w, u, r);
  }

  lemma DownAgain(es: seq<Edge>, rows: seq<Option<Series>>, w: seq<Step>, u: nat, w': seq<Step>, v: nat, r: nat)
    requires ValuedWalk(es, rows, w, u, r) && ValuedWalk(es, rows, w', v, r)
    ensures exists x :: ValuedWalk(es, rows, x, u, v)
  {
    WalkBack(es, w', v, r);
    WalkConcat(es, w, Reversed(w'), u, r, v);
    hide Walk;
    assert ValuedWalk(es, rows, w + Reversed(w'), u, v);
  }

  // ------------------------------------------------------------------------------------------------------
  // Main results
  // ------------------------------------------------------------------------------------------------------

  /** On connected copper the edge-count test finds exactly the copper with a cycle. */
  lemma LoopTestDecides(n: nat, es: seq<Edge>)
    requires WellFormed(n, es) && n > 0 && Connected(n, es)
    ensures |es| > n - 1 <==> HasCycle(es)
  {
    CycleIffTooManyEdges(n, es);
    ConnectedMeansOneComponent(n, es);
  }

  /** On any copper, the edge-count test is right unless the count falls between nodes less components and
      nodes less one. */
  lemma LoopTestIsRightExactlyWhen(n: nat, es: seq<Edge>)
    requires WellFormed(n, es) && n > 0
    ensures (|es| > n - 1 <==> HasCycle(es)) <==> !(n - Components(n, es, |es|) < |es| <= n - 1)
  {
    CycleIffTooManyEdges(n, es);
    var L := Labels(n, es, |es|, -1);
    assert L[0] in LabelSet(L);
  }

  ghost function Total(g: seq<real>): real {
    if g == [] then 0.0 else Total(g[..|g| - 1]) + g[|g| - 1]
  }

  lemma WholeSideIsTotal(L: seq<nat>, c: nat, g: seq<real>, m: nat)
    requires m <= |L| == |g| && forall v :: 0 <= v < |L| ==> L[v] == c
    ensures SideSum(L, c, g, m) == Total(g[..m])
  {
    if m > 0 {
      WholeSideIsTotal(L, c, g, m - 1);
      assert g[..m][..m - 1] == g[..m - 1];
    }
  }

  lemma ConnectedHasOneLabel(n: nat, es: seq<Edge>, L: seq<nat>)
    requires WellFormed(n, es) && n > 0 && Connected(n, es) && L == Labels(n, es, |es|, -1)
    ensures |L| == n && forall v :: 0 <= v < n ==> L[v] == L[0]
  {
    forall v | 0 <= v < n
      ensures L[v] == L[0]
    {
      assert Joined(n, es, |es|, -1, v, 0);
    }
  }

  lemma OneLabelAccounts(L: seq<nat>, g: seq<real>)
    requires |L| == |g| > 0 && forall v :: 0 <= v < |L| ==> L[v] == L[0]
    ensures Least(L, 0) && forall v :: 0 < v < |L| ==> !Least(L, v)
    ensures forall v :: 0 <= v < |L| ==> SideSum(L, L[v], g, |L|) == Total(g)
  {
    WholeSideIsTotal(L, L[0], g, |L|);
    assert g[..|L|] == g;
    forall v | 0 < v < |L|
      ensures !Least(L, v)
    {
      assert L[0] == L[v];
    }
  }

  /** On connected copper a solve accounts for every node's pads, and node 0 takes up the total. */
  lemma ConnectedAccounts(n: nat, es: seq<Edge>, g: seq<real>)
    requires WellFormed(n, es) && n > 0 && Connected(n, es) && |g| == n
    ensures var h := Accounted(n, es, g); h[0] == g[0] - Total(g) && h[1..] == g[1..]
  {
    var L := Labels(n, es, |es|, -1);
    ConnectedHasOneLabel(n, es, L);
    OneLabelAccounts(L, g);
    hide Connected, Joined, Labels, SideSum, Total, Least;
    var h := Accounted(n, es, g);
    hide IsRoot, ComponentTotal, Accounted;
    assert forall v :: 0 < v < n ==> h[v] == g[v];
    assert forall v :: 0 <= v < n - 1 ==> h[1..][v] == h[v + 1];
  }

  /** When the pads of a connected net balance, the solve is the one flow that conserves them, whatever root or
      order produced it. */
  lemma BalancedSolveIsTheFlow(n: nat, es: seq<Edge>, pads: PadCurrents, rows: seq<Option<Series>>, f: nat,
                               phi: seq<real>)
    requires WellFormed(n, es) && n > 0 && Connected(n, es) && |es| <= n - 1 && |rows| == |phi| == |es|
    requires Conserves(n, es, FlowAt(rows, f), Accounted(n, es, PadsOf(pads, n, f)))
    requires Total(PadsOf(pads, n, f)) == 0.0
    ensures Conserves(n, es, FlowAt(rows, f), PadsOf(pads, n, f))
    ensures Conserves(n, es, phi, PadsOf(pads, n, f)) ==> phi == FlowAt(rows, f)
  {
    var g := PadsOf(pads, n, f);
    ConnectedAccounts(n, es, g);
    assert Accounted(n, es, g) == g;
    LoopTestDecides(n, es);
    if Conserves(n, es, phi, g) {
      ConservingFlowIsUnique(n, es, phi, FlowAt(rows, f), g);
    }
  }
}
