/** Distance along the conductor.  The walk that gives every quad the phase its pulses start from, shown to measure the
    path from the net's seed whenever the net's copper is a tree.  */
module Distances {
  import opened Graph
  import opened Series
  import opened SpanningTree

  /** How long a walk is, given each edge's quad and each quad's length. */
  ghost function Length(quadOf: seq<nat>, lens: seq<real>, w: seq<Step>): real
    requires forall i :: 0 <= i < |w| ==> w[i].edge < |quadOf| && quadOf[w[i].edge] < |lens|
  {
    if w == [] then 0.0
    else
      var last := |w| - 1;
      Length(quadOf, lens, w[..last]) + lens[quadOf[w[last].edge]]
  }

  ghost predicate QuadsOfEdges(quadOf: seq<nat>, m: nat, quads: nat) {
    && |quadOf| == m
    && (forall e :: 0 <= e < m ==> quadOf[e] < quads)
    && NoDuplicates(quadOf)
  }

  /** Every quad starts as far from the net's seed as any trail to its first point is long. */
  ghost predicate PhaseFromSeed(n: nat, es: seq<Edge>, quadOf: seq<nat>, lens: seq<real>, distOfQuad: seq<real>)
    requires WellFormed(n, es) && |quadOf| == |es| && |lens| == |distOfQuad|
    requires forall e :: 0 <= e < |es| ==> quadOf[e] < |lens|
  {
    forall e, u, w ::
      0 <= e < |es| && 0 <= u < n && IsRoot(n, es, u) && StepsExist(w, |es|) && Walk(es, w, u, es[e].a) && Trail(w) ==>
      distOfQuad[quadOf[e]] == Length(quadOf, lens, w)
  }

  ghost predicate StepsExist(w: seq<Step>, m: nat) {
    forall i :: 0 <= i < |w| ==> w[i].edge < m
  }

  // ------------------------------------------------------------------------------------------------------
  // The walk
  // ------------------------------------------------------------------------------------------------------

  /** Distances recorded so far: zero at a seed, one edge more than the parent elsewhere. */
  ghost predicate Measured(n: nat, es: seq<Edge>, quadOf: seq<nat>, lens: seq<real>, t: Tree, dist: seq<real>,
                           distOfQuad: seq<real>)
    requires WellFormed(n, es) && Forest(n, es, t) && |lens| == |distOfQuad| && QuadsOfEdges(quadOf, |es|, |lens|)
  {
    && |dist| == n
    && (forall v :: 0 <= v < n && t.seen[v] && t.pe[v] < 0 ==> dist[v] == 0.0)
    && (forall v :: 0 <= v < n && t.pe[v] >= 0 ==> Placed(n, es, quadOf, lens, t, dist, distOfQuad, v))
  }

  ghost predicate Placed(n: nat, es: seq<Edge>, quadOf: seq<nat>, lens: seq<real>, t: Tree, dist: seq<real>,
                         distOfQuad: seq<real>, v: nat)
    requires WellFormed(n, es) && Forest(n, es, t) && |lens| == |distOfQuad| && QuadsOfEdges(quadOf, |es|, |lens|)
    requires |dist| == n && v < n && t.pe[v] >= 0
  {
    && Link(es, t, v)
    && dist[v] == dist[t.par[v]] + lens[quadOf[t.pe[v]]]
    && distOfQuad[quadOf[t.pe[v]]] == dist[es[t.pe[v]].a]
  }

  /** Parent links of seen nodes, and no others, lead away from the least node of a component. */
  ghost predicate Rooted(L: seq<nat>, t: Tree)
    requires |L| == |t.seen| == |t.pe|
  {
    forall v :: 0 <= v < |L| && t.seen[v] ==> (t.pe[v] >= 0 <==> !Least(L, v))
  }

  lemma SeeMeasures(n: nat, es: seq<Edge>, quadOf: seq<nat>, lens: seq<real>, t: Tree, node: nat, nb: Half,
                    dist: seq<real>, dq: seq<real>,
                    dist': seq<real>, dq': seq<real>)
    requires WellFormed(n, es) && Forest(n, es, t) && |lens| == |dq| && QuadsOfEdges(quadOf, |es|, |lens|)
    requires Measured(n, es, quadOf, lens, t, dist, dq)
    requires node < n && t.seen[node] && HalfAt(n, es, nb, node) && !t.seen[nb.to]
    requires dist' == dist[nb.to := dist[node] + lens[quadOf[nb.edge]]]
    requires dq' == dq[quadOf[nb.edge] := if es[nb.edge].a == node then dist[node] else dist'[nb.to]]
    ensures Forest(n, es, Record(t, node, nb)) && Measured(n, es, quadOf, lens, Record(t, node, nb), dist', dq')
  {
    SeeKeepsForest(n, es, t, node, nb);
    var t' := Record(t, node, nb);
    forall v | 0 <= v < n && t'.pe[v] >= 0
      ensures Placed(n, es, quadOf, lens, t', dist', dq', v)
    {
      assert Link(es, t', v);
      if v != nb.to {
        assert Placed(n, es, quadOf, lens, t, dist, dq, v);
        assert t'.pe[nb.to] == nb.edge != t'.pe[v];
      }
    }
  }

  /** Push every unseen neighbour of `node`, measuring it from there. */
  method Spread(n: nat, es: seq<Edge>, ghost L: seq<nat>, adj: seq<seq<Half>>, ghost root: nat, ghost t0: Tree,
                ghost seen0: seq<bool>,
                ghost order: seq<nat>, node: nat, stack0: seq<nat>, quadOf: seq<nat>, lens: seq<real>,
                seen: array<bool>, distOfNode: array<real>, distOfQuad: array<real>)
    returns (stack: seq<nat>, ghost t: Tree)
    requires WellFormed(n, es) && Adjacency(n, es, adj, |es|) && root < n && |seen0| == |L| == n
    requires forall i :: 0 <= i < |es| ==> L[es[i].a] == L[es[i].b]
    requires seen[..] == t0.seen && distOfNode != distOfQuad && |lens| == distOfQuad.Length
    requires QuadsOfEdges(quadOf, |es|, |lens|)
    requires Frontier(n, es, L, root, seen0, t0, order, stack0)
    requires Measured(n, es, quadOf, lens, t0, distOfNode[..], distOfQuad[..])
    requires node < n == distOfNode.Length && node in order
    modifies seen, distOfNode, distOfQuad
    ensures seen[..] == t.seen && Keeps(t0, t) && Finished(adj, node, t.seen)
    ensures Frontier(n, es, L, root, seen0, t, order, stack)
    ensures Measured(n, es, quadOf, lens, t, distOfNode[..], distOfQuad[..])
    ensures forall q :: 0 <= q < |lens| && q !in quadOf ==> distOfQuad[q] == old(distOfQuad[q])
  {
    hide Forest, Met, ParentsFirst, Measured, QuadsOfEdges;
    stack, t := stack0, t0;
    for k := 0 to |adj[node]|
      invariant seen[..] == t.seen && Keeps(t0, t) && Expanded(adj, node, k, t.seen)
      invariant Frontier(n, es, L, root, seen0, t, order, stack)
      invariant Measured(n, es, quadOf, lens, t, distOfNode[..], distOfQuad[..])
      invariant forall q :: 0 <= q < |lens| && q !in quadOf ==> distOfQuad[q] == old(distOfQuad[q])
    {
      var nb := adj[node][k];
      assert HalfAt(n, es, nb, node);
      if !seen[nb.to] {
        stack, t := See(n, es, L, root, t, seen0, order, node, nb, stack, quadOf, lens, seen, distOfNode, distOfQuad);
      }
    }
  }

  method See(n: nat, es: seq<Edge>, ghost L: seq<nat>, ghost root: nat, ghost t0: Tree, ghost seen0: seq<bool>,
             ghost order: seq<nat>,
             node: nat, nb: Half, stack0: seq<nat>, quadOf: seq<nat>, lens: seq<real>,
             seen: array<bool>, distOfNode: array<real>, distOfQuad: array<real>)
    returns (stack: seq<nat>, ghost t: Tree)
    requires WellFormed(n, es) && root < n && |seen0| == |L| == n
    requires seen[..] == t0.seen && distOfNode != distOfQuad && |lens| == distOfQuad.Length
    requires QuadsOfEdges(quadOf, |es|, |lens|)
    requires Frontier(n, es, L, root, seen0, t0, order, stack0)
    requires Measured(n, es, quadOf, lens, t0, distOfNode[..], distOfQuad[..])
    requires node < n == distOfNode.Length && node in order && HalfAt(n, es, nb, node) && L[node] == L[nb.to]
    requires !seen[nb.to]
    modifies seen, distOfNode, distOfQuad
    ensures t == Record(t0, node, nb) && stack == stack0 + [nb.to] && seen[..] == t.seen
    ensures Frontier(n, es, L, root, seen0, t, order, stack)
    ensures Measured(n, es, quadOf, lens, t, distOfNode[..], distOfQuad[..])
    ensures forall q :: 0 <= q < |lens| && q !in quadOf ==> distOfQuad[q] == old(distOfQuad[q])
  {
    hide Frontier, Measured, HalfAt;
    ghost var dist0, dq0 := distOfNode[..], distOfQuad[..];
    FrontierFacts(n, es, L, root, seen0, t0, order, stack0, node, nb);
    t := Record(t0, node, nb);
    SeeKeepsFrontier(n, es, L, root, seen0, t0, order, stack0, node, nb);
    seen[nb.to] := true;
    var d := distOfNode[node] + lens[quadOf[nb.edge]];
    distOfNode[nb.to] := d;
    distOfQuad[quadOf[nb.edge]] := if es[nb.edge].a == node then distOfNode[node] else d;
    stack := stack0 + [nb.to];
    assert distOfNode[..] == dist0[nb.to := d];
    SeeMeasures(n, es, quadOf, lens, t0, node, nb, dist0, dq0, distOfNode[..], distOfQuad[..]);
    assert quadOf[nb.edge] in quadOf;
  }

  lemma FrontierFacts(n: nat, es: seq<Edge>, L: seq<nat>, root: nat, seen0: seq<bool>, t: Tree, order: seq<nat>,
                      stack: seq<nat>,
                      node: nat, nb: Half)
    requires WellFormed(n, es) && root < n && |seen0| == |L| == n && Frontier(n, es, L, root, seen0, t, order, stack)
    requires node in order && HalfAt(n, es, nb, node)
    ensures Forest(n, es, t) && |t.seen| == |t.par| == |t.pe| == |t.fw| == n && node < n && t.seen[node] && nb.to < n
    ensures nb.edge < |es|
  {
    hide Forest, ParentsFirst, Waiting;
  }

  /** Walk one component from its seed. */
  method Measure(n: nat, es: seq<Edge>, ghost L: seq<nat>, adj: seq<seq<Half>>, seed: nat, ghost t0: Tree,
                 quadOf: seq<nat>, lens: seq<real>,
                 seen: array<bool>, distOfNode: array<real>, distOfQuad: array<real>)
    returns (ghost t: Tree)
    requires WellFormed(n, es) && Adjacency(n, es, adj, |es|) && seed < n && |L| == n
    requires forall i :: 0 <= i < |es| ==> L[es[i].a] == L[es[i].b]
    requires seen[..] == t0.seen && distOfNode != distOfQuad && |lens| == distOfQuad.Length
    requires QuadsOfEdges(quadOf, |es|, |lens|)
    requires Forest(n, es, t0) && Closed(n, es, t0.seen)
    requires Measured(n, es, quadOf, lens, t0, distOfNode[..], distOfQuad[..])
    requires |t0.seen| == |t0.pe| == distOfNode.Length == n && !seen[seed] && Least(L, seed) && Rooted(L, t0)
    modifies seen, distOfNode, distOfQuad
    ensures seen[..] == t.seen && |t.seen| == n && t.seen[seed] && forall u :: 0 <= u < n && t0.seen[u] ==> t.seen[u]
    ensures Forest(n, es, t) && Closed(n, es, t.seen)
    ensures Measured(n, es, quadOf, lens, t, distOfNode[..], distOfQuad[..]) && Rooted(L, t)
    ensures forall q :: 0 <= q < |lens| && q !in quadOf ==> distOfQuad[q] == old(distOfQuad[q])
  {
    hide Forest, Met, ParentsFirst, Hung, Closed, Adjacency, Measured, QuadsOfEdges, Rooted, Least;
    ghost var seen0, order: seq<nat> := t0.seen, [];
    ghost var dist0 := distOfNode[..];
    t := t0.(seen := seen0[seed := true]);
    seen[seed] := true;
    distOfNode[seed] := 0.0;
    var stack: seq<nat> := [seed];
    StartFrontier(n, es, L, seed, seen0, t, t0);
    StartMeasured(n, es, quadOf, lens, t0, t, seed, dist0, distOfNode[..], distOfQuad[..]);
    ghost var todo := set v: nat | v < n && v !in order;
    while stack != []
      invariant seen[..] == t.seen && Keeps(t0, t)
      invariant Frontier(n, es, L, seed, seen0, t, order, stack)
      invariant Measured(n, es, quadOf, lens, t, distOfNode[..], distOfQuad[..])
      invariant forall i :: 0 <= i < |order| ==> Finished(adj, order[i], t.seen)
      invariant todo == set v: nat | v < n && v !in order
      invariant forall q :: 0 <= q < |lens| && q !in quadOf ==> distOfQuad[q] == old(distOfQuad[q])
      decreases todo
    {
      var node := stack[|stack| - 1];
      assert stack == stack[..|stack| - 1] + [node];
      VisitKeepsFrontier(n, es, L, seed, seen0, t, order, stack[..|stack| - 1], node);
      todo := todo - {node};
      stack := stack[..|stack| - 1];
      ghost var before := order;
      order := order + [node];
      assert order[|before|] == node;
      assert forall v :: v in before ==> v in order;
      stack, t := Spread(n, es, L, adj, seed, t, seen0, order, node, stack, quadOf, lens, seen, distOfNode, distOfQuad);
    }
    ExploredIsClosed(n, es, L, adj, seed, seen0, t, order);
    RootIsSeen(n, es, L, seed, seen0, t, order);
    StaysRooted(n, es, L, seed, t0, t, order);
  }

  lemma StartMeasured(n: nat, es: seq<Edge>, quadOf: seq<nat>, lens: seq<real>, t0: Tree, t: Tree, seed: nat,
                      dist0: seq<real>, dist: seq<real>, dq: seq<real>)
    requires WellFormed(n, es) && Forest(n, es, t0) && Forest(n, es, t) && |lens| == |dq|
    requires QuadsOfEdges(quadOf, |es|, |lens|)
    requires Measured(n, es, quadOf, lens, t0, dist0, dq)
    requires seed < n && !t0.seen[seed] && t == t0.(seen := t0.seen[seed := true]) && dist == dist0[seed := 0.0]
    ensures Measured(n, es, quadOf, lens, t, dist, dq)
  {
    forall v | 0 <= v < n && t.pe[v] >= 0
      ensures Placed(n, es, quadOf, lens, t, dist, dq, v)
    {
      assert Placed(n, es, quadOf, lens, t0, dist0, dq, v);
      assert t0.seen[v] && t0.seen[t0.par[v]];
    }
  }

  lemma StaysRooted(n: nat, es: seq<Edge>, L: seq<nat>, seed: nat, t0: Tree, t: Tree, order: seq<nat>)
    requires WellFormed(n, es) && |L| == n && seed < n && Least(L, seed) && |t0.seen| == |t0.pe| == n
    requires Frontier(n, es, L, seed, t0.seen, t, order, []) && Keeps(t0, t) && Rooted(L, t0)
    ensures Rooted(L, t)
  {
    forall v | 0 <= v < n && t.seen[v]
      ensures t.pe[v] >= 0 <==> !Least(L, v)
    {
      if v in order {
        LeastInOrder(n, es, L, seed, t0.seen, t, order, v);
      }
    }
  }

  /** Phase origins for one net's quads; the quads of other nets keep theirs. */
  method AssignDistances(n: nat, es: seq<Edge>, quadOf: seq<nat>, lens: seq<real>, distOfQuad: array<real>)
    requires WellFormed(n, es) && |lens| == distOfQuad.Length && QuadsOfEdges(quadOf, |es|, |lens|)
    modifies distOfQuad
    ensures !HasCycle(es) ==> PhaseFromSeed(n, es, quadOf, lens, distOfQuad[..])
    ensures forall q :: 0 <= q < |lens| && q !in quadOf ==> distOfQuad[q] == old(distOfQuad[q])
  {
    hide Labels, Adjacency, HasCycle, Measured, QuadsOfEdges, Rooted, Least, PhaseFromSeed;
    var adj := BuildAdjacency(n, es);
    var seen := new bool[n](_ => false);
    var distOfNode := new real[n](_ => 0.0);
    ghost var L := Labels(n, es, |es|, -1);
    ghost var t := Tree(seen[..], seq(n, _ => -1), seq(n, _ => -1), seq(n, _ => false));
    EdgesShareLabels(n, es);
    NothingMeasured(n, es, L, quadOf, lens, t, distOfNode[..], distOfQuad[..]);
    hide Forest, Closed;
    for seed := 0 to n
      invariant fresh(seen) && fresh(distOfNode) && seen[..] == t.seen
      invariant Forest(n, es, t) && Closed(n, es, t.seen)
      invariant Measured(n, es, quadOf, lens, t, distOfNode[..], distOfQuad[..]) && Rooted(L, t)
      invariant forall u :: 0 <= u < seed ==> t.seen[u] || adj[u] == []
      invariant forall q :: 0 <= q < |lens| && q !in quadOf ==> distOfQuad[q] == old(distOfQuad[q])
    {
      if adj[seed] != [] && !seen[seed] {
        NewRootIsLeast(n, es, adj, t.seen, seed);
        t := Measure(n, es, L, adj, seed, t, quadOf, lens, seen, distOfNode, distOfQuad);
      }
    }
    if !HasCycle(es) {
      DistancesAreLengths(n, es, adj, quadOf, lens, t, distOfNode[..], distOfQuad[..]);
    }
  }

  lemma NothingMeasured(n: nat, es: seq<Edge>, L: seq<nat>, quadOf: seq<nat>, lens: seq<real>, t: Tree,
                        dist: seq<real>, dq: seq<real>)
    requires WellFormed(n, es) && |L| == n && |lens| == |dq| && QuadsOfEdges(quadOf, |es|, |lens|) && |dist| == n
    requires |t.seen| == |t.par| == |t.pe| == |t.fw| == n && forall v :: 0 <= v < n ==> !t.seen[v] && t.pe[v] == -1
    ensures Forest(n, es, t) && Closed(n, es, t.seen) && Measured(n, es, quadOf, lens, t, dist, dq) && Rooted(L, t)
  {
  }

  // ------------------------------------------------------------------------------------------------------
  // What the distances measure
  // ------------------------------------------------------------------------------------------------------

  /** In a spanning forest a trail away from a root never climbs: its last edge is the parent edge of its end. */
  lemma {:induction false} TrailDescends(n: nat, es: seq<Edge>, quadOf: seq<nat>, lens: seq<real>, t: Tree,
                                         dist: seq<real>, dq: seq<real>,
                                         w: seq<Step>, u: nat, v: nat)
    requires WellFormed(n, es) && Forest(n, es, t) && |lens| == |dq| && QuadsOfEdges(quadOf, |es|, |lens|)
    requires Measured(n, es, quadOf, lens, t, dist, dq) && forall e :: 0 <= e < |es| ==> IsTreeEdge(t, e)
    requires u < n && t.seen[u] && t.pe[u] < 0 && Walk(es, w, u, v) && Trail(w) && StepsExist(w, |es|)
    ensures v < n && dist[v] == Length(quadOf, lens, w)
    ensures w != [] ==> t.pe[v] == w[|w| - 1].edge
  {
    if w != [] {
      var last := |w| - 1;
      var w', s := w[..last], w[last];
      WalkSplit(es, w, last, u, v);
      assert w[last + 1..] == [];
      var x := From(es, s);
      TrailDescends(n, es, quadOf, lens, t, dist, dq, w', u, x);
      if w' != [] {
        assert w[last - 1].edge == w'[last - 1].edge;
      }
      hide Forest, Rooted, Trail, Walk;
      StepsDown(n, es, quadOf, lens, t, dist, dq, s, x);
    }
  }

  /** A step along a tree edge that is not the parent edge of where it starts goes down to a child. */
  lemma StepsDown(n: nat, es: seq<Edge>, quadOf: seq<nat>, lens: seq<real>, t: Tree, dist: seq<real>, dq: seq<real>,
                  s: Step, x: nat)
    requires WellFormed(n, es) && Forest(n, es, t) && |lens| == |dq| && QuadsOfEdges(quadOf, |es|, |lens|)
    requires Measured(n, es, quadOf, lens, t, dist, dq) && s.edge < |es| && IsTreeEdge(t, s.edge)
    requires x < n && From(es, s) == x && t.pe[x] != s.edge
    ensures var v := To(es, s); v < n && t.pe[v] == s.edge && dist[v] == dist[x] + lens[quadOf[s.edge]]
  {
    var c :| 0 <= c < |t.pe| && t.pe[c] == s.edge;
    assert Placed(n, es, quadOf, lens, t, dist, dq, c);
  }

  lemma DistancesAreLengths(n: nat, es: seq<Edge>, adj: seq<seq<Half>>, quadOf: seq<nat>, lens: seq<real>, t: Tree,
                            dist: seq<real>, dq: seq<real>)
    requires WellFormed(n, es) && Adjacency(n, es, adj, |es|) && |lens| == |dq| && QuadsOfEdges(quadOf, |es|, |lens|)
    requires Forest(n, es, t) && Measured(n, es, quadOf, lens, t, dist, dq) && Rooted(Labels(n, es, |es|, -1), t)
    requires forall u :: 0 <= u < n ==> t.seen[u] || adj[u] == []
    requires !HasCycle(es)
    ensures PhaseFromSeed(n, es, quadOf, lens, dq)
  {
    EveryEdgeInTree(n, es, adj, t);
    forall e, u, w | 0 <= e < |es| && 0 <= u < n && IsRoot(n, es, u) && StepsExist(w, |es|)
      && Walk(es, w, u, es[e].a) && Trail(w)
      ensures dq[quadOf[e]] == Length(quadOf, lens, w)
    {
      TrailReaches(n, es, adj, quadOf, lens, t, dist, dq, e, u, w);
    }
  }

  lemma EveryEdgeInTree(n: nat, es: seq<Edge>, adj: seq<seq<Half>>, t: Tree)
    requires WellFormed(n, es) && Adjacency(n, es, adj, |es|) && Forest(n, es, t) && Rooted(Labels(n, es, |es|, -1), t)
    requires forall u :: 0 <= u < n ==> t.seen[u] || adj[u] == []
    requires !HasCycle(es)
    ensures forall e :: 0 <= e < |es| ==> IsTreeEdge(t, e)
  {
    forall v | 0 <= v < n
      ensures t.pe[v] >= 0 <==> !Least(Labels(n, es, |es|, -1), v)
    {
      if t.pe[v] < 0 {
        LeastWhenNotChild(n, es, adj, t, v);
      }
    }
    ValuedIffAcyclic(n, es, t);
  }

  lemma TrailReaches(n: nat, es: seq<Edge>, adj: seq<seq<Half>>, quadOf: seq<nat>, lens: seq<real>, t: Tree,
                     dist: seq<real>, dq: seq<real>,
                     e: nat, u: nat, w: seq<Step>)
    requires WellFormed(n, es) && Adjacency(n, es, adj, |es|) && |lens| == |dq| && QuadsOfEdges(quadOf, |es|, |lens|)
    requires Forest(n, es, t) && Measured(n, es, quadOf, lens, t, dist, dq) && Rooted(Labels(n, es, |es|, -1), t)
    requires forall v :: 0 <= v < n ==> t.seen[v] || adj[v] == []
    requires forall i :: 0 <= i < |es| ==> IsTreeEdge(t, i)
    requires e < |es| && u < n && IsRoot(n, es, u) && StepsExist(w, |es|) && Walk(es, w, u, es[e].a) && Trail(w)
    ensures dq[quadOf[e]] == Length(quadOf, lens, w)
  {
    assert Half(es[e].b, e, true) in adj[es[e].a];
    assert adj[u] != [] by {
      if w != [] {
        var f := w[0].edge;
        assert Half(es[f].b, f, true) in adj[es[f].a] && Half(es[f].a, f, false) in adj[es[f].b];
      }
    }
    TrailDescends(n, es, quadOf, lens, t, dist, dq, w, u, es[e].a);
    assert IsTreeEdge(t, e);
    var c :| 0 <= c < |t.pe| && t.pe[c] == e;
    assert Placed(n, es, quadOf, lens, t, dist, dq, c);
  }

  /** Such a trail always exists, so the distances of a tree are fixed. */
  lemma SeedReachesEveryQuad(n: nat, es: seq<Edge>, e: nat) returns (u: nat, w: seq<Step>)
    requires WellFormed(n, es) && e < |es|
    ensures u < n && IsRoot(n, es, u) && StepsExist(w, |es|) && Walk(es, w, u, es[e].a) && Trail(w)
  {
    var L := Labels(n, es, |es|, -1);
    u := LeastWithLabel(L, es[e].a);
    w := JoinedTrail(n, es, |es|, -1, u, es[e].a);
  }

  lemma {:induction false} LeastWithLabel(L: seq<nat>, v: nat) returns (u: nat)
    requires v < |L|
    ensures u <= v && L[u] == L[v] && Least(L, u)
  {
    if Least(L, v) {
      u := v;
    } else {
      var x :| 0 <= x < v && L[x] == L[v];
      u := LeastWithLabel(L, x);
    }
  }
}
