/** The depth-first walk over one net's copper: the spanning forest it records, the order it visits, and which edges the
    forest takes up.  */
module SpanningTree {
  import opened Graph

  /** One end of an edge as its neighbour sees it. */
  datatype Half = Half(to: nat, edge: nat, forward: bool)

  /** `v` is the least node carrying its label. */
  ghost predicate Least(L: seq<nat>, v: nat)
    requires v < |L|
  {
    forall u :: 0 <= u < v ==> L[u] != L[v]
  }

  /** The walk of a component starts at its least node. */
  ghost predicate IsRoot(n: nat, es: seq<Edge>, v: nat)
    requires WellFormed(n, es) && v < n
  {
    Least(Labels(n, es, |es|, -1), v)
  }

  ghost predicate Adjacency(n: nat, es: seq<Edge>, adj: seq<seq<Half>>, k: nat)
    requires WellFormed(n, es) && k <= |es|
  {
    && |adj| == n
    && (forall v, i :: 0 <= v < n && 0 <= i < |adj[v]| ==> HalfAt(n, es, adj[v][i], v))
    && (forall e :: 0 <= e < k ==>
         Half(es[e].b, e, true) in adj[es[e].a] && Half(es[e].a, e, false) in adj[es[e].b])
  }

  ghost predicate HalfAt(n: nat, es: seq<Edge>, h: Half, v: nat)
    requires WellFormed(n, es)
  {
    && h.edge < |es|
    && From(es, Step(h.edge, h.forward)) == v
    && To(es, Step(h.edge, h.forward)) == h.to
    && h.to < n
  }

  method BuildAdjacency(n: nat, es: seq<Edge>) returns (adj: seq<seq<Half>>)
    requires WellFormed(n, es)
    ensures Adjacency(n, es, adj, |es|)
  {
    adj := seq(n, _ => []);
    for i := 0 to |es|
      invariant Adjacency(n, es, adj, i)
    {
      var e := es[i];
      adj := adj[e.a := adj[e.a] + [Half(e.b, i, true)]];
      adj := adj[e.b := adj[e.b] + [Half(e.a, i, false)]];
    }
  }

  // ------------------------------------------------------------------------------------------------------
  // The walk
  // ------------------------------------------------------------------------------------------------------

  /** What the walk records per node: seen, parent, parent edge (-1 for none), and that edge's direction. */
  datatype Tree = Tree(seen: seq<bool>, par: seq<int>, pe: seq<int>, fw: seq<bool>)

  ghost function TreeOf(seen: array<bool>, par: array<int>, pe: array<int>, fw: array<bool>): Tree
    reads seen, par, pe, fw
  {
    Tree(seen[..], par[..], pe[..], fw[..])
  }

  /** The tree link above `v`: edge `pe[v]` walked from `par[v]` to `v`. */
  ghost predicate Link(es: seq<Edge>, t: Tree, v: nat)
    requires v < |t.par| == |t.pe| == |t.fw|
  {
    && 0 <= t.pe[v] < |es|
    && From(es, Step(t.pe[v], t.fw[v])) == t.par[v]
    && To(es, Step(t.pe[v], t.fw[v])) == v
    && t.par[v] != v
  }

  /** Parent links run between seen nodes, and no edge is the parent edge of two nodes. */
  ghost predicate Forest(n: nat, es: seq<Edge>, t: Tree)
    requires WellFormed(n, es)
  {
    && |t.seen| == |t.par| == |t.pe| == |t.fw| == n
    && (forall v :: 0 <= v < n ==> t.pe[v] >= -1)
    && (forall v :: 0 <= v < n && t.pe[v] >= 0 ==>
         t.seen[v] && 0 <= t.par[v] < n && t.seen[t.par[v]] && Link(es, t, v))
    && (forall u, v :: 0 <= u < v < n && t.pe[u] >= 0 ==> t.pe[u] != t.pe[v])
  }

  /** No edge leaves the seen nodes. */
  ghost predicate Closed(n: nat, es: seq<Edge>, seen: seq<bool>)
    requires WellFormed(n, es) && |seen| == n
  {
    forall i :: 0 <= i < |es| ==> seen[es[i].a] == seen[es[i].b]
  }

  ghost predicate NoDuplicates(s: seq<nat>) {
    forall i, j :: 0 <= i < j < |s| ==> s[i] != s[j]
  }

  /** `p` is one of the first `i` nodes of `order`. */
  ghost predicate Earlier(order: seq<nat>, i: nat, p: int)
    requires i <= |order|
  {
    exists j :: 0 <= j < i && order[j] == p
  }

  /** `v` is the root, or hangs below one of the first `i` nodes of `order`. */
  ghost predicate Hung(t: Tree, root: nat, v: nat, order: seq<nat>, i: nat)
    requires v < |t.par| == |t.pe| && i <= |order|
  {
    if v == root then t.pe[v] == -1 else t.pe[v] >= 0 && Earlier(order, i, t.par[v])
  }

  /** A walk order of one component: root first, every later node after its parent. */
  ghost predicate ParentsFirst(order: seq<nat>, n: nat, root: nat, t: Tree)
    requires |t.par| == |t.pe| == n
  {
    forall i :: 0 <= i < |order| ==> order[i] < n && Hung(t, root, order[i], order, i)
  }

  /** The visited order and the stack together list, once each, the nodes seen since the walk began. */
  ghost predicate Met(n: nat, seen0: seq<bool>, seen: seq<bool>, order: seq<nat>, stack: seq<nat>)
    requires |seen0| == |seen| == n
  {
    && NoDuplicates(order) && NoDuplicates(stack)
    && (forall v :: v in order ==> v < n && v !in stack && !seen0[v])
    && (forall v :: v in stack ==> v < n && !seen0[v])
    && (forall v :: 0 <= v < n ==> (seen[v] <==> seen0[v] || v in order || v in stack))
  }

  /** Every node on the stack is in the component and hangs below a visited node. */
  ghost predicate Waiting(n: nat, L: seq<nat>, root: nat, t: Tree, order: seq<nat>, stack: seq<nat>)
    requires root < n == |L| == |t.par| == |t.pe|
  {
    forall v :: v in stack ==> v < n && L[v] == L[root] && Hung(t, root, v, order, |order|)
  }

  /** Nodes met so far: the visited order, then the stack of nodes seen but not yet visited. */
  ghost predicate Frontier(n: nat, es: seq<Edge>, L: seq<nat>, root: nat, seen0: seq<bool>, t: Tree, order: seq<nat>,
                           stack: seq<nat>)
    requires WellFormed(n, es) && root < n && |seen0| == |L| == n
  {
    && |t.seen| == |t.par| == |t.pe| == |t.fw| == n
    && Forest(n, es, t)
    && Met(n, seen0, t.seen, order, stack)
    && (if order == [] then stack == [root] else order[0] == root)
    && (forall v :: v in order ==> L[v] == L[root])
    && Waiting(n, L, root, t, order, stack)
    && ParentsFirst(order, n, root, t)
  }

  /** The first `k` neighbours of `v` have been seen. */
  ghost predicate Expanded(adj: seq<seq<Half>>, v: nat, k: nat, seen: seq<bool>)
  {
    v < |adj| && k <= |adj[v]| && forall i :: 0 <= i < k ==> adj[v][i].to < |seen| && seen[adj[v][i].to]
  }

  ghost predicate Finished(adj: seq<seq<Half>>, v: nat, seen: seq<bool>) {
    v < |adj| && Expanded(adj, v, |adj[v]|, seen)
  }

  lemma VisitKeepsMet(n: nat, seen0: seq<bool>, seen: seq<bool>, order: seq<nat>, rest: seq<nat>, node: nat)
    requires |seen0| == |seen| == n && Met(n, seen0, seen, order, rest + [node])
    ensures node < n && node !in order && Met(n, seen0, seen, order + [node], rest)
  {
    var stack := rest + [node];
    assert stack[|rest|] == node && node in stack;
    forall i | 0 <= i < |rest|
      ensures rest[i] in stack && rest[i] != node
    {
      assert stack[i] == rest[i];
    }
    assert NoDuplicates(rest) by {
      assert forall i :: 0 <= i < |rest| ==> stack[i] == rest[i];
    }
  }

  lemma HungExtends(t: Tree, root: nat, v: nat, order: seq<nat>, i: nat, node: nat)
    requires v < |t.par| == |t.pe| && i <= |order| && Hung(t, root, v, order, i)
    ensures Hung(t, root, v, order + [node], i) && Hung(t, root, v, order + [node], i + 1)
  {
    if v != root {
      var j :| 0 <= j < i && order[j] == t.par[v];
      assert (order + [node])[j] == t.par[v];
    }
  }

  lemma ParentsFirstExtends(order: seq<nat>, n: nat, root: nat, t: Tree, node: nat)
    requires |t.par| == |t.pe| == n && node < n
    requires ParentsFirst(order, n, root, t) && Hung(t, root, node, order, |order|)
    ensures ParentsFirst(order + [node], n, root, t)
  {
    HungExtends(t, root, node, order, |order|, node);
    forall i | 0 <= i < |order|
      ensures Hung(t, root, order[i], order + [node], i)
    {
      HungExtends(t, root, order[i], order, i, node);
    }
  }

  lemma VisitKeepsFrontier(n: nat, es: seq<Edge>, L: seq<nat>, root: nat, seen0: seq<bool>, t: Tree, order: seq<nat>,
                           rest: seq<nat>, node: nat)
    requires WellFormed(n, es) && root < n && |seen0| == |L| == n
    requires Frontier(n, es, L, root, seen0, t, order, rest + [node])
    ensures node < n && node !in order && Frontier(n, es, L, root, seen0, t, order + [node], rest)
  {
    VisitKeepsMet(n, seen0, t.seen, order, rest, node);
    VisitKeepsWaiting(n, L, root, t, order, rest, node);
    ParentsFirstExtends(order, n, root, t, node);
    hide Forest, Met, ParentsFirst, Hung, Waiting;
    assert forall v :: v in order + [node] ==> v in order || v == node;
  }

  lemma VisitKeepsWaiting(n: nat, L: seq<nat>, root: nat, t: Tree, order: seq<nat>, rest: seq<nat>, node: nat)
    requires root < n == |L| == |t.par| == |t.pe| && Waiting(n, L, root, t, order, rest + [node])
    ensures node < n && L[node] == L[root] && Hung(t, root, node, order, |order|)
    ensures Waiting(n, L, root, t, order + [node], rest)
  {
    assert node in rest + [node];
    forall v | v in rest
      ensures v < n && L[v] == L[root] && Hung(t, root, v, order + [node], |order| + 1)
    {
      assert v in rest + [node];
      HungExtends(t, root, v, order, |order|, node);
    }
  }

  ghost function Record(t: Tree, node: nat, nb: Half): Tree
    requires nb.to < |t.seen| == |t.par| == |t.pe| == |t.fw|
  {
    Tree(t.seen[nb.to := true], t.par[nb.to := node], t.pe[nb.to := nb.edge], t.fw[nb.to := nb.forward])
  }

  /** Recording a new neighbour keeps the forest: an unseen node cannot touch an edge already used. */
  lemma SeeKeepsFrontier(n: nat, es: seq<Edge>, L: seq<nat>, root: nat, seen0: seq<bool>, t: Tree, order: seq<nat>,
                         stack: seq<nat>,
                         node: nat, nb: Half)
    requires WellFormed(n, es) && root < n && |seen0| == |L| == n
    requires Frontier(n, es, L, root, seen0, t, order, stack)
    requires node in order && HalfAt(n, es, nb, node) && !t.seen[nb.to] && L[node] == L[nb.to]
    ensures Frontier(n, es, L, root, seen0, Record(t, node, nb), order, stack + [nb.to])
  {
    var t' := Record(t, node, nb);
    var stack' := stack + [nb.to];
    SeeKeepsForest(n, es, t, node, nb);
    assert forall v :: v in stack' <==> v in stack || v == nb.to;
    assert Met(n, seen0, t'.seen, order, stack');
    assert nb.to !in order && nb.to !in stack;
    assert root in order;
    forall i | 0 <= i < |order|
      ensures Hung(t', root, order[i], order, i)
    {
      assert order[i] in order;
      assert Hung(t, root, order[i], order, i);
    }
    var q :| 0 <= q < |order| && order[q] == node;
    forall v | v in stack'
      ensures Hung(t', root, v, order, |order|)
    {
      if v != nb.to {
        assert Hung(t, root, v, order, |order|);
      } else {
        assert Earlier(order, |order|, t'.par[v]);
      }
    }
  }

  lemma SeeKeepsForest(n: nat, es: seq<Edge>, t: Tree, node: nat, nb: Half)
    requires WellFormed(n, es) && Forest(n, es, t)
    requires node < n && t.seen[node] && HalfAt(n, es, nb, node) && !t.seen[nb.to]
    ensures Forest(n, es, Record(t, node, nb))
  {
    forall u | 0 <= u < n && t.pe[u] >= 0
      ensures t.pe[u] != nb.edge && u != nb.to
    {
      assert Link(es, t, u);
    }
    var t' := Record(t, node, nb);
    forall v | 0 <= v < n && t'.pe[v] >= 0
      ensures Link(es, t', v)
    {
      if v != nb.to {
        assert Link(es, t, v);
      }
    }
  }

  lemma ExploredIsClosed(n: nat, es: seq<Edge>, L: seq<nat>, adj: seq<seq<Half>>, root: nat, seen0: seq<bool>, t: Tree,
                         order: seq<nat>)
    requires WellFormed(n, es) && root < n && |seen0| == |L| == n
    requires Adjacency(n, es, adj, |es|) && Closed(n, es, seen0)
    requires Frontier(n, es, L, root, seen0, t, order, [])
    requires forall i :: 0 <= i < |order| ==> Finished(adj, order[i], t.seen)
    ensures Closed(n, es, t.seen)
  {
    forall e | 0 <= e < |es|
      ensures t.seen[es[e].a] == t.seen[es[e].b]
    {
      var a, b := es[e].a, es[e].b;
      assert Half(b, e, true) in adj[a] && Half(a, e, false) in adj[b];
      if a in order {
        assert Finished(adj, a, t.seen);
      }
      if b in order {
        assert Finished(adj, b, t.seen);
      }
    }
  }

  /** Nodes seen before stay seen and keep their tree links. */
  ghost predicate Keeps(t0: Tree, t: Tree) {
    && |t0.seen| == |t0.pe| == |t.seen| == |t.pe|
    && forall v :: 0 <= v < |t0.seen| && t0.seen[v] ==> t.seen[v] && t.pe[v] == t0.pe[v]
  }

  method See(node: nat, nb: Half, seen: array<bool>, parentOf: array<int>, parentEdgeOf: array<int>,
             parentForward: array<bool>)
    requires nb.to < seen.Length == parentOf.Length == parentEdgeOf.Length == parentForward.Length
    requires seen != parentForward && parentOf != parentEdgeOf
    modifies seen, parentOf, parentEdgeOf, parentForward
    ensures TreeOf(seen, parentOf, parentEdgeOf, parentForward)
         == Record(old(TreeOf(seen, parentOf, parentEdgeOf, parentForward)), node, nb)
  {
    seen[nb.to] := true;
    parentOf[nb.to] := node;
    parentEdgeOf[nb.to] := nb.edge;
    parentForward[nb.to] := nb.forward;
  }

  /** Push every unseen neighbour of `node`, recording `node` as its parent. */
  method Expand(n: nat, es: seq<Edge>, ghost L: seq<nat>, adj: seq<seq<Half>>, ghost root: nat, ghost seen0: seq<bool>,
                ghost order: seq<nat>, node: nat, stack0: seq<nat>, seen: array<bool>,
                parentOf: array<int>, parentEdgeOf: array<int>, parentForward: array<bool>)
    returns (stack: seq<nat>)
    requires WellFormed(n, es) && Adjacency(n, es, adj, |es|) && root < n && |seen0| == |L| == n
    requires forall i :: 0 <= i < |es| ==> L[es[i].a] == L[es[i].b]
    requires seen != parentForward && parentOf != parentEdgeOf
    requires Frontier(n, es, L, root, seen0, TreeOf(seen, parentOf, parentEdgeOf, parentForward), order, stack0)
    requires node < n && node in order
    modifies seen, parentOf, parentEdgeOf, parentForward
    ensures Frontier(n, es, L, root, seen0, TreeOf(seen, parentOf, parentEdgeOf, parentForward), order, stack)
    ensures Finished(adj, node, seen[..])
    ensures Keeps(old(TreeOf(seen, parentOf, parentEdgeOf, parentForward)),
                  TreeOf(seen, parentOf, parentEdgeOf, parentForward))
  {
    hide Forest, Met, ParentsFirst;
    stack := stack0;
    ghost var t0 := TreeOf(seen, parentOf, parentEdgeOf, parentForward);
    ghost var t := TreeOf(seen, parentOf, parentEdgeOf, parentForward);
    for k := 0 to |adj[node]|
      invariant t == TreeOf(seen, parentOf, parentEdgeOf, parentForward)
      invariant Frontier(n, es, L, root, seen0, t, order, stack)
      invariant Expanded(adj, node, k, t.seen)
      invariant Keeps(t0, t)
    {
      var nb := adj[node][k];
      assert HalfAt(n, es, nb, node);
      if !seen[nb.to] {
        SeeKeepsFrontier(n, es, L, root, seen0, t, order, stack, node, nb);
        See(node, nb, seen, parentOf, parentEdgeOf, parentForward);
        t := Record(t, node, nb);
        stack := stack + [nb.to];
      }
    }
  }

  /** Walk one component depth first from `root`, with an explicit stack. */
  method Explore(n: nat, es: seq<Edge>, ghost L: seq<nat>, adj: seq<seq<Half>>, root: nat, seen: array<bool>,
                 parentOf: array<int>, parentEdgeOf: array<int>, parentForward: array<bool>)
    returns (order: seq<nat>)
    requires WellFormed(n, es) && Adjacency(n, es, adj, |es|) && root < n && |L| == n
    requires forall i :: 0 <= i < |es| ==> L[es[i].a] == L[es[i].b]
    requires seen != parentForward && parentOf != parentEdgeOf
    requires seen.Length == parentOf.Length == parentEdgeOf.Length == parentForward.Length == n
    requires Forest(n, es, TreeOf(seen, parentOf, parentEdgeOf, parentForward))
    requires Closed(n, es, seen[..]) && !seen[root]
    modifies seen, parentOf, parentEdgeOf, parentForward
    ensures Frontier(n, es, L, root, old(seen[..]), TreeOf(seen, parentOf, parentEdgeOf, parentForward), order, [])
    ensures Closed(n, es, seen[..])
    ensures Keeps(old(TreeOf(seen, parentOf, parentEdgeOf, parentForward)),
                  TreeOf(seen, parentOf, parentEdgeOf, parentForward))
  {
    hide Forest, Met, ParentsFirst, Hung, Closed, Adjacency;
    order := [];
    var stack: seq<nat> := [root];
    ghost var t0 := TreeOf(seen, parentOf, parentEdgeOf, parentForward);
    ghost var seen0 := t0.seen;
    seen[root] := true;
    assert seen[..] == seen0[root := true];
    StartFrontier(n, es, L, root, seen0, TreeOf(seen, parentOf, parentEdgeOf, parentForward), t0);
    ghost var todo := set v: nat | v < n && v !in order;
    while stack != []
      invariant Frontier(n, es, L, root, seen0, TreeOf(seen, parentOf, parentEdgeOf, parentForward), order, stack)
      invariant forall i :: 0 <= i < |order| ==> Finished(adj, order[i], seen[..])
      invariant Keeps(t0, TreeOf(seen, parentOf, parentEdgeOf, parentForward))
      invariant todo == set v: nat | v < n && v !in order
      decreases todo
    {
      var node := stack[|stack| - 1];
      assert stack == stack[..|stack| - 1] + [node];
      VisitKeepsFrontier(n, es, L, root, seen0, TreeOf(seen, parentOf, parentEdgeOf, parentForward), order,
        stack[..|stack| - 1], node);
      assert node in todo;
      todo := todo - {node};
      stack := stack[..|stack| - 1];
      ghost var before := order;
      order := order + [node];
      assert order[|before|] == node;
      assert forall v :: v in before ==> v in order;
      stack := Expand(n, es, L, adj, root, seen0, order, node, stack, seen, parentOf, parentEdgeOf, parentForward);
    }
    ExploredIsClosed(n, es, L, adj, root, seen0, TreeOf(seen, parentOf, parentEdgeOf, parentForward), order);
  }

  lemma StartFrontier(n: nat, es: seq<Edge>, L: seq<nat>, root: nat, seen0: seq<bool>, t: Tree, t0: Tree)
    requires WellFormed(n, es) && root < n && |L| == n && Forest(n, es, t0)
    requires seen0 == t0.seen && !seen0[root] && t == t0.(seen := seen0[root := true])
    ensures Frontier(n, es, L, root, seen0, t, [], [root])
  {
    SeeRootKeepsForest(n, es, root, t, t0);
    hide Forest;
  }

  lemma SeeRootKeepsForest(n: nat, es: seq<Edge>, root: nat, t: Tree, t0: Tree)
    requires WellFormed(n, es) && root < n && Forest(n, es, t0) && !t0.seen[root]
    requires t == t0.(seen := t0.seen[root := true])
    ensures Forest(n, es, t) && t.pe[root] == -1
  {
    forall v | 0 <= v < n && t.pe[v] >= 0
      ensures t.seen[v] && 0 <= t.par[v] < n && t.seen[t.par[v]] && Link(es, t, v)
    {
      assert Link(es, t0, v);
    }
  }

  // ------------------------------------------------------------------------------------------------------
  // Roots and components
  // ------------------------------------------------------------------------------------------------------

  /** Edge `e` is the parent edge of some node. */
  ghost predicate IsTreeEdge(t: Tree, e: nat) {
    exists v :: 0 <= v < |t.pe| && t.pe[v] == e
  }

  ghost predicate TreeWalk(es: seq<Edge>, t: Tree, w: seq<Step>, u: nat, v: nat) {
    Walk(es, w, u, v) && forall i :: 0 <= i < |w| ==> IsTreeEdge(t, w[i].edge)
  }

  /** Tree edges lead from `v` to a root. */
  ghost predicate Reaches(es: seq<Edge>, t: Tree, v: nat)
    requires |t.seen| == |t.pe|
  {
    exists r: nat, w: seq<Step> :: r < |t.pe| && t.seen[r] && t.pe[r] == -1 && TreeWalk(es, t, w, v, r)
  }

  /** Up the parents of a walked component to its root. */
  lemma {:induction false} OrderReaches(n: nat, es: seq<Edge>, t: Tree, order: seq<nat>, k: nat)
    requires WellFormed(n, es) && Forest(n, es, t) && k < |order|
    requires ParentsFirst(order, n, order[0], t) && order[0] < n && t.seen[order[0]]
    ensures Reaches(es, t, order[k])
  {
    var v := order[k];
    assert Hung(t, order[0], v, order, k);
    if v == order[0] {
      assert TreeWalk(es, t, [], v, v);
    } else {
      var j :| 0 <= j < k && order[j] == t.par[v];
      OrderReaches(n, es, t, order, j);
      var r: nat, w: seq<Step> :| r < n && t.seen[r] && t.pe[r] == -1 && TreeWalk(es, t, w, order[j], r);
      assert Link(es, t, v);
      StepUp(es, t, v, w, r);
    }
  }

  lemma StepUp(es: seq<Edge>, t: Tree, v: nat, w: seq<Step>, r: nat)
    requires v < |t.par| == |t.pe| == |t.fw| && Link(es, t, v) && TreeWalk(es, t, w, t.par[v], r)
    ensures TreeWalk(es, t, [Step(t.pe[v], !t.fw[v])] + w, v, r)
  {
    var up := [Step(t.pe[v], !t.fw[v])] + w;
    assert up[1..] == w && IsTreeEdge(t, t.pe[v]);
    forall i | 0 <= i < |up|
      ensures IsTreeEdge(t, up[i].edge)
    {
      assert i > 0 ==> up[i] == w[i - 1];
    }
  }

  /** What led to a root goes on leading there. */
  lemma ReachesKeeps(n: nat, es: seq<Edge>, t0: Tree, t: Tree, v: nat)
    requires WellFormed(n, es) && Forest(n, es, t0) && Keeps(t0, t) && |t.seen| == n && Reaches(es, t0, v)
    ensures Reaches(es, t, v)
  {
    var r: nat, w: seq<Step> :| r < n && t0.seen[r] && t0.pe[r] == -1 && TreeWalk(es, t0, w, v, r);
    forall i | 0 <= i < |w|
      ensures IsTreeEdge(t, w[i].edge)
    {
      assert IsTreeEdge(t0, w[i].edge);
      var u :| 0 <= u < n && t0.pe[u] == w[i].edge;
      assert t.pe[u] == t0.pe[u];
    }
    assert TreeWalk(es, t, w, v, r);
  }

  lemma EdgesShareLabels(n: nat, es: seq<Edge>)
    requires WellFormed(n, es)
    ensures forall i :: 0 <= i < |es| ==> Labels(n, es, |es|, -1)[es[i].a] == Labels(n, es, |es|, -1)[es[i].b]
  {
    forall i | 0 <= i < |es|
      ensures Labels(n, es, |es|, -1)[es[i].a] == Labels(n, es, |es|, -1)[es[i].b]
    {
      EdgeJoined(n, es, |es|, -1, i);
    }
  }

  lemma LeastInOrder(n: nat, es: seq<Edge>, L: seq<nat>, root: nat, seen0: seq<bool>, t: Tree, order: seq<nat>, v: nat)
    requires WellFormed(n, es) && |L| == |seen0| == n && root < n
    requires Frontier(n, es, L, root, seen0, t, order, []) && Least(L, root) && v in order
    ensures t.pe[v] >= 0 <==> !Least(L, v)
  {
    var k :| 0 <= k < |order| && order[k] == v;
    assert Hung(t, root, order[k], order, k);
    if v != root {
      assert root < v;
    }
  }

  lemma RootIsSeen(n: nat, es: seq<Edge>, L: seq<nat>, root: nat, seen0: seq<bool>, t: Tree, order: seq<nat>)
    requires WellFormed(n, es) && |L| == |seen0| == n && root < n
    requires Frontier(n, es, L, root, seen0, t, order, [])
    ensures t.seen[root] && forall v :: 0 <= v < n && seen0[v] ==> t.seen[v]
  {
    assert order[0] in order;
  }

  /** A node that is unseen while all lower nodes are seen or bare starts a new component. */
  lemma NewRootIsLeast(n: nat, es: seq<Edge>, adj: seq<seq<Half>>, seen: seq<bool>, root: nat)
    requires WellFormed(n, es) && Adjacency(n, es, adj, |es|) && |seen| == n && root < n
    requires Closed(n, es, seen) && !seen[root]
    requires forall u :: 0 <= u < root ==> seen[u] || adj[u] == []
    ensures Least(Labels(n, es, |es|, -1), root)
  {
    var L := Labels(n, es, |es|, -1);
    forall u | 0 <= u < root
      ensures L[u] != L[root]
    {
      if L[u] == L[root] {
        if seen[u] {
          InvariantOnComponent(n, es, seen, u, root);
        } else {
          BareNodeIsAlone(n, es, adj, u, root);
        }
      }
    }
  }

  lemma BareNodeIsAlone(n: nat, es: seq<Edge>, adj: seq<seq<Half>>, u: nat, v: nat)
    requires WellFormed(n, es) && Adjacency(n, es, adj, |es|) && u < n && v < n && adj[u] == []
    requires Joined(n, es, |es|, -1, u, v)
    ensures u == v
  {
    var Q := seq(n, w => w == u);
    forall e | 0 <= e < |es|
      ensures Q[es[e].a] == Q[es[e].b]
    {
      assert Half(es[e].b, e, true) in adj[es[e].a] && Half(es[e].a, e, false) in adj[es[e].b];
    }
    InvariantOnComponent(n, es, Q, u, v);
  }

  lemma LeastIsUnique(L: seq<nat>, u: nat, v: nat)
    requires u < |L| && v < |L| && L[u] == L[v] && Least(L, u) && Least(L, v)
    ensures u == v
  {
  }

  lemma LeastWhenNotChild(n: nat, es: seq<Edge>, adj: seq<seq<Half>>, t: Tree, v: nat)
    requires WellFormed(n, es) && Adjacency(n, es, adj, |es|) && v < n == |t.seen| == |t.pe|
    requires t.seen[v] ==> (t.pe[v] >= 0 <==> !Least(Labels(n, es, |es|, -1), v))
    requires t.seen[v] || adj[v] == []
    requires t.pe[v] < 0
    ensures Least(Labels(n, es, |es|, -1), v)
  {
    var L := Labels(n, es, |es|, -1);
    forall u | 0 <= u < v && !t.seen[v]
      ensures L[u] != L[v]
    {
      if L[u] == L[v] {
        BareNodeIsAlone(n, es, adj, v, u);
      }
    }
  }

  lemma SeenTogether(n: nat, es: seq<Edge>, adj: seq<seq<Half>>, t: Tree, u: nat, v: nat)
    requires WellFormed(n, es) && Adjacency(n, es, adj, |es|) && u < n == |t.seen| && v < n && u != v
    requires Closed(n, es, t.seen) && Joined(n, es, |es|, -1, u, v)
    requires (t.seen[u] || adj[u] == []) && (t.seen[v] || adj[v] == [])
    ensures t.seen[u] && t.seen[v]
  {
    InvariantOnComponent(n, es, t.seen, u, v);
    if !t.seen[u] {
      BareNodeIsAlone(n, es, adj, u, v);
    }
  }

  // ------------------------------------------------------------------------------------------------------
  // Which edges the forest takes up
  // ------------------------------------------------------------------------------------------------------

  /** Components met among the first `k` nodes, counted by their least nodes. */
  ghost function LeastBelow(L: seq<nat>, k: nat): nat
    requires k <= |L|
  {
    if k == 0 then 0 else LeastBelow(L, k - 1) + if Least(L, k - 1) then 1 else 0
  }

  lemma {:induction false} LeastCountsLabels(L: seq<nat>, k: nat)
    requires k <= |L|
    ensures LeastBelow(L, k) == |LabelSet(L[..k])|
  {
    hide Least, LabelSet;
    if k == 0 {
      NoLabels(L[..0]);
    } else {
      var v := k - 1;
      LeastCountsLabels(L, v);
      OneMoreLabel(L, v, k);
      Insert(LabelSet(L[..v]), L[v]);
    }
  }

  lemma NoLabels(L: seq<nat>)
    requires L == []
    ensures LabelSet(L) == {}
  {
  }

  lemma Insert(S: set<nat>, x: nat)
    ensures |S + {x}| == if x in S then |S| else |S| + 1
  {
    if x in S {
      assert S + {x} == S;
    }
  }

  lemma OneMoreLabel(L: seq<nat>, v: nat, next: nat)
    requires v < |L| && next == v + 1
    ensures LabelSet(L[..next]) == LabelSet(L[..v]) + {L[v]}
    ensures Least(L, v) <==> L[v] !in LabelSet(L[..v])
  {
    assert L[..next] == L[..v] + [L[v]];
    if !Least(L, v) {
      var u :| 0 <= u < v && L[u] == L[v];
      assert L[..v][u] == L[v];
    }
  }

  /** Non-root nodes among the first `k`. */
  ghost function ChildrenBelow(t: Tree, k: nat): nat
    requires k <= |t.pe|
  {
    if k == 0 then 0 else ChildrenBelow(t, k - 1) + if t.pe[k - 1] >= 0 then 1 else 0
  }

  lemma {:induction false} ChildrenSet(t: Tree, k: nat) returns (S: set<nat>)
    requires k <= |t.pe|
    ensures |S| == ChildrenBelow(t, k) && forall v :: v in S <==> 0 <= v < k && t.pe[v] >= 0
  {
    if k == 0 {
      S := {};
    } else {
      S := ChildrenSet(t, k - 1);
      if t.pe[k - 1] >= 0 {
        Insert(S, k - 1);
        S := S + {k - 1};
      }
    }
  }

  /** If every edge is a parent edge, there are at least as many children as edges. */
  lemma {:induction false} ChildrenCoverEdges(n: nat, es: seq<Edge>, t: Tree, m: nat) returns (C: set<nat>)
    requires WellFormed(n, es) && Forest(n, es, t) && m <= |es|
    requires forall e :: 0 <= e < m ==> IsTreeEdge(t, e)
    ensures |C| == m && forall v :: v in C ==> v < n && 0 <= t.pe[v] < m
  {
    if m == 0 {
      C := {};
    } else {
      C := ChildrenCoverEdges(n, es, t, m - 1);
      assert IsTreeEdge(t, m - 1);
      var v :| 0 <= v < n && t.pe[v] == m - 1;
      hide Forest, IsTreeEdge;
      Insert(C, v);
      C := C + {v};
    }
  }

  lemma {:induction false} Partition(n: nat, L: seq<nat>, t: Tree, k: nat)
    requires k <= |L| == n == |t.pe|
    requires forall v :: 0 <= v < n ==> (t.pe[v] >= 0 <==> !Least(L, v))
    ensures ChildrenBelow(t, k) + LeastBelow(L, k) == k
  {
    hide Least;
    if k > 0 {
      Partition(n, L, t, k - 1);
    }
  }

  /** There are exactly as many children as nodes less components. */
  lemma CountChildren(n: nat, es: seq<Edge>, t: Tree)
    requires WellFormed(n, es) && |t.pe| == n
    requires forall v :: 0 <= v < n ==> (t.pe[v] >= 0 <==> !Least(Labels(n, es, |es|, -1), v))
    ensures ChildrenBelow(t, n) + Components(n, es, |es|) == n
  {
    var L := Labels(n, es, |es|, -1);
    Partition(n, L, t, n);
    LeastCountsLabels(L, n);
    assert L[..n] == L;
  }

  /** The solve gives every edge a value exactly when the copper has no cycle. */
  lemma ValuedIffAcyclic(n: nat, es: seq<Edge>, t: Tree)
    requires WellFormed(n, es) && Forest(n, es, t)
    requires forall v :: 0 <= v < n ==> (t.pe[v] >= 0 <==> !Least(Labels(n, es, |es|, -1), v))
    ensures (forall e :: 0 <= e < |es| ==> IsTreeEdge(t, e)) <==> !HasCycle(es)
  {
    CountChildren(n, es, t);
    CycleIffTooManyEdges(n, es);
    var S := ChildrenSet(t, n);
    hide Labels, Least, Components, HasCycle;
    if forall e :: 0 <= e < |es| ==> IsTreeEdge(t, e) {
      var C := ChildrenCoverEdges(n, es, t, |es|);
      SubsetSize(C, S);
    }
    if !HasCycle(es) {
      ChildrenUseAllEdges(n, es, t, S);
    }
  }

  /** As many children as edges leaves no edge over. */
  lemma ChildrenUseAllEdges(n: nat, es: seq<Edge>, t: Tree, S: set<nat>)
    requires WellFormed(n, es) && Forest(n, es, t)
    requires |S| >= |es| && forall v :: v in S ==> v < n && t.pe[v] >= 0
    ensures forall e :: 0 <= e < |es| ==> IsTreeEdge(t, e)
  {
    var E := InjectiveImage(S, t.pe);
    forall e | e in E
      ensures e in AllEdges(|es|) && IsTreeEdge(t, e)
    {
      var v :| v in S && t.pe[v] == e;
      assert Link(es, t, v);
    }
    hide Forest, IsTreeEdge;
    AllEdgesSize(|es|);
    EqualWhenAsBig(E, AllEdges(|es|));
  }

  ghost function AllEdges(m: nat): (S: set<nat>)
    ensures forall e :: e in S <==> 0 <= e < m
  {
    if m == 0 then {} else AllEdges(m - 1) + {m - 1}
  }

  lemma AllEdgesSize(m: nat)
    ensures |AllEdges(m)| == m
  {
  }

  lemma SubsetSize<T>(A: set<T>, B: set<T>)
    requires A <= B
    ensures |A| <= |B|
  {
    assert B == A + (B - A);
  }

  lemma EqualWhenAsBig<T>(A: set<T>, B: set<T>)
    requires A <= B && |A| >= |B|
    ensures A == B
  {
    assert B == A + (B - A);
  }

  /** A set and its image under a function injective on it have the same size. */
  lemma {:induction false} InjectiveImage(S: set<nat>, f: seq<int>) returns (E: set<nat>)
    requires forall v :: v in S ==> v < |f| && f[v] >= 0
    requires forall u, v :: u in S && v in S && u != v ==> f[u] != f[v]
    ensures |E| == |S| && forall e :: e in E ==> exists v :: v in S && f[v] == e
    decreases |S|
  {
    if S == {} {
      E := {};
    } else {
      var v :| v in S;
      E := InjectiveImage(S - {v}, f);
      assert f[v] !in E;
      Insert(E, f[v]);
      E := E + {f[v]};
    }
  }
}
