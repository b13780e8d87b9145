/** The reverse pass over a walked component: every node hands the current of its subtree to its parent. */
module HandUp {
  import opened Optional
  import opened Graph
  import opened Kirchhoff
  import opened Series
  import opened SpanningTree

  /** Progress of the reverse pass: the nodes from position `i` on have handed their current up. */
  datatype Pass = Pass(rows: seq<Option<Series>>, acc: seq<Option<Series>>)

  /** `order` walks one component of the forest, parents before children. */
  ghost predicate Ordered(n: nat, es: seq<Edge>, t: Tree, order: seq<nat>)
    requires WellFormed(n, es)
  {
    Forest(n, es, t) && order != [] && NoDuplicates(order) && ParentsFirst(order, n, order[0], t)
  }

  ghost predicate Shaped(n: nat, es: seq<Edge>, frames: nat, p: Pass) {
    |p.rows| == |es| && |p.acc| == n && ValidRows(p.rows, frames) && ValidRows(p.acc, frames)
  }

  /** Handed-up nodes lose exactly what their pads inject; the others hold what their children sent. */
  ghost predicate Balanced(n: nat, es: seq<Edge>, pads: PadCurrents, frames: nat, order: seq<nat>, p: Pass, i: nat)
    requires Shaped(n, es, frames, p) && i <= |order|
    requires forall k :: 0 <= k < |order| ==> order[k] < n
  {
    && (forall k, f :: i <= k < |order| && 0 < k && 0 <= f < frames ==>
         NetAt(es, p.rows, f, order[k]) == PadAt(pads, order[k], f))
    && (forall k, f :: 0 <= k < i && 0 <= f < frames ==>
         OrZero(p.acc[order[k]], frames)[f] == -NetAt(es, p.rows, f, order[k]))
  }

  /** Exactly the parent edges of handed-up nodes have gained a value. */
  ghost predicate Filled(n: nat, es: seq<Edge>, t: Tree, order: seq<nat>, p0: Pass, p: Pass, i: nat)
    requires WellFormed(n, es) && Ordered(n, es, t, order) && |p0.rows| == |p.rows| == |es| && i <= |order|
  {
    && (forall k :: 0 < k < |order| ==>
        order[k] < n && t.pe[order[k]] >= 0 && (p.rows[t.pe[order[k]]].Some? <==> i <= k))
    && (forall e :: 0 <= e < |es| && p.rows[e] != p0.rows[e] ==>
         p0.rows[e].None? && p.rows[e].Some? && exists k :: 0 < k < |order| && t.pe[order[k]] == e)
  }

  /** Nothing changes at nodes of other components. */
  ghost predicate Elsewhere(n: nat, es: seq<Edge>, frames: nat, order: seq<nat>, p0: Pass, p: Pass)
    requires Shaped(n, es, frames, p0) && Shaped(n, es, frames, p)
  {
    && (forall v, f :: 0 <= v < n && v !in order && 0 <= f < frames ==>
         NetAt(es, p.rows, f, v) == NetAt(es, p0.rows, f, v))
    && (forall v :: 0 <= v < n && v !in order ==> p.acc[v] == p0.acc[v])
  }

  ghost predicate Handed(n: nat, es: seq<Edge>, t: Tree, pads: PadCurrents, frames: nat, order: seq<nat>, p0: Pass,
                         p: Pass, i: nat)
    requires WellFormed(n, es) && Ordered(n, es, t, order) && i <= |order|
  {
    && Shaped(n, es, frames, p0) && Shaped(n, es, frames, p)
    && Balanced(n, es, pads, frames, order, p, i)
    && Filled(n, es, t, order, p0, p, i)
    && Elsewhere(n, es, frames, order, p0, p)
  }

  ghost function Sum(pads: PadCurrents, frames: nat, node: nat, p: Pass): (sum: Series)
    requires node < |p.acc| && ValidRows(p.acc, frames) && ValidPads(pads, frames)
    ensures |sum| == frames
    ensures forall f :: 0 <= f < frames ==> sum[f] == OrZero(p.acc[node], frames)[f] + PadAt(pads, node, f)
  {
    var got := OrZero(p.acc[node], frames);
    if node in pads && pads[node].Some? then Plus(got, pads[node].value) else got
  }

  ghost predicate CanHandUp(n: nat, es: seq<Edge>, t: Tree, pads: PadCurrents, frames: nat, node: nat, p: Pass) {
    && Shaped(n, es, frames, p) && ValidPads(pads, frames)
    && node < n == |t.pe| == |t.par| == |t.fw|
    && t.pe[node] < |es| && (t.pe[node] >= 0 ==> 0 <= t.par[node] < n)
  }

  /** `node` is not a root and its parent edge is still without a value. */
  ghost predicate Ready(n: nat, es: seq<Edge>, t: Tree, pads: PadCurrents, frames: nat, node: nat, p: Pass) {
    CanHandUp(n, es, t, pads, frames, node, p) && Link(es, t, node) && p.rows[t.pe[node]] == None
  }

  /** One node of the reverse pass: take what the children sent, add the node's own pads, and send the sum up. */
  ghost function HandUp(n: nat, es: seq<Edge>, t: Tree, pads: PadCurrents, frames: nat, node: nat, p: Pass): (q: Pass)
    requires CanHandUp(n, es, t, pads, frames, node, p)
    ensures Shaped(n, es, frames, q)
  {
    var sum := Sum(pads, frames, node, p);
    var acc := p.acc[node := Some(sum)];
    if t.pe[node] < 0 then Pass(p.rows, acc)
    else
      var up := Plus(OrZero(acc[t.par[node]], frames), sum);
      Pass(p.rows[t.pe[node] := Some(Scaled(if t.fw[node] then -1.0 else 1.0, sum))], acc[t.par[node] := Some(up)])
  }

  /** A node's tree edge carries the node's sum towards its parent, whichever way the edge is drawn. */
  lemma TreeEdgeCarriesUp(es: seq<Edge>, t: Tree, node: nat, x: real, u: nat)
    requires node < |t.pe| == |t.par| == |t.fw| && Link(es, t, node)
    ensures Leaving(es[t.pe[node]], (if t.fw[node] then -1.0 else 1.0) * x, u) == Passed(t, node, x, u)
  {
  }

  /** What passing `x` from `node` to its parent takes out of `u`. */
  ghost function Passed(t: Tree, node: nat, x: real, u: nat): real
    requires node < |t.par|
  {
    if u == node then x else if u == t.par[node] then -x else 0.0
  }

  lemma HandUpNet(n: nat, es: seq<Edge>, t: Tree, pads: PadCurrents, frames: nat, node: nat, p: Pass, f: nat, u: nat)
    requires Ready(n, es, t, pads, frames, node, p) && f < frames
    ensures NetAt(es, HandUp(n, es, t, pads, frames, node, p).rows, f, u)
         == NetAt(es, p.rows, f, u) + Passed(t, node, Sum(pads, frames, node, p)[f], u)
  {
    var sum := Sum(pads, frames, node, p);
    NetAfterEdge(es, p.rows, t.pe[node], Scaled(if t.fw[node] then -1.0 else 1.0, sum), f, u, |es|);
    TreeEdgeCarriesUp(es, t, node, sum[f], u);
  }

  /** The parent of a later node is an earlier one. */
  lemma ParentIndex(n: nat, es: seq<Edge>, t: Tree, order: seq<nat>, k: nat) returns (j: nat)
    requires WellFormed(n, es) && Ordered(n, es, t, order) && 0 < k < |order|
    ensures j < k && t.par[order[k]] == order[j] && t.pe[order[k]] >= 0
    ensures order[k] < n && order[j] < n && order[j] != order[k] && Link(es, t, order[k])
  {
    assert Hung(t, order[0], order[k], order, k);
    j :| 0 <= j < k && order[j] == t.par[order[k]];
    assert Link(es, t, order[k]);
  }

  /** After its turn a node has lost what its pads inject, and no later node is touched again. */
  lemma HandUpSettles(n: nat, es: seq<Edge>, t: Tree, pads: PadCurrents, frames: nat, order: seq<nat>, p: Pass, i: nat,
                      k: nat, f: nat)
    requires WellFormed(n, es) && Ordered(n, es, t, order) && 1 < i <= |order|
    requires Ready(n, es, t, pads, frames, order[i - 1], p) && Balanced(n, es, pads, frames, order, p, i)
    requires i - 1 <= k < |order| && f < frames
    ensures NetAt(es, HandUp(n, es, t, pads, frames, order[i - 1], p).rows, f, order[k]) == PadAt(pads, order[k], f)
  {
    var j := ParentIndex(n, es, t, order, i - 1);
    assert order[k] != order[j] && (k == i - 1 || order[k] != order[i - 1]);
    hide Ordered, Ready, NetAt, HandUp;
    HandUpNet(n, es, t, pads, frames, order[i - 1], p, f, order[k]);
  }

  /** A waiting node's accumulator keeps up with what its children have sent. */
  lemma HandUpWaits(n: nat, es: seq<Edge>, t: Tree, pads: PadCurrents, frames: nat, order: seq<nat>, p: Pass, i: nat,
                    k: nat, f: nat)
    requires WellFormed(n, es) && Ordered(n, es, t, order) && 1 < i <= |order|
    requires Ready(n, es, t, pads, frames, order[i - 1], p) && Balanced(n, es, pads, frames, order, p, i)
    requires k < i - 1 && f < frames
    ensures var q := HandUp(n, es, t, pads, frames, order[i - 1], p);
            OrZero(q.acc[order[k]], frames)[f] == -NetAt(es, q.rows, f, order[k])
  {
    var j := ParentIndex(n, es, t, order, i - 1);
    assert order[k] != order[i - 1];
    hide Ordered, Link, NetAt;
    HandUpNet(n, es, t, pads, frames, order[i - 1], p, f, order[k]);
  }

  lemma HandUpFilled(n: nat, es: seq<Edge>, t: Tree, pads: PadCurrents, frames: nat, order: seq<nat>, p0: Pass,
                     p: Pass, i: nat)
    requires WellFormed(n, es) && Ordered(n, es, t, order) && 1 < i <= |order|
    requires Ready(n, es, t, pads, frames, order[i - 1], p) && |p0.rows| == |es| && Filled(n, es, t, order, p0, p, i)
    ensures Filled(n, es, t, order, p0, HandUp(n, es, t, pads, frames, order[i - 1], p), i - 1)
  {
    forall k | 0 < k < |order| && k != i - 1
      ensures t.pe[order[k]] != t.pe[order[i - 1]]
    {
      var _ := ParentIndex(n, es, t, order, k);
      var _ := ParentIndex(n, es, t, order, i - 1);
      assert order[k] != order[i - 1];
    }
    hide Ordered, Filled;
    FillOne(n, es, t, order, p0, p, HandUp(n, es, t, pads, frames, order[i - 1], p), i);
  }

  lemma FillOne(n: nat, es: seq<Edge>, t: Tree, order: seq<nat>, p0: Pass, p: Pass, q: Pass, i: nat)
    requires WellFormed(n, es) && Ordered(n, es, t, order) && 1 < i <= |order|
    requires |p0.rows| == |p.rows| == |q.rows| == |es| && Filled(n, es, t, order, p0, p, i)
    requires 0 <= t.pe[order[i - 1]] < |es| && p.rows[t.pe[order[i - 1]]] == None
    requires forall e :: 0 <= e < |es| && e != t.pe[order[i - 1]] ==> q.rows[e] == p.rows[e]
    requires q.rows[t.pe[order[i - 1]]].Some?
    requires forall k :: 0 < k < |order| && k != i - 1 ==> t.pe[order[k]] != t.pe[order[i - 1]]
    ensures Filled(n, es, t, order, p0, q, i - 1)
  {
    var pe := t.pe[order[i - 1]];
    forall k | 0 < k < |order|
      ensures order[k] < n && 0 <= t.pe[order[k]] < |es| && (q.rows[t.pe[order[k]]].Some? <==> i - 1 <= k)
    {
      var _ := ParentIndex(n, es, t, order, k);
    }
    hide Ordered;
    forall e | 0 <= e < |es| && q.rows[e] != p0.rows[e]
      ensures p0.rows[e].None? && q.rows[e].Some? && exists k :: 0 < k < |order| && t.pe[order[k]] == e
    {
      if e == pe {
        assert p0.rows[e].None? && 0 < i - 1 < |order| && t.pe[order[i - 1]] == e;
      } else {
        assert p.rows[e] != p0.rows[e];
      }
    }
  }

  /** Only the node and its parent have their sums changed. */
  lemma HandUpSums(n: nat, es: seq<Edge>, t: Tree, pads: PadCurrents, frames: nat, node: nat, p: Pass)
    requires Ready(n, es, t, pads, frames, node, p)
    ensures var q := HandUp(n, es, t, pads, frames, node, p);
            |q.acc| == n && forall v :: 0 <= v < n && v != node && v != t.par[node] ==> q.acc[v] == p.acc[v]
  {
  }

  lemma HandUpElsewhere(n: nat, es: seq<Edge>, t: Tree, pads: PadCurrents, frames: nat, order: seq<nat>, p0: Pass,
                        p: Pass, i: nat)
    requires WellFormed(n, es) && Ordered(n, es, t, order) && 1 < i <= |order|
    requires Ready(n, es, t, pads, frames, order[i - 1], p)
    requires Shaped(n, es, frames, p0) && Elsewhere(n, es, frames, order, p0, p)
    ensures Elsewhere(n, es, frames, order, p0, HandUp(n, es, t, pads, frames, order[i - 1], p))
  {
    var j := ParentIndex(n, es, t, order, i - 1);
    var q := HandUp(n, es, t, pads, frames, order[i - 1], p);
    assert order[i - 1] in order && order[j] in order;
    HandUpSums(n, es, t, pads, frames, order[i - 1], p);
    hide Ordered, Link, NetAt, HandUp;
    forall v, f | 0 <= v < n && v !in order && 0 <= f < frames
      ensures NetAt(es, q.rows, f, v) == NetAt(es, p.rows, f, v)
    {
      HandUpNet(n, es, t, pads, frames, order[i - 1], p, f, v);
    }
  }

  lemma ReadyInOrder(n: nat, es: seq<Edge>, t: Tree, pads: PadCurrents, frames: nat, order: seq<nat>, p0: Pass,
                     p: Pass, i: nat)
    requires WellFormed(n, es) && Ordered(n, es, t, order) && ValidPads(pads, frames) && 1 < i <= |order|
    requires Handed(n, es, t, pads, frames, order, p0, p, i)
    ensures Ready(n, es, t, pads, frames, order[i - 1], p)
  {
    var j := ParentIndex(n, es, t, order, i - 1);
  }

  lemma HandUpKeeps(n: nat, es: seq<Edge>, t: Tree, pads: PadCurrents, frames: nat, order: seq<nat>, p0: Pass, p: Pass,
                    i: nat)
    requires WellFormed(n, es) && Ordered(n, es, t, order) && ValidPads(pads, frames) && 1 < i <= |order|
    requires CanHandUp(n, es, t, pads, frames, order[i - 1], p)
    requires Handed(n, es, t, pads, frames, order, p0, p, i)
    ensures Handed(n, es, t, pads, frames, order, p0, HandUp(n, es, t, pads, frames, order[i - 1], p), i - 1)
  {
    ReadyInOrder(n, es, t, pads, frames, order, p0, p, i);
    HandUpFilled(n, es, t, pads, frames, order, p0, p, i);
    HandUpElsewhere(n, es, t, pads, frames, order, p0, p, i);
    hide Filled, Elsewhere, Ready, CanHandUp, Link, HandUp;
    var q := HandUp(n, es, t, pads, frames, order[i - 1], p);
    forall k, f | i - 1 <= k < |order| && 0 <= f < frames
      ensures NetAt(es, q.rows, f, order[k]) == PadAt(pads, order[k], f)
    {
      HandUpSettles(n, es, t, pads, frames, order, p, i, k, f);
    }
    forall k, f | 0 <= k < i - 1 && 0 <= f < frames
      ensures OrZero(q.acc[order[k]], frames)[f] == -NetAt(es, q.rows, f, order[k])
    {
      HandUpWaits(n, es, t, pads, frames, order, p, i, k, f);
    }
  }

  lemma HandUpRoot(n: nat, es: seq<Edge>, t: Tree, pads: PadCurrents, frames: nat, order: seq<nat>, p0: Pass, p: Pass)
    requires WellFormed(n, es) && Ordered(n, es, t, order) && ValidPads(pads, frames)
    requires Handed(n, es, t, pads, frames, order, p0, p, 1)
    requires CanHandUp(n, es, t, pads, frames, order[0], p) && t.pe[order[0]] == -1
    ensures Handed(n, es, t, pads, frames, order, p0, HandUp(n, es, t, pads, frames, order[0], p), 0)
  {
  }

  /** Every node of one walked component hands its current up, last visited first. */
  method Accumulate(n: nat, es: seq<Edge>, ghost t: Tree, order: seq<nat>, pads: PadCurrents, frames: nat,
                    parentOf: array<int>, parentEdgeOf: array<int>, parentForward: array<bool>,
                    acc: array<Option<Series>>, perEdge: array<Option<Series>>)
    requires WellFormed(n, es) && Ordered(n, es, t, order) && ValidPads(pads, frames)
    requires t.par == parentOf[..] && t.pe == parentEdgeOf[..] && t.fw == parentForward[..]
    requires acc != perEdge
    requires Handed(n, es, t, pads, frames, order, Pass(perEdge[..], acc[..]), Pass(perEdge[..], acc[..]), |order|)
    modifies acc, perEdge
    ensures Handed(n, es, t, pads, frames, order, Pass(old(perEdge[..]), old(acc[..])), Pass(perEdge[..], acc[..]), 0)
  {
    hide Forest, ParentsFirst, Balanced, Filled, Elsewhere;
    ghost var p0 := Pass(perEdge[..], acc[..]);
    ghost var p := p0;
    for i := |order| downto 0
      invariant p == Pass(perEdge[..], acc[..])
      invariant Handed(n, es, t, pads, frames, order, p0, p, i)
    {
      var node := order[i];
      NodeFacts(n, es, t, order, i);
      assert CanHandUp(n, es, t, pads, frames, node, p);
      ghost var q := HandUp(n, es, t, pads, frames, node, p);
      if i > 0 {
        HandUpKeeps(n, es, t, pads, frames, order, p0, p, i + 1);
      } else {
        HandUpRoot(n, es, t, pads, frames, order, p0, p);
      }
      HandUpInPlace(n, es, t, node, pads, frames, parentOf, parentEdgeOf, parentForward, acc, perEdge);
      p := q;
    }
  }

  lemma NodeFacts(n: nat, es: seq<Edge>, t: Tree, order: seq<nat>, i: nat)
    requires WellFormed(n, es) && Ordered(n, es, t, order) && i < |order|
    ensures |t.par| == |t.pe| == |t.fw| == n && order[i] < n
    ensures i == 0 ==> t.pe[order[i]] == -1
    ensures i > 0 ==> 0 <= t.pe[order[i]] < |es| && 0 <= t.par[order[i]] < n
  {
    assert Hung(t, order[0], order[i], order, i);
    if i > 0 {
      var _ := ParentIndex(n, es, t, order, i);
    }
  }

  method HandUpInPlace(n: nat, es: seq<Edge>, ghost t: Tree, node: nat, pads: PadCurrents, frames: nat,
                       parentOf: array<int>, parentEdgeOf: array<int>, parentForward: array<bool>,
                       acc: array<Option<Series>>, perEdge: array<Option<Series>>)
    requires t.par == parentOf[..] && t.pe == parentEdgeOf[..] && t.fw == parentForward[..]
    requires acc != perEdge && CanHandUp(n, es, t, pads, frames, node, Pass(perEdge[..], acc[..]))
    modifies acc, perEdge
    ensures Pass(perEdge[..], acc[..]) == HandUp(n, es, t, pads, frames, node, old(Pass(perEdge[..], acc[..])))
  {
    assert acc[..][node] == acc[node] && t.pe[node] == parentEdgeOf[node];
    var sum := OrZero(acc[node], frames);
    if node in pads && pads[node].Some? {
      sum := Plus(sum, pads[node].value);
    }
    acc[node] := Some(sum);
    if parentEdgeOf[node] >= 0 {
      var s := if parentForward[node] then -1.0 else 1.0;
      assert t.fw[node] == parentForward[node] && t.par[node] == parentOf[node];
      perEdge[parentEdgeOf[node]] := Some(Scaled(s, sum));
      assert acc[..][parentOf[node]] == acc[parentOf[node]];
      acc[parentOf[node]] := Some(Plus(OrZero(acc[parentOf[node]], frames), sum));
    }
  }
}
