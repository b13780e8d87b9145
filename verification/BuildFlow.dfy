/** The current table of a whole board: nets solved one by one, each solved edge given a row of the table, and every
    quad pointed at its row.  */
module BuildFlow {
  import opened Optional
  import opened Reals
  import opened Graph
  import opened Kirchhoff
  import opened Series
  import opened SpanningTree
  import opened SolveNet
  import opened Distances
  import opened Quads
  import opened PadSeries

  datatype Unresolved = NoPads | Unsolved(reason: Reason)

  datatype FlowTable = FlowTable(edgeOfQuad: seq<int>, distOfQuad: seq<real>, rows: seq<Series>, peakOfEdge: seq<real>,
                                 peak: real, unresolvedBy: set<string>, unresolvedNets: seq<(string, Unresolved)>)

  // ------------------------------------------------------------------------------------------------------
  // A net's own numbering
  // ------------------------------------------------------------------------------------------------------

  /** Nodes are numbered densely in the order they are first met, and the edges rewritten in those numbers. */
  ghost predicate Numbered(edges: seq<CopperEdge>, nodes: seq<Key>, ids: map<Key, nat>, es: seq<Edge>) {
    && (forall v :: 0 <= v < |nodes| ==> nodes[v] in ids && ids[nodes[v]] == v)
    && (forall k :: k in ids ==> ids[k] < |nodes| && nodes[ids[k]] == k)
    && |es| == |edges|
    && (forall i :: 0 <= i < |es| ==>
        edges[i].a in ids && edges[i].b in ids && es[i] == Edge(ids[edges[i].a], ids[edges[i].b]))
  }

  method NumberNodes(edges: seq<CopperEdge>) returns (nodes: seq<Key>, ids: map<Key, nat>, es: seq<Edge>)
    ensures Numbered(edges, nodes, ids, es) && WellFormed(|nodes|, es)
  {
    nodes, ids, es := [], map[], [];
    for i := 0 to |edges|
      invariant Numbered(edges[..i], nodes, ids, es)
    {
      nodes, ids := NumberNode(edges[..i], nodes, ids, es, edges[i].a);
      nodes, ids := NumberNode(edges[..i], nodes, ids, es, edges[i].b);
      es := es + [Edge(ids[edges[i].a], ids[edges[i].b])];
    }
    assert edges[..|edges|] == edges;
  }

  method NumberNode(ghost edges: seq<CopperEdge>, nodes0: seq<Key>, ids0: map<Key, nat>, ghost es: seq<Edge>, k: Key)
    returns (nodes: seq<Key>, ids: map<Key, nat>)
    requires Numbered(edges, nodes0, ids0, es)
    ensures Numbered(edges, nodes, ids, es) && k in ids && forall x :: x in ids0 ==> x in ids
  {
    nodes, ids := nodes0, ids0;
    if k !in ids {
      ids := ids[k := |nodes|];
      nodes := nodes + [k];
    }
  }

  /** The pad sums of a net's own nodes. */
  function LocalPads(nodes: seq<Key>, sums: map<Key, Option<Series>>): PadCurrents {
    map v: nat | v < |nodes| && nodes[v] in sums :: sums[nodes[v]]
  }

  /** A net is solved with its own pad currents alone exactly when pads of other nets at its points are harmless. */
  lemma OwnPadsExactlyWhen(pads: seq<Pad>, net: string, known: Readings, key: Point -> Key, frames: nat,
                           nodes: seq<Key>, sums: map<Key, Option<Series>>, ownSums: map<Key, Option<Series>>)
    requires Summed(pads, |pads|, known, key, frames, sums)
    requires Summed(Own(pads, net), |Own(pads, net)|, known, key, frames, ownSums)
    ensures LocalPads(nodes, sums) == LocalPads(nodes, ownSums) <==>
            forall v :: 0 <= v < |nodes| ==> ForeignHarmless(pads, net, known, key, frames, nodes[v])
  {
    var all, own := LocalPads(nodes, sums), LocalPads(nodes, ownSums);
    hide Summed, ForeignHarmless;
    forall v: nat | v < |nodes|
      ensures ForeignHarmless(pads, net, known, key, frames, nodes[v]) <==> SameAt(sums, ownSums, nodes[v])
    {
      OwnCurrentsExactlyWhen(pads, net, known, key, frames, nodes[v], sums, ownSums);
    }
    if forall v :: 0 <= v < |nodes| ==> SameAt(sums, ownSums, nodes[v]) {
      assert all == own;
    }
    if all == own {
      forall v: nat | v < |nodes|
        ensures SameAt(sums, ownSums, nodes[v])
      {
        assert v in all <==> nodes[v] in sums;
        assert v in own <==> nodes[v] in ownSums;
      }
    }
  }

  // ------------------------------------------------------------------------------------------------------
  // Rows and quads
  // ------------------------------------------------------------------------------------------------------

  /** Resolved quads and rows correspond one to one. */
  ghost predicate Matched(edgeOfQuad: seq<int>, rows: nat) {
    && (forall q :: 0 <= q < |edgeOfQuad| ==> -1 <= edgeOfQuad[q] < rows)
    && (forall p, q :: 0 <= p < q < |edgeOfQuad| && edgeOfQuad[p] >= 0 ==> edgeOfQuad[p] != edgeOfQuad[q])
    && (forall r :: 0 <= r < rows ==> r in edgeOfQuad)
  }

  lemma OneMoreRow(e: seq<int>, rows: nat, q: nat, next: nat)
    requires Matched(e, rows) && q < |e| && e[q] == -1 && next == rows + 1
    ensures Matched(e[q := rows], next)
  {
    var e' := e[q := rows];
    assert e'[q] == rows;
    forall r | 0 <= r < next
      ensures r in e'
    {
      if r < rows {
        assert r in e;
        var p :| 0 <= p < |e| && e[p] == r;
        assert e'[p] == r;
      }
    }
  }

  ghost predicate QuadsInOrder(edges: seq<CopperEdge>, quads: nat) {
    && (forall i :: 0 <= i < |edges| ==> edges[i].quad < quads)
    && (forall i, j :: 0 <= i < j < |edges| ==> edges[i].quad < edges[j].quad)
  }

  /** Quad of edge `i` shows the value of edge `i`, or nothing when it has none. */
  ghost predicate ShowsEdge(e: seq<int>, rows: seq<Series>, edge: CopperEdge, value: Option<Series>) {
    && edge.quad < |e|
    && match value
       case None => e[edge.quad] == -1
       case Some(row) => 0 <= e[edge.quad] < |rows| && rows[e[edge.quad]] == row
  }

  ghost predicate Shows(e: seq<int>, rows: seq<Series>, edges: seq<CopperEdge>, perEdge: seq<Option<Series>>, k: nat) {
    k <= |edges| == |perEdge| && forall i :: 0 <= i < k ==> ShowsEdge(e, rows, edges[i], perEdge[i])
  }

  ghost predicate QuadIn(edges: seq<CopperEdge>, q: nat) {
    exists i :: 0 <= i < |edges| && edges[i].quad == q
  }

  /** Give every solved edge of a net the next row of the table. */
  method AddRows(edges: seq<CopperEdge>, perEdge: seq<Option<Series>>, edgeOfQuad: array<int>, rows0: seq<Series>)
    returns (rows: seq<Series>)
    requires |perEdge| == |edges| && QuadsInOrder(edges, edgeOfQuad.Length) && Matched(edgeOfQuad[..], |rows0|)
    requires forall i :: 0 <= i < |edges| ==> edgeOfQuad[edges[i].quad] == -1
    modifies edgeOfQuad
    ensures Matched(edgeOfQuad[..], |rows|) && Shows(edgeOfQuad[..], rows, edges, perEdge, |edges|) && rows0 <= rows
    ensures forall q :: 0 <= q < edgeOfQuad.Length && !QuadIn(edges, q) ==> edgeOfQuad[q] == old(edgeOfQuad[q])
  {
    hide Matched;
    rows := rows0;
    for i := 0 to |edges|
      invariant Matched(edgeOfQuad[..], |rows|) && Shows(edgeOfQuad[..], rows, edges, perEdge, i) && rows0 <= rows
      invariant forall j :: i <= j < |edges| ==> edgeOfQuad[edges[j].quad] == -1
      invariant forall q :: 0 <= q < edgeOfQuad.Length && !QuadIn(edges, q) ==> edgeOfQuad[q] == old(edgeOfQuad[q])
    {
      var q := edges[i].quad;
      if perEdge[i].Some? {
        OneMoreRow(edgeOfQuad[..], |rows|, q, |rows| + 1);
        ghost var e := edgeOfQuad[..];
        edgeOfQuad[q] := |rows|;
        assert edgeOfQuad[..] == e[q := |rows|];
        assert QuadIn(edges, q);
        ShowsKeeps(e, edgeOfQuad[..], rows, rows + [perEdge[i].value], edges, perEdge, i);
        rows := rows + [perEdge[i].value];
      }
    }
  }

  /** What is shown stays shown while its quads keep their rows and the table only grows. */
  lemma ShowsKeeps(e: seq<int>, e': seq<int>, rows: seq<Series>, rows': seq<Series>, edges: seq<CopperEdge>,
                   perEdge: seq<Option<Series>>, k: nat)
    requires Shows(e, rows, edges, perEdge, k) && rows <= rows' && |e| == |e'|
    requires forall i :: 0 <= i < k ==> e'[edges[i].quad] == e[edges[i].quad]
    ensures Shows(e', rows', edges, perEdge, k)
  {
    forall i | 0 <= i < k
      ensures ShowsEdge(e', rows', edges[i], perEdge[i])
    {
      assert ShowsEdge(e, rows, edges[i], perEdge[i]);
    }
  }

  // ------------------------------------------------------------------------------------------------------
  // One net
  // ------------------------------------------------------------------------------------------------------

  function QuadNumbers(edges: seq<CopperEdge>): (qs: seq<nat>)
    ensures |qs| == |edges| && forall i :: 0 <= i < |edges| ==> qs[i] == edges[i].quad
  {
    seq(|edges|, i requires 0 <= i < |edges| => edges[i].quad)
  }

  /** How one net came out: its copper in its own numbering, and a value per edge or the reason there is none. */
  datatype NetResult = NetResult(nodes: seq<Key>, es: seq<Edge>, perEdge: seq<Option<Series>>,
      reason: Option<Unresolved>)

  ghost predicate InOwnNumbers(edges: seq<CopperEdge>, r: NetResult) {
    WellFormed(|r.nodes|, r.es) && exists ids :: Numbered(edges, r.nodes, ids, r.es)
  }

  /** The reason given is the first that applies; without one the values conserve what the pads inject, and they reach
      every edge exactly when the copper has no cycle. */
  ghost predicate Solved(r: NetResult, sums: map<Key, Option<Series>>, frames: nat)
    requires WellFormed(|r.nodes|, r.es)
  {
    var n, pads := |r.nodes|, LocalPads(r.nodes, sums);
    && |r.perEdge| == |r.es| && ValidRows(r.perEdge, frames)
    && (r.reason == Some(NoPads) <==> pads == map[])
    && (r.reason == Some(Unsolved(Loop)) <==> pads != map[] && |r.es| > n - 1)
    && (r.reason == Some(Unsolved(UnknownPadCurrent)) <==> pads != map[] && |r.es| <= n - 1 && Unknown(pads))
    && (r.reason.Some? ==> forall e :: 0 <= e < |r.es| ==> r.perEdge[e].None?)
    && (r.reason.None? ==> AllConserve(n, r.es, r.perEdge, pads, frames) && Spans(n, r.es, r.perEdge)
                           && (AllValued(r.perEdge) <==> !HasCycle(r.es)))
  }

  ghost predicate AllConserve(n: nat, es: seq<Edge>, perEdge: seq<Option<Series>>, pads: PadCurrents, frames: nat)
    requires WellFormed(n, es) && |perEdge| == |es|
  {
    forall f :: 0 <= f < frames ==> Conserves(n, es, FlowAt(perEdge, f), Accounted(n, es, PadsOf(pads, n, f)))
  }

  ghost predicate AllValued(perEdge: seq<Option<Series>>) {
    forall e :: 0 <= e < |perEdge| ==> perEdge[e].Some?
  }

  /** On loop-free copper every quad starts at its distance from the net's seed. */
  ghost predicate Phased(edges: seq<CopperEdge>, r: NetResult, lens: seq<real>, distOfQuad: seq<real>) {
    && WellFormed(|r.nodes|, r.es) && |r.es| == |edges| && QuadsInOrder(edges, |lens|) && |lens| == |distOfQuad|
    && (!HasCycle(r.es) ==> PhaseFromSeed(|r.nodes|, r.es, QuadNumbers(edges), lens, distOfQuad))
  }

  ghost predicate FullSums(sums: map<Key, Option<Series>>, frames: nat) {
    forall k :: k in sums && sums[k].Some? ==> |sums[k].value| == frames
  }

  method SolveEdges(nodes: seq<Key>, es: seq<Edge>, sums: map<Key, Option<Series>>, frames: nat)
    returns (perEdge: seq<Option<Series>>, reason: Option<Unresolved>)
    requires WellFormed(|nodes|, es) && FullSums(sums, frames)
    ensures Solved(NetResult(nodes, es, perEdge, reason), sums, frames)
  {
    hide Conserves, Accounted, HasCycle, FlowAt, PadsOf;
    var pads := LocalPads(nodes, sums);
    if pads == map[] {
      return seq(|es|, _ => None), Some(NoPads);
    }
    var why;
    perEdge, why := Solve(|nodes|, es, pads, frames);
    reason := if why.Some? then Some(Unsolved(why.value)) else None;
  }

  method FlowOfNet(edges: seq<CopperEdge>, sums: map<Key, Option<Series>>, frames: nat, lens: seq<real>,
                   edgeOfQuad: array<int>, distOfQuad: array<real>, rows0: seq<Series>)
    returns (rows: seq<Series>, r: NetResult)
    requires |lens| == edgeOfQuad.Length == distOfQuad.Length && QuadsInOrder(edges, |lens|)
    requires FullSums(sums, frames) && Matched(edgeOfQuad[..], |rows0|)
    requires forall i :: 0 <= i < |edges| ==> edgeOfQuad[edges[i].quad] == -1
    modifies edgeOfQuad, distOfQuad
    ensures InOwnNumbers(edges, r) && Solved(r, sums, frames) && Phased(edges, r, lens, distOfQuad[..])
    ensures Matched(edgeOfQuad[..], |rows|) && Shows(edgeOfQuad[..], rows, edges, r.perEdge, |edges|) && rows0 <= rows
    ensures forall q :: 0 <= q < |lens| && !QuadIn(edges, q) ==>
              edgeOfQuad[q] == old(edgeOfQuad[q]) && distOfQuad[q] == old(distOfQuad[q])
  {
    hide Matched, HasCycle, PhaseFromSeed, Solved, FullSums;
    var nodes, ids, es := NumberNodes(edges);
    var quadOf := QuadNumbers(edges);
    AssignDistances(|nodes|, es, quadOf, lens, distOfQuad);
    QuadInNumbers(edges);
    var perEdge, reason := SolveEdges(nodes, es, sums, frames);
    r := NetResult(nodes, es, perEdge, reason);
    SolvedShape(r, sums, frames);
    if reason.Some? {
      rows := rows0;
    } else {
      rows := AddRows(edges, perEdge, edgeOfQuad, rows0);
    }
  }

  lemma QuadInNumbers(edges: seq<CopperEdge>)
    ensures forall q: nat :: q in QuadNumbers(edges) <==> QuadIn(edges, q)
  {
    forall q: nat | QuadIn(edges, q)
      ensures q in QuadNumbers(edges)
    {
      var i :| 0 <= i < |edges| && edges[i].quad == q;
      assert QuadNumbers(edges)[i] == q;
    }
  }

  lemma SolvedShape(r: NetResult, sums: map<Key, Option<Series>>, frames: nat)
    requires WellFormed(|r.nodes|, r.es) && Solved(r, sums, frames)
    ensures |r.perEdge| == |r.es|
    ensures r.reason.Some? ==> forall e :: 0 <= e < |r.es| ==> r.perEdge[e].None?
  {
  }

  // ------------------------------------------------------------------------------------------------------
  // Peaks
  // ------------------------------------------------------------------------------------------------------

  /** The largest magnitude in a row, zero for an empty one. */
  ghost predicate IsPeak(row: Series, p: real) {
    && p >= 0.0
    && (forall f :: 0 <= f < |row| ==> Abs(row[f]) <= p)
    && (p == 0.0 || exists f :: 0 <= f < |row| && Abs(row[f]) == p)
  }

  method PeakOf(row: Series) returns (p: real)
    ensures IsPeak(row, p)
  {
    p := 0.0;
    for f := 0 to |row|
      invariant p >= 0.0 && (forall g :: 0 <= g < f ==> Abs(row[g]) <= p)
      invariant p == 0.0 || exists g :: 0 <= g < f && Abs(row[g]) == p
    {
      if Abs(row[f]) > p {
        p := Abs(row[f]);
      }
    }
  }

  method Peaks(rows: seq<Series>) returns (peakOfEdge: seq<real>, peak: real)
    ensures |peakOfEdge| == |rows| && forall e :: 0 <= e < |rows| ==> IsPeak(rows[e], peakOfEdge[e])
    ensures IsPeak(peakOfEdge, peak)
  {
    peakOfEdge := [];
    for e := 0 to |rows|
      invariant |peakOfEdge| == e && forall i :: 0 <= i < e ==> IsPeak(rows[i], peakOfEdge[i])
    {
      var p := PeakOf(rows[e]);
      peakOfEdge := peakOfEdge + [p];
    }
    peak := PeakOf(peakOfEdge);
  }

  // ------------------------------------------------------------------------------------------------------
  // The board
  // ------------------------------------------------------------------------------------------------------

  /** Everything the table claims about one net. */
  ghost predicate NetShown(edges: seq<CopperEdge>, r: NetResult, sums: map<Key, Option<Series>>, frames: nat,
                           lens: seq<real>,
                           edgeOfQuad: seq<int>, distOfQuad: seq<real>, rows: seq<Series>) {
    && InOwnNumbers(edges, r) && Solved(r, sums, frames) && Phased(edges, r, lens, distOfQuad)
    && Shows(edgeOfQuad, rows, edges, r.perEdge, |edges|)
  }

  /** Another net's rows and distances leave this net's alone. */
  lemma NetShownKeeps(edges: seq<CopperEdge>, r: NetResult, sums: map<Key, Option<Series>>, frames: nat,
                      lens: seq<real>,
                      e: seq<int>, d: seq<real>, rows: seq<Series>, e': seq<int>, d': seq<real>, rows': seq<Series>)
    requires NetShown(edges, r, sums, frames, lens, e, d, rows) && rows <= rows' && |e| == |e'| == |d| == |d'|
    requires forall i :: 0 <= i < |edges| ==> edges[i].quad < |e|
    requires forall i :: 0 <= i < |edges| ==>
               e'[edges[i].quad] == e[edges[i].quad] && d'[edges[i].quad] == d[edges[i].quad]
    ensures NetShown(edges, r, sums, frames, lens, e', d', rows')
  {
    ShowsKeeps(e, e', rows, rows', edges, r.perEdge, |edges|);
    hide Shows, Solved, InOwnNumbers, HasCycle;
    if !HasCycle(r.es) {
      forall i, u, w | 0 <= i < |r.es| && 0 <= u < |r.nodes| && IsRoot(|r.nodes|, r.es, u) && StepsExist(w, |r.es|)
        && Walk(r.es, w, u, r.es[i].a) && Trail(w)
        ensures d'[QuadNumbers(edges)[i]] == Length(QuadNumbers(edges), lens, w)
      {
        assert d[QuadNumbers(edges)[i]] == Length(QuadNumbers(edges), lens, w);
      }
    }
  }

  ghost predicate Listed(unresolved: seq<(string, Unresolved)>, results: map<string, NetResult>) {
    forall net, u :: (net, u) in unresolved <==> net in results && results[net].reason == Some(u)
  }

  /** The first `done` nets are shown. */
  ghost predicate ShownSoFar(c: Edges, done: nat, results: map<string, NetResult>, sums: map<Key, Option<Series>>,
                             frames: nat,
                             e: seq<int>, d: seq<real>, rows: seq<Series>)
    requires done <= |c.order| && forall net :: net in c.order ==> net in c.byNet
  {
    && (forall net :: net in results <==> net in c.order[..done])
    && (forall i :: 0 <= i < done ==> c.order[i] in results)
    && (forall i :: 0 <= i < done ==>
        NetShown(c.byNet[c.order[i]], results[c.order[i]], sums, frames, c.lengths, e, d, rows))
  }

  /** Quads of the other nets show nothing. */
  ghost predicate BlankElsewhere(Q: seq<Quad>, order: seq<string>, done: nat, e: seq<int>)
    requires done <= |order|
  {
    |e| == |Q| && forall q :: 0 <= q < |Q| && Q[q].net !in order[..done] ==> e[q] == -1
  }

  ghost predicate Board(Q: seq<Quad>, key: Point -> Key, c: Edges, done: nat, results: map<string, NetResult>,
                        sums: map<Key, Option<Series>>,
                        frames: nat, e: seq<int>, d: seq<real>, rows: seq<Series>)
    requires done <= |c.order| && forall net :: net in c.order ==> net in c.byNet
  {
    && |e| == |d| == |c.lengths| == |Q|
    && Matched(e, |rows|)
    && ShownSoFar(c, done, results, sums, frames, e, d, rows)
    && BlankElsewhere(Q, c.order, done, e)
  }

  lemma EdgesHaveQuads(Q: seq<Quad>, key: Point -> Key, sqrt: real -> real, c: Edges, net: string)
    requires Collected(Q, key, sqrt, c) && net in c.byNet
    ensures QuadsInOrder(c.byNet[net], |Q|)
    ensures forall i :: 0 <= i < |c.byNet[net]| ==> Q[c.byNet[net][i].quad].net == net
  {
  }

  lemma StartBoard(Q: seq<Quad>, key: Point -> Key, sqrt: real -> real, c: Edges, sums: map<Key, Option<Series>>,
                   frames: nat, e: seq<int>, d: seq<real>)
    requires Collected(Q, key, sqrt, c) && |e| == |d| == |Q| && forall q :: 0 <= q < |Q| ==> e[q] == -1
    ensures Board(Q, key, c, 0, map[], sums, frames, e, d, [])
  {
  }

  lemma OneMoreNet(Q: seq<Quad>, key: Point -> Key, sqrt: real -> real, c: Edges, done: nat, next: nat,
                   results: map<string, NetResult>,
                   sums: map<Key, Option<Series>>, frames: nat, e: seq<int>, d: seq<real>, rows: seq<Series>,
                   r: NetResult, e': seq<int>, d': seq<real>, rows': seq<Series>)
    requires Collected(Q, key, sqrt, c) && done < |c.order| && next == done + 1
    requires Board(Q, key, c, done, results, sums, frames, e, d, rows)
    requires |e'| == |d'| == |Q| && Matched(e', |rows'|) && rows <= rows'
    requires NetShown(c.byNet[c.order[done]], r, sums, frames, c.lengths, e', d', rows')
    requires forall q :: 0 <= q < |Q| && !QuadIn(c.byNet[c.order[done]], q) ==> e'[q] == e[q] && d'[q] == d[q]
    ensures Board(Q, key, c, next, results[c.order[done] := r], sums, frames, e', d', rows')
  {
    hide NetShown, Matched, ShownSoFar, BlankElsewhere;
    NoQuadOff(Q, key, sqrt, c, c.order[done]);
    BlankStill(Q, c.order, done, next, c.byNet[c.order[done]], e, e');
    OldNetsStayShown(Q, key, sqrt, c, done, results, sums, frames, e, d, rows, e', d', rows');
    ShownOneMore(c, done, next, results, sums, frames, e', d', rows', r);
  }

  lemma OldNetsStayShown(Q: seq<Quad>, key: Point -> Key, sqrt: real -> real, c: Edges, done: nat,
                         results: map<string, NetResult>,
                         sums: map<Key, Option<Series>>, frames: nat, e: seq<int>, d: seq<real>, rows: seq<Series>,
                         e': seq<int>, d': seq<real>, rows': seq<Series>)
    requires Collected(Q, key, sqrt, c) && done < |c.order|
    requires ShownSoFar(c, done, results, sums, frames, e, d, rows)
    requires rows <= rows' && |e| == |e'| == |d| == |d'| == |Q|
    requires forall q :: 0 <= q < |Q| && !QuadIn(c.byNet[c.order[done]], q) ==> e'[q] == e[q] && d'[q] == d[q]
    ensures ShownSoFar(c, done, results, sums, frames, e', d', rows') && c.order[done] !in c.order[..done]
  {
    hide NetShown, QuadIn, EdgesOn;
    NewNetIsNew(Q, key, sqrt, c, done);
    hide Collected;
    forall i | 0 <= i < done
      ensures NetShown(c.byNet[c.order[i]], results[c.order[i]], sums, frames, c.lengths, e', d', rows')
    {
      OldNetStaysShown(Q, key, sqrt, c, i, done, results[c.order[i]], sums, frames, e, d, rows, e', d', rows');
    }
  }

  lemma NewNetIsNew(Q: seq<Quad>, key: Point -> Key, sqrt: real -> real, c: Edges, done: nat)
    requires Collected(Q, key, sqrt, c) && done < |c.order|
    ensures c.order[done] !in c.order[..done]
  {
  }

  lemma ShownOneMore(c: Edges, done: nat, next: nat, results: map<string, NetResult>, sums: map<Key, Option<Series>>,
                     frames: nat,
                     e: seq<int>, d: seq<real>, rows: seq<Series>, r: NetResult)
    requires done < |c.order| && next == done + 1 && forall net :: net in c.order ==> net in c.byNet
    requires ShownSoFar(c, done, results, sums, frames, e, d, rows) && c.order[done] !in c.order[..done]
    requires NetShown(c.byNet[c.order[done]], r, sums, frames, c.lengths, e, d, rows)
    ensures ShownSoFar(c, next, results[c.order[done] := r], sums, frames, e, d, rows)
  {
    hide NetShown;
    assert c.order[..next] == c.order[..done] + [c.order[done]];
    assert forall i :: 0 <= i < done ==> c.order[..done][i] == c.order[i];
  }

  lemma BlankStill(Q: seq<Quad>, order: seq<string>, done: nat, next: nat, edges: seq<CopperEdge>, e: seq<int>,
                   e': seq<int>)
    requires done < |order| && next == done + 1 && BlankElsewhere(Q, order, done, e) && |e'| == |e|
    requires forall q :: 0 <= q < |Q| && Q[q].net != order[done] ==> !QuadIn(edges, q)
    requires forall q :: 0 <= q < |Q| && !QuadIn(edges, q) ==> e'[q] == e[q]
    ensures BlankElsewhere(Q, order, next, e')
  {
    assert order[..next] == order[..done] + [order[done]];
  }

  lemma NoQuadOff(Q: seq<Quad>, key: Point -> Key, sqrt: real -> real, c: Edges, net: string)
    requires Collected(Q, key, sqrt, c) && net in c.byNet
    ensures forall q :: 0 <= q < |Q| && Q[q].net != net ==> !QuadIn(c.byNet[net], q)
  {
    EdgesHaveQuads(Q, key, sqrt, c, net);
  }

  lemma OldNetStaysShown(Q: seq<Quad>, key: Point -> Key, sqrt: real -> real, c: Edges, i: nat, done: nat, r: NetResult,
                         sums: map<Key, Option<Series>>, frames: nat, e: seq<int>, d: seq<real>, rows: seq<Series>,
                         e': seq<int>, d': seq<real>, rows': seq<Series>)
    requires Collected(Q, key, sqrt, c) && i < done < |c.order|
    requires NetShown(c.byNet[c.order[i]], r, sums, frames, c.lengths, e, d, rows) && rows <= rows'
    requires |e| == |e'| == |d| == |d'| == |Q|
    requires forall q :: 0 <= q < |Q| && !QuadIn(c.byNet[c.order[done]], q) ==> e'[q] == e[q] && d'[q] == d[q]
    ensures NetShown(c.byNet[c.order[i]], r, sums, frames, c.lengths, e', d', rows')
  {
    EdgesHaveQuads(Q, key, sqrt, c, c.order[i]);
    NoQuadOff(Q, key, sqrt, c, c.order[done]);
    assert c.order[i] != c.order[done];
    hide NetShown, Collected, QuadIn;
    NetShownKeeps(c.byNet[c.order[i]], r, sums, frames, c.lengths, e, d, rows, e', d', rows');
  }

  lemma ListOne(unresolved: seq<(string, Unresolved)>, results: map<string, NetResult>, net: string, r: NetResult)
    requires Listed(unresolved, results) && net !in results
    ensures Listed(if r.reason.Some? then unresolved + [(net, r.reason.value)] else unresolved, results[net := r])
  {
    var unresolved', results' := if r.reason.Some? then unresolved + [(net, r.reason.value)] else unresolved,
      results[net := r];
    forall m, u
      ensures (m, u) in unresolved' <==> m in results' && results'[m].reason == Some(u)
    {
      assert (m, u) in unresolved <==> m in results && results[m].reason == Some(u);
    }
  }

  lemma SumsAreFull(pads: seq<Pad>, known: Readings, key: Point -> Key, frames: nat, sums: map<Key, Option<Series>>)
    requires Summed(pads, |pads|, known, key, frames, sums)
    ensures FullSums(sums, frames)
  {
    forall k | k in sums && sums[k].Some?
      ensures |sums[k].value| == frames
    {
      assert Entry(pads, |pads|, known, key, frames, k, sums[k]);
    }
  }

  /** What the loop needs to know before it solves the next net. */
  lemma ReadyForNet(Q: seq<Quad>, key: Point -> Key, sqrt: real -> real, c: Edges, i: nat,
                    results: map<string, NetResult>,
                    sums: map<Key, Option<Series>>, frames: nat, e: seq<int>, d: seq<real>, rows: seq<Series>)
    requires Collected(Q, key, sqrt, c) && i < |c.order| && Board(Q, key, c, i, results, sums, frames, e, d, rows)
    ensures c.order[i] in c.byNet && c.order[i] !in results && |e| == |d| == |c.lengths| == |Q| && Matched(e, |rows|)
    ensures QuadsInOrder(c.byNet[c.order[i]], |c.lengths|)
    ensures forall k :: 0 <= k < |c.byNet[c.order[i]]| ==> e[c.byNet[c.order[i]][k].quad] == -1
  {
    EdgesHaveQuads(Q, key, sqrt, c, c.order[i]);
    assert c.order[i] !in c.order[..i];
    hide Matched, NetShown;
  }

  lemma OrderNamesNets(Q: seq<Quad>, key: Point -> Key, sqrt: real -> real, c: Edges)
    requires Collected(Q, key, sqrt, c)
    ensures forall net :: net in c.order ==> net in c.byNet
  {
  }

  /** Net after net, in the order of their first quad. */
  method FlowOfNets(ghost Q: seq<Quad>, ghost key: Point -> Key, ghost sqrt: real -> real, c: Edges,
                    sums: map<Key, Option<Series>>, frames: nat,
                    edgeOfQuad: array<int>, distOfQuad: array<real>)
    returns (rows: seq<Series>, results: map<string, NetResult>, unresolvedNets: seq<(string, Unresolved)>)
    requires Collected(Q, key, sqrt, c) && FullSums(sums, frames) && forall net :: net in c.order ==> net in c.byNet
    requires Board(Q, key, c, 0, map[], sums, frames, edgeOfQuad[..], distOfQuad[..], [])
    modifies edgeOfQuad, distOfQuad
    ensures Board(Q, key, c, |c.order|, results, sums, frames, edgeOfQuad[..], distOfQuad[..], rows)
    ensures Listed(unresolvedNets, results)
  {
    hide Board, Collected, NetShown, FullSums, Matched, Listed, QuadIn;
    rows, results, unresolvedNets := [], map[], [];
    NothingListed();
    for i := 0 to |c.order|
      invariant Board(Q, key, c, i, results, sums, frames, edgeOfQuad[..], distOfQuad[..], rows)
      invariant Listed(unresolvedNets, results)
    {
      ghost var e, d, rows0 := edgeOfQuad[..], distOfQuad[..], rows;
      var net := c.order[i];
      ReadyForNet(Q, key, sqrt, c, i, results, sums, frames, e, d, rows);
      var r;
      rows, r := ShowNet(c.byNet[net], sums, frames, c.lengths, edgeOfQuad, distOfQuad, rows);
      OneMoreNet(Q, key, sqrt, c, i, i + 1, results, sums, frames, e, d, rows0, r, edgeOfQuad[..], distOfQuad[..],
        rows);
      ListOne(unresolvedNets, results, net, r);
      if r.reason.Some? {
        unresolvedNets := unresolvedNets + [(net, r.reason.value)];
      }
      results := results[net := r];
    }
  }

  lemma NothingListed()
    ensures Listed([], map[])
  {
  }

  method ShowNet(edges: seq<CopperEdge>, sums: map<Key, Option<Series>>, frames: nat, lens: seq<real>,
                 edgeOfQuad: array<int>, distOfQuad: array<real>, rows0: seq<Series>)
    returns (rows: seq<Series>, r: NetResult)
    requires |lens| == edgeOfQuad.Length == distOfQuad.Length && QuadsInOrder(edges, |lens|)
    requires FullSums(sums, frames) && Matched(edgeOfQuad[..], |rows0|)
    requires forall i :: 0 <= i < |edges| ==> edgeOfQuad[edges[i].quad] == -1
    modifies edgeOfQuad, distOfQuad
    ensures NetShown(edges, r, sums, frames, lens, edgeOfQuad[..], distOfQuad[..], rows)
    ensures Matched(edgeOfQuad[..], |rows|) && rows0 <= rows
    ensures forall q :: 0 <= q < |lens| && !QuadIn(edges, q) ==>
              edgeOfQuad[q] == old(edgeOfQuad[q]) && distOfQuad[q] == old(distOfQuad[q])
  {
    hide Matched, Solved, InOwnNumbers, Phased, Shows, FullSums;
    rows, r := FlowOfNet(edges, sums, frames, lens, edgeOfQuad, distOfQuad, rows0);
  }

  /** The whole table.  Quads are those of the shared enumeration; each net's quads show its own solve, one row each. */
  method BuildFlow(pads: seq<Pad>, traces: seq<Trace>, nets: map<string, nat>, known: Readings, key: Point -> Key,
                   frames: nat, sqrt: real -> real)
    returns (table: FlowTable, c: Edges, sums: map<Key, Option<Series>>, results: map<string, NetResult>,
             ghost pieces: seq<Piece>)
    requires FullSeries(known, frames) && IsSqrt(sqrt)
    ensures Copper(traces, nets, pieces) && EdgesFollow(traces, nets, pieces, key, sqrt, c)
    ensures |table.edgeOfQuad| == |table.distOfQuad| == |pieces|
    ensures Summed(pads, |pads|, known, key, frames, sums)
    ensures Collected(BoardQuads(traces, |traces|, nets, sqrt), key, sqrt, c)
    ensures Board(BoardQuads(traces, |traces|, nets, sqrt), key, c, |c.order|, results, sums, frames, table.edgeOfQuad,
              table.distOfQuad, table.rows)
    ensures |table.peakOfEdge| == |table.rows|
    ensures forall e :: 0 <= e < |table.rows| ==> IsPeak(table.rows[e], table.peakOfEdge[e])
    ensures IsPeak(table.peakOfEdge, table.peak)
    ensures Listed(table.unresolvedNets, results)
    ensures forall d :: d in table.unresolvedBy <==>
              d != "" && exists i :: 0 <= i < |pads| && Designator(pads[i], known) == d && Reading(pads[i], known).None?
  {
    hide BoardQuads, NetShown, Matched, Summed, FullSums, AllReal, FullSeries, Reading, Designator, Board, Listed;
    hide EdgesOn, IsPeak, Copper, EdgesFollow, QuadsOf, IsSqrt;
    ghost var Q := BoardQuads(traces, |traces|, nets, sqrt);
    var unresolvedBy;
    sums, unresolvedBy := SumPads(pads, known, key, frames);
    SumsAreFull(pads, known, key, frames, sums);
    c, pieces := CollectEdges(traces, nets, key, sqrt);
    OrderNamesNets(Q, key, sqrt, c);
    PieceCount(traces, nets, pieces, key, sqrt, c);
    var edgeOfQuad, distOfQuad := new int[|c.lengths|](_ => -1), new real[|c.lengths|](_ => 0.0);
    StartBoard(Q, key, sqrt, c, sums, frames, edgeOfQuad[..], distOfQuad[..]);
    var rows, unresolvedNets;
    rows, results, unresolvedNets := FlowOfNets(Q, key, sqrt, c, sums, frames, edgeOfQuad, distOfQuad);
    var peakOfEdge, peak := Peaks(rows);
    table := FlowTable(edgeOfQuad[..], distOfQuad[..], rows, peakOfEdge, peak, unresolvedBy, unresolvedNets);
  }

  lemma PieceCount(traces: seq<Trace>, nets: map<string, nat>, pieces: seq<Piece>, key: Point -> Key,
                   sqrt: real -> real, c: Edges)
    requires EdgesFollow(traces, nets, pieces, key, sqrt, c)
    ensures |c.lengths| == |pieces|
  {
    hide EdgeOfPiece, OnNet;
  }

  // ------------------------------------------------------------------------------------------------------
  // The two walks together
  // ------------------------------------------------------------------------------------------------------

  lemma {:induction false} QuadHasEdge(Q: seq<Quad>, q: nat, k: nat, key: Point -> Key) returns (i: nat)
    requires q < k <= |Q|
    ensures i < |EdgesOn(Q, Q[q].net, k, key)|
    ensures EdgesOn(Q, Q[q].net, k, key)[i] == CopperEdge(key(Q[q].a), key(Q[q].b), q)
  {
    if q == k - 1 {
      i := |EdgesOn(Q, Q[q].net, k - 1, key)|;
    } else {
      i := QuadHasEdge(Q, q, k - 1, key);
    }
  }

  /** A drawn ribbon carries the current the solve found for that very piece of copper, or none when it found none. */
  lemma RibbonShowsItsOwnCurrent(Q: seq<Quad>, key: Point -> Key, sqrt: real -> real, c: Edges,
                                 results: map<string, NetResult>,
                                 sums: map<Key, Option<Series>>, frames: nat, table: FlowTable, nets: map<string, nat>,
                                 layerZ: string -> real, ribbons: seq<Ribbon>, q: nat) returns (i: nat)
    requires Collected(Q, key, sqrt, c)
    requires Board(Q, key, c, |c.order|, results, sums, frames, table.edgeOfQuad, table.distOfQuad, table.rows)
    requires |table.peakOfEdge| == |table.rows|
    requires forall e :: 0 <= e < |table.rows| ==> IsPeak(table.rows[e], table.peakOfEdge[e])
    requires Mesh(ribbons, Q, nets, Some(CopperFlow(table.edgeOfQuad, table.distOfQuad, table.peakOfEdge)), layerZ,
               sqrt)
    requires q < |Q|
    ensures Q[q].net in results && InOwnNumbers(c.byNet[Q[q].net], results[Q[q].net])
    ensures Solved(results[Q[q].net], sums, frames)
    ensures i < |c.byNet[Q[q].net]| == |results[Q[q].net].perEdge|
    ensures c.byNet[Q[q].net][i] == CopperEdge(key(Q[q].a), key(Q[q].b), q)
    ensures q < |ribbons| && Carries(ribbons[q], results[Q[q].net].perEdge[i], table.rows)
  {
    hide Matched, BlankElsewhere, NetShown, Mesh, IsPeak, InOwnNumbers, Solved, Phased, Shows;
    i := EdgeOfQuad(Q, key, sqrt, c, q);
    NetOfQuad(Q, key, c, sqrt, results, sums, frames, table.edgeOfQuad, table.distOfQuad, table.rows, q);
    hide Collected, ShownSoFar;
    ShownAt(c.byNet[Q[q].net], results[Q[q].net], sums, frames, c.lengths, table, i);
    RibbonCarries(Q, nets, table, layerZ, sqrt, ribbons, q, c.byNet[Q[q].net][i], results[Q[q].net].perEdge[i]);
  }

  lemma EdgeOfQuad(Q: seq<Quad>, key: Point -> Key, sqrt: real -> real, c: Edges, q: nat) returns (i: nat)
    requires Collected(Q, key, sqrt, c) && q < |Q|
    ensures Q[q].net in c.byNet && i < |c.byNet[Q[q].net]|
    ensures c.byNet[Q[q].net][i] == CopperEdge(key(Q[q].a), key(Q[q].b), q)
  {
    assert Q[q].net in c.byNet;
    i := QuadHasEdge(Q, q, |Q|, key);
  }

  lemma NetOfQuad(Q: seq<Quad>, key: Point -> Key, c: Edges, sqrt: real -> real, results: map<string, NetResult>,
                  sums: map<Key, Option<Series>>, frames: nat, e: seq<int>, d: seq<real>, rows: seq<Series>, q: nat)
    requires Collected(Q, key, sqrt, c) && q < |Q| && Q[q].net in c.byNet
    requires ShownSoFar(c, |c.order|, results, sums, frames, e, d, rows)
    ensures Q[q].net in results && NetShown(c.byNet[Q[q].net], results[Q[q].net], sums, frames, c.lengths, e, d, rows)
  {
    hide NetShown;
    assert Q[q].net in c.order;
    var j :| 0 <= j < |c.order| && c.order[j] == Q[q].net;
    assert c.order[j] in results;
  }

  lemma ShownAt(edges: seq<CopperEdge>, r: NetResult, sums: map<Key, Option<Series>>, frames: nat, lens: seq<real>,
                table: FlowTable, i: nat)
    requires NetShown(edges, r, sums, frames, lens, table.edgeOfQuad, table.distOfQuad, table.rows) && i < |edges|
    ensures InOwnNumbers(edges, r) && Solved(r, sums, frames) && |r.perEdge| == |edges|
    ensures ShowsEdge(table.edgeOfQuad, table.rows, edges[i], r.perEdge[i])
  {
    hide Solved, InOwnNumbers, Phased, ShowsEdge;
  }

  lemma RibbonCarries(Q: seq<Quad>, nets: map<string, nat>, table: FlowTable, layerZ: string -> real,
                      sqrt: real -> real,
                      ribbons: seq<Ribbon>, q: nat, edge: CopperEdge, value: Option<Series>)
    requires |table.peakOfEdge| == |table.rows|
    requires forall e :: 0 <= e < |table.rows| ==> IsPeak(table.rows[e], table.peakOfEdge[e])
    requires Mesh(ribbons, Q, nets, Some(CopperFlow(table.edgeOfQuad, table.distOfQuad, table.peakOfEdge)), layerZ,
               sqrt)
    requires q < |Q| && edge.quad == q && ShowsEdge(table.edgeOfQuad, table.rows, edge, value)
    ensures q < |ribbons| && Carries(ribbons[q], value, table.rows)
  {
    hide Shape, IsPeak;
    assert Drawn(ribbons[q], Q[q], q, nets, Some(CopperFlow(table.edgeOfQuad, table.distOfQuad, table.peakOfEdge)),
      layerZ, sqrt);
  }

  ghost predicate Carries(r: Ribbon, value: Option<Series>, rows: seq<Series>) {
    match value
    case None => r.edge == -1 && r.peak == -1.0
    case Some(row) => 0 <= r.edge < |rows| && rows[r.edge] == row && IsPeak(row, r.peak)
  }
}
