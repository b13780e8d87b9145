/** The order in which routed copper is cut into quads.  Two walks over the board number the quads independently, one
    to solve currents and one to draw; both are shown to follow the same enumeration.  */
module Quads {
  import opened Optional
  import opened Reals
  import opened Series

  datatype Point = Point(x: real, y: real)

  datatype Segment = Segment(layer: string, widthMm: real, points: seq<Point>)

  /** A routed trace; the empty name stands for a trace without a net. */
  datatype Trace = Trace(net: string, segments: seq<Segment>)

  /** One piece of copper between two consecutive points. */
  datatype Quad = Quad(net: string, segment: Segment, a: Point, b: Point)

  /** A point snapped to a micron. */
  type Key = (int, int)

  function Distance(a: Point, b: Point, sqrt: real -> real): real {
    sqrt((b.x - a.x) * (b.x - a.x) + (b.y - a.y) * (b.y - a.y))
  }

  lemma DistanceZero(a: Point, b: Point, sqrt: real -> real)
    requires IsSqrt(sqrt)
    ensures Distance(a, b, sqrt) >= 0.0
    ensures Distance(a, b, sqrt) == 0.0 <==> a == b
    ensures Square(Distance(a, b, sqrt)) == Square(b.x - a.x) + Square(b.y - a.y)
  {
    SquareNotNegative(b.x - a.x);
    SquareNotNegative(b.y - a.y);
    SquareNotNegative(Distance(a, b, sqrt));
    var s := Square(b.x - a.x) + Square(b.y - a.y);
    assert s == (b.x - a.x) * (b.x - a.x) + (b.y - a.y) * (b.y - a.y);
    hide Square;
    assert Square(Distance(a, b, sqrt)) == s;
  }

  lemma SquareNotNegative(x: real)
    ensures Square(x) >= 0.0 && (Square(x) == 0.0 <==> x == 0.0)
  {
    if x > 0.0 {
      ScalePositive(x, x);
    } else if x < 0.0 {
      ScalePositive(-x, -x);
      assert x * x == (-x) * (-x);
    }
  }

  // ------------------------------------------------------------------------------------------------------
  // The enumeration
  // ------------------------------------------------------------------------------------------------------

  function PairCount(s: Segment): nat {
    if s.points == [] then 0 else |s.points| - 1
  }

  /** Quads of the first `k` point pairs of a segment; a repeated point makes none. */
  ghost function SegmentQuads(net: string, s: Segment, k: nat, sqrt: real -> real): seq<Quad>
    requires k <= PairCount(s)
  {
    if k == 0 then []
    else
      var a, b := s.points[k - 1], s.points[k];
      SegmentQuads(net, s, k - 1, sqrt) + if Distance(a, b, sqrt) == 0.0 then [] else [Quad(net, s, a, b)]
  }

  ghost function TraceQuads(t: Trace, k: nat, sqrt: real -> real): seq<Quad>
    requires k <= |t.segments|
  {
    if k == 0 then []
    else TraceQuads(t, k - 1, sqrt) + SegmentQuads(t.net, t.segments[k - 1], PairCount(t.segments[k - 1]), sqrt)
  }

  /** Quads of the first `k` traces; a trace without a net, or on a net without a signal, makes none. */
  ghost function BoardQuads(traces: seq<Trace>, k: nat, nets: map<string, nat>, sqrt: real -> real): seq<Quad>
    requires k <= |traces|
  {
    if k == 0 then []
    else
      var t := traces[k - 1];
      BoardQuads(traces, k - 1, nets, sqrt) +
      if t.net == "" || t.net !in nets then [] else TraceQuads(t, |t.segments|, sqrt)
  }

  lemma NoTraceYet(traces: seq<Trace>, nets: map<string, nat>, sqrt: real -> real)
    ensures BoardQuads(traces, 0, nets, sqrt) == []
  {
  }

  lemma OneMoreTrace(traces: seq<Trace>, k: nat, next: nat, nets: map<string, nat>, sqrt: real -> real)
    requires k < |traces| && next == k + 1
    ensures BoardQuads(traces, next, nets, sqrt) ==
            if traces[k].net == "" || traces[k].net !in nets then BoardQuads(traces, k, nets, sqrt)
            else BoardQuads(traces, k, nets, sqrt) + TraceQuads(traces[k], |traces[k].segments|, sqrt)
  {
  }

  ghost predicate Real(q: Quad, nets: map<string, nat>, sqrt: real -> real) {
    q.net in nets && Distance(q.a, q.b, sqrt) != 0.0
  }

  ghost predicate AllReal(Q: seq<Quad>, nets: map<string, nat>, sqrt: real -> real) {
    forall k :: 0 <= k < |Q| ==> Real(Q[k], nets, sqrt)
  }

  // ------------------------------------------------------------------------------------------------------
  // The copper itself
  // ------------------------------------------------------------------------------------------------------

  /** A place in the routed copper: between points `pair` and `pair + 1` of a segment of a trace. */
  datatype Piece = Piece(trace: nat, segment: nat, pair: nat)

  predicate Before(p: Piece, q: Piece) {
    || p.trace < q.trace
    || (p.trace == q.trace && (p.segment < q.segment || (p.segment == q.segment && p.pair < q.pair)))
  }

  /** There is copper at this place: the trace is on a net with a signal, and the two points differ. */
  ghost predicate IsPiece(traces: seq<Trace>, nets: map<string, nat>, p: Piece) {
    && p.trace < |traces| && traces[p.trace].net != "" && traces[p.trace].net in nets
    && p.segment < |traces[p.trace].segments|
    && var points := traces[p.trace].segments[p.segment].points;
       p.pair + 1 < |points| && points[p.pair] != points[p.pair + 1]
  }

  /** The quad that belongs there. */
  ghost function PieceQuad(traces: seq<Trace>, nets: map<string, nat>, p: Piece): Quad
    requires IsPiece(traces, nets, p)
  {
    var s := traces[p.trace].segments[p.segment];
    Quad(traces[p.trace].net, s, s.points[p.pair], s.points[p.pair + 1])
  }

  /** All the copper before `end`, each piece once, in board order. */
  ghost predicate Lists(traces: seq<Trace>, nets: map<string, nat>, pieces: seq<Piece>, end: Piece) {
    && (forall i, j :: 0 <= i < j < |pieces| ==> Before(pieces[i], pieces[j]))
    && (forall i :: 0 <= i < |pieces| ==> IsPiece(traces, nets, pieces[i]) && Before(pieces[i], end))
    && (forall p :: IsPiece(traces, nets, p) && Before(p, end) ==> p in pieces)
  }

  /** All the copper of the board, each piece once, in board order. */
  ghost predicate Copper(traces: seq<Trace>, nets: map<string, nat>, pieces: seq<Piece>) {
    && (forall i, j :: 0 <= i < j < |pieces| ==> Before(pieces[i], pieces[j]))
    && (forall p :: p in pieces <==> IsPiece(traces, nets, p))
  }

  /** Quad `k` is that of piece `k`. */
  ghost predicate QuadsOf(traces: seq<Trace>, nets: map<string, nat>, pieces: seq<Piece>, Q: seq<Quad>) {
    && |Q| == |pieces|
    && forall k :: 0 <= k < |pieces| ==> IsPiece(traces, nets, pieces[k]) && Q[k] == PieceQuad(traces, nets, pieces[k])
  }

  lemma {:induction false} SegmentCopper(traces: seq<Trace>, nets: map<string, nat>, t: nat, s: nat, k: nat,
                                         pieces0: seq<Piece>, Q0: seq<Quad>, sqrt: real -> real)
    returns (pieces: seq<Piece>)
    requires IsSqrt(sqrt) && t < |traces| && traces[t].net != "" && traces[t].net in nets && s < |traces[t].segments|
    requires k <= PairCount(traces[t].segments[s])
    requires Lists(traces, nets, pieces0, Piece(t, s, 0)) && QuadsOf(traces, nets, pieces0, Q0)
    ensures Lists(traces, nets, pieces, Piece(t, s, k))
    ensures QuadsOf(traces, nets, pieces, Q0 + SegmentQuads(traces[t].net, traces[t].segments[s], k, sqrt))
  {
    if k == 0 {
      pieces := pieces0;
      assert Q0 + [] == Q0;
    } else {
      var seg := traces[t].segments[s];
      var before := SegmentCopper(traces, nets, t, s, k - 1, pieces0, Q0, sqrt);
      DistanceZero(seg.points[k - 1], seg.points[k], sqrt);
      var Q := Q0 + SegmentQuads(traces[t].net, seg, k - 1, sqrt);
      var p := Piece(t, s, k - 1);
      hide Distance, IsSqrt, Square;
      if seg.points[k - 1] == seg.points[k] {
        pieces := before;
        assert Q + [] == Q;
        NothingHere(traces, nets, pieces, p, k);
      } else {
        pieces := before + [p];
        PieceHere(traces, nets, before, p, k, Q);
        assert Q0 + (SegmentQuads(traces[t].net, seg, k - 1, sqrt) + [PieceQuad(traces, nets, p)])
            == Q + [PieceQuad(traces, nets, p)];
      }
    }
  }

  lemma NothingHere(traces: seq<Trace>, nets: map<string, nat>, pieces: seq<Piece>, p: Piece, next: nat)
    requires Lists(traces, nets, pieces, p) && !IsPiece(traces, nets, p) && next == p.pair + 1
    ensures Lists(traces, nets, pieces, Piece(p.trace, p.segment, next))
  {
    hide IsPiece;
    forall q | IsPiece(traces, nets, q) && Before(q, Piece(p.trace, p.segment, next))
      ensures q in pieces
    {
      assert q != p;
    }
  }

  lemma PieceHere(traces: seq<Trace>, nets: map<string, nat>, pieces: seq<Piece>, p: Piece, next: nat, Q: seq<Quad>)
    requires Lists(traces, nets, pieces, p) && IsPiece(traces, nets, p) && next == p.pair + 1
    requires QuadsOf(traces, nets, pieces, Q)
    ensures Lists(traces, nets, pieces + [p], Piece(p.trace, p.segment, next))
    ensures QuadsOf(traces, nets, pieces + [p], Q + [PieceQuad(traces, nets, p)])
  {
    hide IsPiece, PieceQuad;
    forall q | IsPiece(traces, nets, q) && Before(q, Piece(p.trace, p.segment, next))
      ensures q in pieces + [p]
    {
      assert q == p || Before(q, p);
    }
  }

  /** No copper lies beyond a segment's last pair. */
  lemma SegmentEnds(traces: seq<Trace>, nets: map<string, nat>, pieces: seq<Piece>, t: nat, s: nat, next: nat)
    requires t < |traces| && s < |traces[t].segments| && next == s + 1
    requires Lists(traces, nets, pieces, Piece(t, s, PairCount(traces[t].segments[s])))
    ensures Lists(traces, nets, pieces, Piece(t, next, 0))
  {
    forall q | IsPiece(traces, nets, q) && Before(q, Piece(t, next, 0))
      ensures Before(q, Piece(t, s, PairCount(traces[t].segments[s])))
    {
    }
    hide IsPiece;
  }

  lemma {:induction false} TraceCopper(traces: seq<Trace>, nets: map<string, nat>, t: nat, s: nat,
                                       pieces0: seq<Piece>, Q0: seq<Quad>, sqrt: real -> real)
    returns (pieces: seq<Piece>)
    requires IsSqrt(sqrt) && t < |traces| && traces[t].net != "" && traces[t].net in nets && s <= |traces[t].segments|
    requires Lists(traces, nets, pieces0, Piece(t, 0, 0)) && QuadsOf(traces, nets, pieces0, Q0)
    ensures Lists(traces, nets, pieces, Piece(t, s, 0))
    ensures QuadsOf(traces, nets, pieces, Q0 + TraceQuads(traces[t], s, sqrt))
  {
    hide Lists, QuadsOf, IsSqrt;
    if s == 0 {
      pieces := pieces0;
      assert Q0 + [] == Q0;
    } else {
      var before := TraceCopper(traces, nets, t, s - 1, pieces0, Q0, sqrt);
      var Q, seg := Q0 + TraceQuads(traces[t], s - 1, sqrt), traces[t].segments[s - 1];
      pieces := SegmentCopper(traces, nets, t, s - 1, PairCount(seg), before, Q, sqrt);
      SegmentEnds(traces, nets, pieces, t, s - 1, s);
      assert Q0 + (TraceQuads(traces[t], s - 1, sqrt) + SegmentQuads(traces[t].net, seg, PairCount(seg), sqrt))
          == Q + SegmentQuads(traces[t].net, seg, PairCount(seg), sqrt);
    }
  }

  /** Past a trace's last segment, or a trace without a signal, no more copper comes before the next trace. */
  lemma TraceEnds(traces: seq<Trace>, nets: map<string, nat>, pieces: seq<Piece>, t: nat, s: nat, next: nat)
    requires t < |traces| && next == t + 1 && Lists(traces, nets, pieces, Piece(t, s, 0))
    requires s == |traces[t].segments| || traces[t].net == "" || traces[t].net !in nets
    requires traces[t].net == "" || traces[t].net !in nets ==> s == 0
    ensures Lists(traces, nets, pieces, Piece(next, 0, 0))
  {
    forall q | IsPiece(traces, nets, q) && Before(q, Piece(next, 0, 0))
      ensures Before(q, Piece(t, s, 0))
    {
    }
    hide IsPiece;
  }

  lemma NoCopperYet(traces: seq<Trace>, nets: map<string, nat>)
    ensures Lists(traces, nets, [], Piece(0, 0, 0)) && QuadsOf(traces, nets, [], [])
  {
  }

  lemma {:induction false} BoardCopper(traces: seq<Trace>, nets: map<string, nat>, t: nat, sqrt: real -> real)
    returns (pieces: seq<Piece>)
    requires IsSqrt(sqrt) && t <= |traces|
    ensures Lists(traces, nets, pieces, Piece(t, 0, 0))
    ensures QuadsOf(traces, nets, pieces, BoardQuads(traces, t, nets, sqrt))
  {
    hide Lists, QuadsOf, IsSqrt, BoardQuads, TraceQuads;
    if t == 0 {
      pieces := [];
      NoTraceYet(traces, nets, sqrt);
      NoCopperYet(traces, nets);
    } else {
      var before := BoardCopper(traces, nets, t - 1, sqrt);
      OneMoreTrace(traces, t - 1, t, nets, sqrt);
      var trace := traces[t - 1];
      if trace.net == "" || trace.net !in nets {
        pieces := before;
        TraceEnds(traces, nets, pieces, t - 1, 0, t);
      } else {
        pieces := TraceCopper(traces, nets, t - 1, |trace.segments|, before,
                              BoardQuads(traces, t - 1, nets, sqrt), sqrt);
        TraceEnds(traces, nets, pieces, t - 1, |trace.segments|, t);
      }
    }
  }

  /** The enumeration is of exactly the copper there is, in its order. */
  lemma QuadsAreCopper(traces: seq<Trace>, nets: map<string, nat>, sqrt: real -> real) returns (pieces: seq<Piece>)
    requires IsSqrt(sqrt)
    ensures Copper(traces, nets, pieces) && QuadsOf(traces, nets, pieces, BoardQuads(traces, |traces|, nets, sqrt))
  {
    pieces := BoardCopper(traces, nets, |traces|, sqrt);
    forall p | IsPiece(traces, nets, p)
      ensures Before(p, Piece(|traces|, 0, 0))
    {
    }
    hide IsPiece;
  }

  // ------------------------------------------------------------------------------------------------------
  // The walk that solves
  // ------------------------------------------------------------------------------------------------------

  datatype CopperEdge = CopperEdge(a: Key, b: Key, quad: nat)

  /** Edges of one net among the first `k` quads, each carrying its quad's number. */
  ghost function EdgesOn(Q: seq<Quad>, net: string, k: nat, key: Point -> Key): (es: seq<CopperEdge>)
    requires k <= |Q|
    ensures forall i :: 0 <= i < |es| ==> es[i].quad < k && Q[es[i].quad].net == net
    ensures forall i, j :: 0 <= i < j < |es| ==> es[i].quad < es[j].quad
  {
    if k == 0 then []
    else
      EdgesOn(Q, net, k - 1, key) +
      if Q[k - 1].net == net then [CopperEdge(key(Q[k - 1].a), key(Q[k - 1].b), k - 1)] else []
  }

  datatype Edges = Edges(byNet: map<string, seq<CopperEdge>>, order: seq<string>, lengths: seq<real>)

  /** The edges grouped by net, nets in the order of their first quad. */
  ghost predicate Collected(Q: seq<Quad>, key: Point -> Key, sqrt: real -> real, c: Edges) {
    && |c.lengths| == |Q| && (forall k :: 0 <= k < |Q| ==> c.lengths[k] == Distance(Q[k].a, Q[k].b, sqrt))
    && (forall i, j :: 0 <= i < j < |c.order| ==> c.order[i] != c.order[j])
    && (forall net :: net in c.order <==> net in c.byNet)
    && (forall net :: net in c.byNet <==> exists k :: 0 <= k < |Q| && Q[k].net == net)
    && (forall net :: net in c.byNet ==> c.byNet[net] == EdgesOn(Q, net, |Q|, key))
  }

  lemma {:induction false} EdgesOnPrefix(Q: seq<Quad>, q: Quad, net: string, k: nat, key: Point -> Key)
    requires k <= |Q|
    ensures EdgesOn(Q + [q], net, k, key) == EdgesOn(Q, net, k, key)
  {
    if k > 0 {
      EdgesOnPrefix(Q, q, net, k - 1, key);
    }
  }

  lemma {:induction false} NoEdgesOff(Q: seq<Quad>, net: string, k: nat, key: Point -> Key)
    requires k <= |Q| && forall i :: 0 <= i < k ==> Q[i].net != net
    ensures EdgesOn(Q, net, k, key) == []
  {
    if k > 0 {
      NoEdgesOff(Q, net, k - 1, key);
    }
  }

  /** One more quad joins its net's list, or opens one. */
  function Push(c: Edges, q: Quad, key: Point -> Key, length: real): Edges {
    var list := if q.net in c.byNet then c.byNet[q.net] else [];
    Edges(c.byNet[q.net := list + [CopperEdge(key(q.a), key(q.b), |c.lengths|)]],
          if q.net in c.byNet then c.order else c.order + [q.net],
          c.lengths + [length])
  }

  lemma PushCollects(Q: seq<Quad>, q: Quad, key: Point -> Key, sqrt: real -> real, c: Edges)
    requires Collected(Q, key, sqrt, c)
    ensures Collected(Q + [q], key, sqrt, Push(c, q, key, Distance(q.a, q.b, sqrt)))
  {
    var Q', c' := Q + [q], Push(c, q, key, Distance(q.a, q.b, sqrt));
    assert Q'[|Q|] == q;
    hide Distance;
    forall net
      ensures net in c'.byNet <==> exists k :: 0 <= k < |Q'| && Q'[k].net == net
    {
      if net in c.byNet {
        var k :| 0 <= k < |Q| && Q[k].net == net;
        assert Q'[k].net == net;
      }
    }
    forall net | net in c'.byNet
      ensures c'.byNet[net] == EdgesOn(Q', net, |Q'|, key)
    {
      PushLists(Q, q, key, c, Distance(q.a, q.b, sqrt), net);
    }
    PushOrder(c, q, key, Distance(q.a, q.b, sqrt));
    hide EdgesOn, Push;
  }

  lemma PushLists(Q: seq<Quad>, q: Quad, key: Point -> Key, c: Edges, length: real, net: string)
    requires |c.lengths| == |Q| && net in Push(c, q, key, length).byNet
    requires if net in c.byNet then c.byNet[net] == EdgesOn(Q, net, |Q|, key)
             else forall k :: 0 <= k < |Q| ==> Q[k].net != net
    ensures Push(c, q, key, length).byNet[net] == EdgesOn(Q + [q], net, |Q| + 1, key)
  {
    EdgesOnPrefix(Q, q, net, |Q|, key);
    if net !in c.byNet {
      NoEdgesOff(Q, net, |Q|, key);
    }
  }

  lemma PushOrder(c: Edges, q: Quad, key: Point -> Key, length: real)
    requires forall i, j :: 0 <= i < j < |c.order| ==> c.order[i] != c.order[j]
    requires forall net :: net in c.order <==> net in c.byNet
    ensures var c' := Push(c, q, key, length); forall i, j :: 0 <= i < j < |c'.order| ==> c'.order[i] != c'.order[j]
    ensures var c' := Push(c, q, key, length); forall net :: net in c'.order <==> net in c'.byNet
  {
    var c' := Push(c, q, key, length);
    if q.net !in c.byNet {
      assert c'.order[|c.order|] == q.net;
      assert forall i :: 0 <= i < |c.order| ==> c.order[i] in c.order && c.order[i] == c'.order[i];
    }
  }

  /** The solving walk, pair by pair. */
  method CollectSegment(net: string, seg: Segment, key: Point -> Key, sqrt: real -> real, c0: Edges,
                        ghost nets: map<string, nat>, ghost Q0: seq<Quad>)
    returns (c: Edges)
    requires net in nets && Collected(Q0, key, sqrt, c0) && AllReal(Q0, nets, sqrt)
    ensures var Q := Q0 + SegmentQuads(net, seg, PairCount(seg), sqrt);
            Collected(Q, key, sqrt, c) && AllReal(Q, nets, sqrt)
  {
    hide Collected;
    c := c0;
    ghost var Q := Q0;
    for i := 0 to PairCount(seg)
      invariant Q == Q0 + SegmentQuads(net, seg, i, sqrt)
      invariant Collected(Q, key, sqrt, c) && AllReal(Q, nets, sqrt)
    {
      var q := Quad(net, seg, seg.points[i], seg.points[i + 1]);
      var len := Distance(q.a, q.b, sqrt);
      if len == 0.0 {
        continue;
      }
      PushCollects(Q, q, key, sqrt, c);
      c := Push(c, q, key, len);
      Q := Q + [q];
    }
  }

  /** Segment by segment. */
  method CollectTrace(trace: Trace, key: Point -> Key, sqrt: real -> real, c0: Edges, ghost nets: map<string, nat>,
                      ghost Q0: seq<Quad>)
    returns (c: Edges)
    requires trace.net in nets && Collected(Q0, key, sqrt, c0) && AllReal(Q0, nets, sqrt)
    ensures var Q := Q0 + TraceQuads(trace, |trace.segments|, sqrt);
            Collected(Q, key, sqrt, c) && AllReal(Q, nets, sqrt)
  {
    hide Collected, SegmentQuads, AllReal;
    c := c0;
    ghost var Q := Q0;
    assert Q == Q0 + [];
    for s := 0 to |trace.segments|
      invariant Q == Q0 + TraceQuads(trace, s, sqrt)
      invariant Collected(Q, key, sqrt, c) && AllReal(Q, nets, sqrt)
    {
      var seg := trace.segments[s];
      c := CollectSegment(trace.net, seg, key, sqrt, c, nets, Q);
      Q := Q + SegmentQuads(trace.net, seg, PairCount(seg), sqrt);
    }
  }

  /** Trace by trace, skipping the nets the mesh skips. */
  method CollectEdges(traces: seq<Trace>, nets: map<string, nat>, key: Point -> Key, sqrt: real -> real)
    returns (c: Edges, ghost pieces: seq<Piece>)
    requires IsSqrt(sqrt)
    ensures Copper(traces, nets, pieces) && EdgesFollow(traces, nets, pieces, key, sqrt, c)
    ensures var Q := BoardQuads(traces, |traces|, nets, sqrt);
            Collected(Q, key, sqrt, c) && AllReal(Q, nets, sqrt) && QuadsOf(traces, nets, pieces, Q)
  {
    pieces := QuadsAreCopper(traces, nets, sqrt);
    hide Copper, QuadsOf, EdgesFollow, IsSqrt;
    c := Edges(map[], [], []);
    NothingCollected(key, sqrt);
    hide Collected, TraceQuads;
    for t := 0 to |traces|
      invariant Collected(BoardQuads(traces, t, nets, sqrt), key, sqrt, c)
      invariant AllReal(BoardQuads(traces, t, nets, sqrt), nets, sqrt)
    {
      var trace := traces[t];
      assert BoardQuads(traces, t, nets, sqrt) + [] == BoardQuads(traces, t, nets, sqrt);
      if trace.net == "" || trace.net !in nets {
        continue;
      }
      c := CollectTrace(trace, key, sqrt, c, nets, BoardQuads(traces, t, nets, sqrt));
    }
    CollectedFollows(traces, nets, pieces, BoardQuads(traces, |traces|, nets, sqrt), key, sqrt, c);
  }

  /** Each piece of copper is an edge of its own net, between the keys of its points, under its own number; there are no
      other edges, and each net's edges keep the board's order. */
  ghost predicate EdgesFollow(traces: seq<Trace>, nets: map<string, nat>, pieces: seq<Piece>, key: Point -> Key,
                              sqrt: real -> real, c: Edges) {
    && |c.lengths| == |pieces|
    && (forall k :: 0 <= k < |pieces| ==> EdgeOfPiece(traces, nets, pieces[k], k, key, sqrt, c))
    && (forall net, i :: net in c.byNet && 0 <= i < |c.byNet[net]| ==>
          OnNet(traces, nets, pieces, net, c.byNet[net][i].quad))
    && (forall net, i, j :: net in c.byNet && 0 <= i < j < |c.byNet[net]| ==>
          c.byNet[net][i].quad < c.byNet[net][j].quad)
  }

  ghost predicate EdgeOfPiece(traces: seq<Trace>, nets: map<string, nat>, p: Piece, k: nat, key: Point -> Key,
                              sqrt: real -> real, c: Edges) {
    && IsPiece(traces, nets, p)
    && var q := PieceQuad(traces, nets, p);
       && k < |c.lengths| && c.lengths[k] == Distance(q.a, q.b, sqrt)
       && q.net in c.byNet && CopperEdge(key(q.a), key(q.b), k) in c.byNet[q.net]
  }

  lemma CollectedFollows(traces: seq<Trace>, nets: map<string, nat>, pieces: seq<Piece>, Q: seq<Quad>,
                         key: Point -> Key, sqrt: real -> real, c: Edges)
    requires Collected(Q, key, sqrt, c) && QuadsOf(traces, nets, pieces, Q)
    ensures EdgesFollow(traces, nets, pieces, key, sqrt, c)
  {
    hide Distance, IsPiece, EdgesOn, EdgeOfPiece;
    forall k | 0 <= k < |pieces|
      ensures EdgeOfPiece(traces, nets, pieces[k], k, key, sqrt, c)
    {
      CollectedPiece(traces, nets, pieces, Q, key, sqrt, c, k);
    }
    forall net | net in c.byNet
      ensures forall i :: 0 <= i < |c.byNet[net]| ==> OnNet(traces, nets, pieces, net, c.byNet[net][i].quad)
      ensures forall i, j :: 0 <= i < j < |c.byNet[net]| ==> c.byNet[net][i].quad < c.byNet[net][j].quad
    {
      assert c.byNet[net] == EdgesOn(Q, net, |Q|, key);
      forall i | 0 <= i < |c.byNet[net]|
        ensures OnNet(traces, nets, pieces, net, c.byNet[net][i].quad)
      {
        NetOfPiece(traces, nets, pieces, Q, c.byNet[net][i].quad);
      }
    }
  }

  /** Number `k` is that of a piece on this net. */
  ghost predicate OnNet(traces: seq<Trace>, nets: map<string, nat>, pieces: seq<Piece>, net: string, k: nat) {
    k < |pieces| && IsPiece(traces, nets, pieces[k]) && traces[pieces[k].trace].net == net
  }

  lemma CollectedPiece(traces: seq<Trace>, nets: map<string, nat>, pieces: seq<Piece>, Q: seq<Quad>,
                       key: Point -> Key, sqrt: real -> real, c: Edges, k: nat)
    requires Collected(Q, key, sqrt, c) && QuadsOf(traces, nets, pieces, Q) && k < |pieces|
    ensures EdgeOfPiece(traces, nets, pieces[k], k, key, sqrt, c)
  {
    hide Distance, IsPiece;
    assert Q[k].net in c.byNet && Q[k] == PieceQuad(traces, nets, pieces[k]);
    EdgeListed(Q, k, |Q|, key);
    hide EdgesOn, PieceQuad;
  }

  lemma NetOfPiece(traces: seq<Trace>, nets: map<string, nat>, pieces: seq<Piece>, Q: seq<Quad>, k: nat)
    requires QuadsOf(traces, nets, pieces, Q) && k < |Q|
    ensures IsPiece(traces, nets, pieces[k]) && traces[pieces[k].trace].net == Q[k].net
  {
  }

  lemma {:induction false} EdgeListed(Q: seq<Quad>, q: nat, k: nat, key: Point -> Key)
    requires q < k <= |Q|
    ensures CopperEdge(key(Q[q].a), key(Q[q].b), q) in EdgesOn(Q, Q[q].net, k, key)
  {
    if q < k - 1 {
      EdgeListed(Q, q, k - 1, key);
    }
  }

  lemma NothingCollected(key: Point -> Key, sqrt: real -> real)
    ensures Collected([], key, sqrt, Edges(map[], [], []))
  {
  }

  // ------------------------------------------------------------------------------------------------------
  // The walk that draws
  // ------------------------------------------------------------------------------------------------------

  /** What the solver hands the mesh builder, joined by quad number. */
  datatype CopperFlow = CopperFlow(edgeOfQuad: seq<int>, distOfQuad: seq<real>, peakOfEdge: seq<real>)

  /** The four vertices of one quad and what they carry. */
  datatype Ribbon = Ribbon(net: nat, edge: int, peak: real, half: real, normal: Point, z: real, corners: seq<Point>,
      dist: seq<real>)

  function LookUp<T>(s: seq<T>, i: int, none: T): T {
    if 0 <= i < |s| then s[i] else none
  }

  /** The ribbon is quad `k` itself, at its real width, coloured by its own net and its own row of the flow table. */
  ghost predicate Drawn(r: Ribbon, q: Quad, k: nat, nets: map<string, nat>, flow: Option<CopperFlow>,
                        layerZ: string -> real, sqrt: real -> real) {
    && Shape(r, q, sqrt)
    && r.z == layerZ(q.segment.layer)
    && q.net in nets && r.net == nets[q.net]
    && |r.dist| == 4 && r.dist[0] == r.dist[1] && r.dist[2] == r.dist[3]
        && r.dist[2] - r.dist[0] == Distance(q.a, q.b, sqrt)
    && match flow
       case None => r.edge == -1 && r.peak == -1.0 && r.dist[0] == 0.0
       case Some(f) =>
         && r.edge == LookUp(f.edgeOfQuad, k, -1)
         && r.peak == LookUp(f.peakOfEdge, r.edge, -1.0)
         && r.dist[0] == LookUp(f.distOfQuad, k, 0.0)
  }

  /** Two corners lie square across each end point, half a trace width away on either side. */
  ghost predicate Shape(r: Ribbon, q: Quad, sqrt: real -> real) {
    && |r.corners| == 4
    && r.half == Max(q.segment.widthMm, 0.05) / 2.0
    && Unit(r.normal) && Across(r.normal, q.a, q.b)
    && Beside(r.corners[0], q.a, r.normal, r.half) && Beside(r.corners[1], q.a, r.normal, -r.half)
    && Beside(r.corners[3], q.b, r.normal, r.half) && Beside(r.corners[2], q.b, r.normal, -r.half)
  }

  ghost predicate Unit(n: Point) {
    Square(n.x) + Square(n.y) == 1.0
  }

  ghost predicate Across(n: Point, a: Point, b: Point) {
    n.x * (b.x - a.x) + n.y * (b.y - a.y) == 0.0
  }

  ghost predicate Beside(corner: Point, p: Point, n: Point, h: real) {
    corner.x - p.x == n.x * h && corner.y - p.y == n.y * h
  }

  lemma NormalIsSquare(dx: real, dy: real, len: real, nx: real, ny: real)
    requires len != 0.0 && Square(len) == Square(dx) + Square(dy) && nx == -dy / len && ny == dx / len
    ensures Square(nx) + Square(ny) == 1.0 && nx * dx + ny * dy == 0.0
  {
    QuotientTimes(-dy, len);
    QuotientTimes(dx, len);
    UnitLength(dx, dy, len, nx, ny);
    NoOverlap(dx, dy, len, nx, ny);
  }

  lemma UnitLength(dx: real, dy: real, len: real, nx: real, ny: real)
    requires len != 0.0 && Square(len) == Square(dx) + Square(dy) && nx * len == -dy && ny * len == dx
    ensures Square(nx) + Square(ny) == 1.0
  {
    var u, l := Square(nx) + Square(ny), Square(len);
    assert Square(nx) * l == Square(dy) by {
      assert (nx * nx) * (len * len) == (nx * len) * (nx * len);
    }
    assert Square(ny) * l == Square(dx) by {
      assert (ny * ny) * (len * len) == (ny * len) * (ny * len);
    }
    assert u * l == Square(nx) * l + Square(ny) * l;
    SquareNotNegative(len);
    assert (u - 1.0) * l == 0.0;
  }

  lemma NoOverlap(dx: real, dy: real, len: real, nx: real, ny: real)
    requires nx * len == -dy && ny * len == dx
    ensures nx * dx + ny * dy == 0.0
  {
    assert nx * dx == nx * (ny * len);
    assert ny * dy == -(ny * (nx * len));
  }

  /** Ribbon of one point pair. */
  method Draw(a: Point, b: Point, len: real, seg: Segment, n: nat, k: nat, flow: Option<CopperFlow>,
              layerZ: string -> real,
              ghost nets: map<string, nat>, ghost net: string, sqrt: real -> real) returns (r: Ribbon)
    requires IsSqrt(sqrt) && len == Distance(a, b, sqrt) != 0.0 && net in nets && nets[net] == n
    ensures Drawn(r, Quad(net, seg, a, b), k, nets, flow, layerZ, sqrt)
  {
    var half := Max(seg.widthMm, 0.05) / 2.0;
    var nx, ny := -(b.y - a.y) / len, (b.x - a.x) / len;
    var e := if flow.Some? then LookUp(flow.value.edgeOfQuad, k, -1) else -1;
    var peak := if e >= 0 && flow.Some? then LookUp(flow.value.peakOfEdge, e, -1.0) else -1.0;
    var d0 := if flow.Some? then LookUp(flow.value.distOfQuad, k, 0.0) else 0.0;
    DistanceZero(a, b, sqrt);
    hide IsSqrt, Distance;
    NormalIsSquare(b.x - a.x, b.y - a.y, len, nx, ny);
    hide Square;
    r := Ribbon(n, e, peak, half, Point(nx, ny), layerZ(seg.layer),
                [Point(a.x + nx * half, a.y + ny * half), Point(a.x - nx * half, a.y - ny * half),
                 Point(b.x - nx * half, b.y - ny * half), Point(b.x + nx * half, b.y + ny * half)],
                [d0, d0, d0 + len, d0 + len]);
    assert nx * -half == -(nx * half) && ny * -half == -(ny * half);
  }

  /** Ribbon `k` draws quad `k`. */
  ghost predicate Mesh(ribbons: seq<Ribbon>, Q: seq<Quad>, nets: map<string, nat>, flow: Option<CopperFlow>,
                       layerZ: string -> real, sqrt: real -> real) {
    |ribbons| == |Q| && forall k :: 0 <= k < |Q| ==> Drawn(ribbons[k], Q[k], k, nets, flow, layerZ, sqrt)
  }

  /** The drawing walk, pair by pair. */
  method DrawSegment(net: string, seg: Segment, nets: map<string, nat>, flow: Option<CopperFlow>,
                     layerZ: string -> real, sqrt: real -> real,
                     ribbons0: seq<Ribbon>, quads0: nat, ghost Q0: seq<Quad>)
    returns (ribbons: seq<Ribbon>, quads: nat)
    requires IsSqrt(sqrt) && net in nets && quads0 == |Q0| && Mesh(ribbons0, Q0, nets, flow, layerZ, sqrt)
    ensures var Q := Q0 + SegmentQuads(net, seg, PairCount(seg), sqrt);
            quads == |Q| && Mesh(ribbons, Q, nets, flow, layerZ, sqrt)
  {
    hide Drawn, IsSqrt, Distance;
    ribbons, quads := ribbons0, quads0;
    ghost var Q := Q0;
    for i := 0 to PairCount(seg)
      invariant Q == Q0 + SegmentQuads(net, seg, i, sqrt)
      invariant quads == |Q| && Mesh(ribbons, Q, nets, flow, layerZ, sqrt)
    {
      var a, b := seg.points[i], seg.points[i + 1];
      var len := Distance(a, b, sqrt);
      if len == 0.0 {
        continue;
      }
      var r := Draw(a, b, len, seg, nets[net], quads, flow, layerZ, nets, net, sqrt);
      ribbons := ribbons + [r];
      Q := Q + [Quad(net, seg, a, b)];
      quads := quads + 1;
    }
  }

  method DrawTrace(trace: Trace, nets: map<string, nat>, flow: Option<CopperFlow>, layerZ: string -> real,
                   sqrt: real -> real,
                   ribbons0: seq<Ribbon>, quads0: nat, ghost Q0: seq<Quad>)
    returns (ribbons: seq<Ribbon>, quads: nat)
    requires IsSqrt(sqrt) && trace.net in nets && quads0 == |Q0| && Mesh(ribbons0, Q0, nets, flow, layerZ, sqrt)
    ensures var Q := Q0 + TraceQuads(trace, |trace.segments|, sqrt);
            quads == |Q| && Mesh(ribbons, Q, nets, flow, layerZ, sqrt)
  {
    hide Mesh, IsSqrt, SegmentQuads;
    ribbons, quads := ribbons0, quads0;
    ghost var Q := Q0;
    assert Q == Q0 + [];
    for s := 0 to |trace.segments|
      invariant Q == Q0 + TraceQuads(trace, s, sqrt)
      invariant quads == |Q| && Mesh(ribbons, Q, nets, flow, layerZ, sqrt)
    {
      var seg := trace.segments[s];
      ribbons, quads := DrawSegment(trace.net, seg, nets, flow, layerZ, sqrt, ribbons, quads, Q);
      Q := Q + SegmentQuads(trace.net, seg, PairCount(seg), sqrt);
    }
  }

  /** Ribbon `k` draws this piece of copper. */
  ghost predicate DrawnAt(traces: seq<Trace>, nets: map<string, nat>, p: Piece, r: Ribbon, k: nat,
                          flow: Option<CopperFlow>, layerZ: string -> real, sqrt: real -> real) {
    IsPiece(traces, nets, p) && Drawn(r, PieceQuad(traces, nets, p), k, nets, flow, layerZ, sqrt)
  }

  lemma NothingDrawn(nets: map<string, nat>, flow: Option<CopperFlow>, layerZ: string -> real, sqrt: real -> real)
    ensures Mesh([], [], nets, flow, layerZ, sqrt)
  {
  }

  /** The whole mesh: ribbon `k` draws quad `k` of the enumeration the solving walk follows. */
  method BuildCopperMesh(traces: seq<Trace>, nets: map<string, nat>, flow: Option<CopperFlow>, layerZ: string -> real,
                         sqrt: real -> real)
    returns (ribbons: seq<Ribbon>, quads: nat, ghost pieces: seq<Piece>)
    requires IsSqrt(sqrt)
    ensures Copper(traces, nets, pieces) && quads == |ribbons| == |pieces|
    ensures forall k :: 0 <= k < |pieces| ==> DrawnAt(traces, nets, pieces[k], ribbons[k], k, flow, layerZ, sqrt)
    ensures var Q := BoardQuads(traces, |traces|, nets, sqrt);
            QuadsOf(traces, nets, pieces, Q) && Mesh(ribbons, Q, nets, flow, layerZ, sqrt)
  {
    pieces := QuadsAreCopper(traces, nets, sqrt);
    hide Copper, Drawn;
    ribbons, quads := [], 0;
    NothingDrawn(nets, flow, layerZ, sqrt);
    hide Mesh, IsSqrt, BoardQuads;
    ghost var Q: seq<Quad> := [];
    NoTraceYet(traces, nets, sqrt);
    for t := 0 to |traces|
      invariant Q == BoardQuads(traces, t, nets, sqrt)
      invariant quads == |Q| && Mesh(ribbons, Q, nets, flow, layerZ, sqrt)
    {
      var trace := traces[t];
      OneMoreTrace(traces, t, t + 1, nets, sqrt);
      if trace.net == "" {
        continue;
      }
      if trace.net !in nets {
        continue;
      }
      ribbons, quads := DrawTrace(trace, nets, flow, layerZ, sqrt, ribbons, quads, Q);
      Q := Q + TraceQuads(trace, |trace.segments|, sqrt);
    }
    PiecesDrawn(traces, nets, pieces, ribbons, Q, flow, layerZ, sqrt);
  }

  lemma PiecesDrawn(traces: seq<Trace>, nets: map<string, nat>, pieces: seq<Piece>, ribbons: seq<Ribbon>, Q: seq<Quad>,
                    flow: Option<CopperFlow>, layerZ: string -> real, sqrt: real -> real)
    requires QuadsOf(traces, nets, pieces, Q) && Mesh(ribbons, Q, nets, flow, layerZ, sqrt)
    ensures |ribbons| == |pieces|
    ensures forall k :: 0 <= k < |pieces| ==> DrawnAt(traces, nets, pieces[k], ribbons[k], k, flow, layerZ, sqrt)
  {
    hide Drawn;
  }
}
