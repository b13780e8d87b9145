/** Parts, rotations and courtyard boxes of the placer, and what makes a layout legal.  Coordinates are real. */
module Courtyards {
  import opened Reals
  import opened Spatial

  /** A net by number; nets are only ever compared, and `NO_NET` is the empty name of an unconnected pad. */
  type Net = nat

  const NO_NET: Net := 0

  datatype Pad = Pad(x: real, y: real, net: Net)

  datatype Role = Ordinary | Connector

  datatype Part = Part(id: string, w: real, h: real, pads: seq<Pad>, role: Role)

  /** Input the placer lets through: no part has a negative side. */
  ghost predicate ValidParts(parts: seq<Part>) {
    forall i :: 0 <= i < |parts| ==> parts[i].w >= 0.0 && parts[i].h >= 0.0
  }

  datatype Board = Board(w: real, h: real, grid: real, margin: real, spacing: real)

  /** Options after the placer's defaults: a positive grid and a spacing clamped to at least zero. */
  ghost predicate ValidBoard(b: Board) {
    b.grid > 0.0 && b.spacing >= 0.0
  }

  function IdAt(parts: seq<Part>, i: nat): string {
    if i < |parts| then parts[i].id else ""
  }

  function Rot(r: int, x: real, y: real): (real, real) {
    match r
    case 90 => (-y, x)
    case 180 => (-x, -y)
    case 270 => (y, -x)
    case _ => (x, y)
  }

  function HalfExtents(p: Part, r: int): (real, real) {
    if r == 90 || r == 270 then (p.h / 2.0, p.w / 2.0) else (p.w / 2.0, p.h / 2.0)
  }

  /** Nearest integer, halves away from zero. */
  function Round(v: real): int {
    if v >= 0.0 then (v + 0.5).Floor else -((-v + 0.5).Floor)
  }

  function Snap(v: real, g: real): real
    requires g > 0.0
  {
    Round(v / g) as real * g
  }

  function ClampReal(v: real, lo: real, hi: real): real {
    if v < lo then lo else if v > hi then hi else v
  }

  /** A courtyard: centre and half sides. */
  datatype Box = Box(x: real, y: real, hw: real, hh: real)

  function BoxAt(p: Part, r: int, x: real, y: real): Box {
    var (hw, hh) := HalfExtents(p, r);
    Box(x, y, hw, hh)
  }

  function Inflated(b: Box, pad: real): Rect {
    Rect(b.x - b.hw - pad, b.x + b.hw + pad, b.y - b.hh - pad, b.y + b.hh + pad)
  }

  const EPS: real := 0.000000001

  predicate Overlaps(spacing: real, a: Box, b: Box) {
    Abs(b.x - a.x) < a.hw + b.hw + spacing - EPS && Abs(b.y - a.y) < a.hh + b.hh + spacing - EPS
  }

  /** Two courtyards keep their spacing on some axis, to within this slack. */
  predicate Apart(p: Box, q: Box, spacing: real, slack: real) {
    Abs(q.x - p.x) >= p.hw + q.hw + spacing - slack || Abs(q.y - p.y) >= p.hh + q.hh + spacing - slack
  }

  lemma OverlapsSymmetric(spacing: real, a: Box, b: Box)
    ensures Overlaps(spacing, a, b) <==> Overlaps(spacing, b, a)
  {
  }

  /** Courtyards that overlap have meeting rectangles once each is inflated by half the spacing. */
  lemma OverlapMeansMeet(spacing: real, a: Box, b: Box)
    requires spacing >= 0.0 && a.hw >= 0.0 && a.hh >= 0.0 && b.hw >= 0.0 && b.hh >= 0.0
    ensures Proper(Inflated(a, spacing / 2.0)) && Proper(Inflated(b, spacing / 2.0))
    ensures Overlaps(spacing, a, b) ==> Meet(Inflated(a, spacing / 2.0), Inflated(b, spacing / 2.0))
  {
  }

  function Times(k: int, g: real): real {
    k as real * g
  }

  ghost predicate OnGrid(v: real, g: real) {
    exists k: int :: v == Times(k, g)
  }

  lemma SnapOnGrid(v: real, g: real)
    requires g > 0.0
    ensures OnGrid(Snap(v, g), g)
  {
    assert Snap(v, g) == Times(Round(v / g), g);
  }

  /** Snapping goes to the nearest grid line. */
  lemma SnapIsNearest(v: real, g: real, u: real)
    requires g > 0.0 && OnGrid(u, g)
    ensures Abs(Snap(v, g) - v) <= Abs(u - v)
  {
    var k: int :| u == Times(k, g);
    var n := Round(v / g);
    RoundIsNearest(v / g, n);
    QuotientTimes(v, g);
    var a, c := n as real - v / g, k as real - v / g;
    assert g * a == Snap(v, g) - v && g * c == u - v;
    if n != k {
      ScalePositive(g, c - a);
      ScalePositive(g, c + a);
      assert g * (c - a) == g * c - g * a && g * (c + a) == g * c + g * a;
    }
  }

  lemma GridPlus(u: real, v: real, g: real)
    requires OnGrid(u, g) && OnGrid(v, g)
    ensures OnGrid(u + v, g)
  {
    var j: int :| u == Times(j, g);
    var k: int :| v == Times(k, g);
    assert u + v == Times(j + k, g);
  }

  lemma GridTimes(u: real, n: int, g: real)
    requires OnGrid(u, g)
    ensures OnGrid(n as real * u, g)
  {
    var k: int :| u == Times(k, g);
    assert n as real * u == (n * k) as real * g;
    assert n as real * u == Times(n * k, g);
  }

  lemma GridNegated(u: real, g: real)
    requires OnGrid(u, g)
    ensures OnGrid(-u, g)
  {
    GridTimes(u, -1, g);
  }

  /** The furthest grid line a courtyard of half side `half` may centre on. */
  function Reach(side: real, margin: real, half: real, g: real): real
    requires g > 0.0
  {
    ((side / 2.0 - margin - half) / g).Floor as real * g
  }

  lemma ReachFits(side: real, margin: real, half: real, g: real)
    requires g > 0.0
    ensures Reach(side, margin, half, g) <= side / 2.0 - margin - half
    ensures OnGrid(Reach(side, margin, half, g), g)
  {
    var room := side / 2.0 - margin - half;
    assert Reach(side, margin, half, g) == Times((room / g).Floor, g);
    assert (room / g).Floor as real <= room / g;
    assert room / g * g == room;
  }

  /** No grid line beyond the reach leaves room for the courtyard. */
  lemma ReachIsFurthest(side: real, margin: real, half: real, g: real, v: real)
    requires g > 0.0 && OnGrid(v, g) && v <= side / 2.0 - margin - half
    ensures v <= Reach(side, margin, half, g)
  {
    var room := side / 2.0 - margin - half;
    var k: int :| v == Times(k, g);
    QuotientTimes(room, g);
    ScalePositive(g, room / g - k as real);
    assert g * (room / g - k as real) == room - v;
    ScalePositive(g, ((room / g).Floor - k) as real);
    assert g * ((room / g).Floor - k) as real == Reach(side, margin, half, g) - v;
  }

  /** Rounding goes to the nearest integer, and away from zero when two are nearest. */
  lemma RoundIsNearest(v: real, n: int)
    ensures Round(v) == n <==>
            if v >= 0.0 then n as real - 0.5 <= v < n as real + 0.5 else n as real - 0.5 < v <= n as real + 0.5
  {
  }

  /** The courtyard lies inside the board's margin. */
  ghost predicate Inside(b: Box, board: Board) {
    && Abs(b.x) + b.hw <= board.w / 2.0 - board.margin
    && Abs(b.y) + b.hh <= board.h / 2.0 - board.margin
  }

  ghost predicate WellPlaced(b: Box, board: Board) {
    Inside(b, board) && OnGrid(b.x, board.grid) && OnGrid(b.y, board.grid)
  }

  /** No two courtyards overlap, and each is on the grid inside the margin. */
  ghost predicate Legal(boxes: seq<Box>, board: Board) {
    && (forall i, j :: 0 <= i < j < |boxes| ==> !Overlaps(board.spacing, boxes[i], boxes[j]))
    && (forall i :: 0 <= i < |boxes| ==> WellPlaced(boxes[i], board))
  }

  /** A layout: one position and rotation per part. */
  class State {
    const x: array<real>
    const y: array<real>
    const r: array<int>

    ghost predicate Valid(n: nat) {
      x.Length == y.Length == r.Length == n && x != y
    }

    function BoxOf(p: Part, i: nat): Box
      requires i < x.Length && i < y.Length && i < r.Length
      reads x, y, r
    {
      BoxAt(p, r[i], x[i], y[i])
    }

    ghost function Boxes(parts: seq<Part>): (bs: seq<Box>)
      requires Valid(|parts|)
      reads x, y, r
      ensures |bs| == |parts| && forall i :: 0 <= i < |parts| ==> bs[i] == BoxOf(parts[i], i)
    {
      seq(|parts|, i requires 0 <= i < |parts| reads x, y, r => BoxOf(parts[i], i))
    }

    constructor (n: nat)
      ensures Valid(n) && fresh(x) && fresh(y) && fresh(r)
    {
      x := new real[n](_ => 0.0);
      y := new real[n](_ => 0.0);
      r := new int[n](_ => 0);
    }
  }

  /** Positions and rotations of all parts. */
  datatype Layout = Layout(x: seq<real>, y: seq<real>, r: seq<int>)

  ghost predicate Sized(parts: seq<Part>, l: Layout) {
    |l.x| == |l.y| == |l.r| == |parts|
  }

  ghost function BoxesOf(parts: seq<Part>, l: Layout): (bs: seq<Box>)
    requires Sized(parts, l)
    ensures |bs| == |parts| && forall i :: 0 <= i < |parts| ==> bs[i] == BoxAt(parts[i], l.r[i], l.x[i], l.y[i])
  {
    seq(|parts|, i requires 0 <= i < |parts| => BoxAt(parts[i], l.r[i], l.x[i], l.y[i]))
  }

  function LayoutOf(st: State): Layout
    reads st.x, st.y, st.r
  {
    Layout(st.x[..], st.y[..], st.r[..])
  }

  /** The grid holds every part at its inflated rectangle. */
  ghost predicate Holds(entries: seq<Entry>, boxes: seq<Box>, spacing: real) {
    && (forall j :: 0 <= j < |boxes| ==>
         boxes[j].hw >= 0.0 && boxes[j].hh >= 0.0 && (j, Inflated(boxes[j], spacing / 2.0)) in entries)
    && (forall k :: 0 <= k < |entries| ==> entries[k].0 < |boxes|)
  }

  /** Enter every courtyard into the grid and the table. */
  method Fill(parts: seq<Part>, st: State, spacing: real, grid: Grid) returns (boxes: array<Box>)
    requires ValidParts(parts) && st.Valid(|parts|) && grid.Valid() && grid.entries == []
    modifies grid, grid.buckets
    ensures fresh(boxes) && grid.Valid() && boxes[..] == st.Boxes(parts) && Holds(grid.entries, boxes[..], spacing)
  {
    boxes := new Box[|parts|](_ => Box(0.0, 0.0, 0.0, 0.0));
    for i := 0 to |parts|
      invariant grid.Valid()
      invariant forall j :: 0 <= j < i ==> boxes[j] == st.BoxOf(parts[j], j)
      invariant forall j :: 0 <= j < i ==> boxes[j].hw >= 0.0 && boxes[j].hh >= 0.0
      invariant forall j :: 0 <= j < i ==> (j, Inflated(boxes[j], spacing / 2.0)) in grid.entries
      invariant forall k :: 0 <= k < |grid.entries| ==> grid.entries[k].0 < |parts|
    {
      var box := st.BoxOf(parts[i], i);
      grid.Insert(i, Inflated(box, spacing / 2.0));
      boxes[i] := box;
    }
  }
}
