/** The spiral legalizer: parts by descending area, each onto the first legal grid cell of a ring walk around its
    target.  Legality is tested against grid neighbours only.  */
module Legalizer {
  import opened Reals
  import opened Spatial
  import opened Courtyards
  import opened Turns
  import opened Sorting

  // ------------------------------------------------------------------------------------------------------
  // The ring walk
  // ------------------------------------------------------------------------------------------------------

  function RingSize(ring: nat): nat {
    if ring == 0 then 1 else 8 * ring
  }

  /** The `k`-th cell of the walk: top row, right column, bottom row, left column. */
  function RingCell(ring: nat, k: nat): (int, int) {
    if ring == 0 then (0, 0)
    else if k < 2 * ring + 1 then (k - ring, 0 - ring)
    else if k < 4 * ring + 1 then (ring, k - 3 * ring)
    else if k < 6 * ring + 1 then (5 * ring - k, ring)
    else (0 - ring, 7 * ring - k)
  }

  /** When the walk reaches cell (gx, gy) of its ring. */
  function RingIndex(ring: nat, gx: int, gy: int): int {
    if ring == 0 then 0
    else if gy == 0 - ring then gx + ring
    else if gx == ring then gy + 3 * ring
    else if gy == ring then 5 * ring - gx
    else 7 * ring - gy
  }

  ghost predicate OnRing(ring: nat, gx: int, gy: int) {
    && 0 - ring <= gx <= ring && 0 - ring <= gy <= ring
    && (gx == ring || gx == 0 - ring || gy == ring || gy == 0 - ring)
  }

  /** The walk visits every cell of the square ring, each exactly once. */
  lemma RingWalkIsPerimeter(ring: nat, gx: int, gy: int)
    ensures OnRing(ring, gx, gy) <==> exists k :: 0 <= k < RingSize(ring) && RingCell(ring, k) == (gx, gy)
    ensures forall k, l ::
              0 <= k < RingSize(ring) && 0 <= l < RingSize(ring) && RingCell(ring, k) == RingCell(ring, l) ==> k == l
  {
    if OnRing(ring, gx, gy) {
      var k := RingIndex(ring, gx, gy);
      assert 0 <= k < RingSize(ring) && RingCell(ring, k) == (gx, gy);
    }
    forall k, l | 0 <= k < RingSize(ring) && 0 <= l < RingSize(ring) && RingCell(ring, k) == RingCell(ring, l)
      ensures k == l
    {
      RingIndexInverts(ring, k);
      RingIndexInverts(ring, l);
    }
  }

  lemma RingIndexInverts(ring: nat, k: nat)
    requires k < RingSize(ring)
    ensures OnRing(ring, RingCell(ring, k).0, RingCell(ring, k).1)
    ensures RingIndex(ring, RingCell(ring, k).0, RingCell(ring, k).1) == k
  {
  }

  // ------------------------------------------------------------------------------------------------------
  // What the search looks for
  // ------------------------------------------------------------------------------------------------------

  /** Where one part wants to go, how far it may, and its half sides. */
  datatype Target = Target(cx: real, cy: real, maxX: real, maxY: real, hw: real, hh: real)

  function TargetOf(p: Part, r: int, x: real, y: real, b: Board): Target
    requires b.grid > 0.0
  {
    var (hw, hh) := HalfExtents(p, r);
    var maxX := Reach(b.w, b.margin, hw, b.grid);
    var maxY := Reach(b.h, b.margin, hh, b.grid);
    Target(ClampReal(Snap(x, b.grid), -maxX, maxX), ClampReal(Snap(y, b.grid), -maxY, maxY), maxX, maxY, hw, hh)
  }

  /** Position (x, y) is in reach and clear of every placed courtyard. */
  ghost predicate Fits(t: Target, spacing: real, others: seq<Box>, x: real, y: real) {
    && InReach(t, x, y)
    && forall l :: 0 <= l < |others| ==> !Overlaps(spacing, Box(x, y, t.hw, t.hh), others[l])
  }

  predicate InReach(t: Target, x: real, y: real) {
    -t.maxX <= x <= t.maxX && -t.maxY <= y <= t.maxY
  }

  function CellX(t: Target, step: real, gx: int): real {
    t.cx + gx as real * step
  }

  function CellY(t: Target, step: real, gy: int): real {
    t.cy + gy as real * step
  }

  ghost predicate CellFits(t: Target, spacing: real, others: seq<Box>, step: real, ring: nat, k: nat) {
    var (gx, gy) := RingCell(ring, k);
    Fits(t, spacing, others, CellX(t, step, gx), CellY(t, step, gy))
  }

  ghost predicate NoneOnRing(t: Target, spacing: real, others: seq<Box>, step: real, ring: nat, upTo: nat) {
    forall k :: 0 <= k < upTo ==> !CellFits(t, spacing, others, step, ring, k)
  }

  ghost predicate NoneOnRings(t: Target, spacing: real, others: seq<Box>, step: real, lo: int, hi: int) {
    forall ring: nat :: lo <= ring < hi ==> NoneOnRing(t, spacing, others, step, ring, RingSize(ring))
  }

  /** (x, y) is the first fitting cell of the walk that starts on ring `lo`, and lies on `ring`. */
  ghost predicate FirstFrom(t: Target, spacing: real, others: seq<Box>, step: real, lo: int, ring: nat, k: nat,
                            x: real, y: real) {
    && k < RingSize(ring)
    && NoneOnRings(t, spacing, others, step, lo, ring)
    && NoneOnRing(t, spacing, others, step, ring, k)
    && CellFits(t, spacing, others, step, ring, k)
    && x == CellX(t, step, RingCell(ring, k).0) && y == CellY(t, step, RingCell(ring, k).1)
  }

  ghost predicate FirstHit(t: Target, spacing: real, others: seq<Box>, step: real, lo: int, hi: int, x: real, y: real) {
    exists ring: nat, k: nat :: lo <= ring <= hi && FirstFrom(t, spacing, others, step, lo, ring, k, x, y)
  }

  function CoarseStep(b: Board): real
    requires b.grid > 0.0
  {
    var s := Snap(b.spacing, b.grid);
    if s > b.grid then s else b.grid
  }

  function FineRadius(b: Board): real
    requires b.grid > 0.0
  {
    Max(3.0 * CoarseStep(b), 3.0 * b.grid)
  }

  function FineRings(b: Board): int
    requires b.grid > 0.0
  {
    Ceil(FineRadius(b) / b.grid)
  }

  function CoarseStart(b: Board): int
    requires b.grid > 0.0
  {
    (FineRadius(b) / CoarseStep(b)).Floor + 1
  }

  function MaxRing(b: Board): int
    requires b.grid > 0.0
  {
    Ceil(Max(b.w, b.h) / CoarseStep(b))
  }

  /** (x, y) is where the spiral search stops: the first fine cell that fits, or else the first coarse one. */
  ghost predicate FirstSpot(t: Target, b: Board, others: seq<Box>, x: real, y: real)
    requires b.grid > 0.0
  {
    || FirstHit(t, b.spacing, others, b.grid, 0, FineRings(b), x, y)
    || (NoneOnRings(t, b.spacing, others, b.grid, 0, FineRings(b) + 1)
        && FirstHit(t, b.spacing, others, CoarseStep(b), CoarseStart(b), MaxRing(b), x, y))
  }

  ghost predicate NoSpot(t: Target, b: Board, others: seq<Box>)
    requires b.grid > 0.0
  {
    && NoneOnRings(t, b.spacing, others, b.grid, 0, FineRings(b) + 1)
    && NoneOnRings(t, b.spacing, others, CoarseStep(b), CoarseStart(b), MaxRing(b) + 1)
  }

  // ------------------------------------------------------------------------------------------------------
  // Placed courtyards and the grid that indexes them
  // ------------------------------------------------------------------------------------------------------

  ghost predicate Indexed(entries: seq<Entry>, j: nat, box: Box, spacing: real) {
    (j, Inflated(box, spacing / 2.0)) in entries
  }

  /** The placed flags and boxes list `others` in some order, and the grid holds each at its inflated rectangle. */
  ghost predicate Tracks(grid: Grid, placed: seq<bool>, boxes: seq<Box>, spacing: real, others: seq<Box>)
    reads grid
  {
    && |placed| == |boxes|
    && (forall j :: 0 <= j < |placed| && placed[j] ==>
         boxes[j] in others && boxes[j].hw >= 0.0 && boxes[j].hh >= 0.0 && Indexed(grid.entries, j, boxes[j], spacing))
    && (forall b :: b in others ==> exists j :: 0 <= j < |placed| && placed[j] && boxes[j] == b)
    && (forall k :: 0 <= k < |grid.entries| ==> grid.entries[k].0 < |placed|)
  }

  /** Try one position: grid neighbours are enough to decide legality. */
  method Visit(x: real, y: real, t: Target, b: Board, grid: Grid, placed: array<bool>, boxes: array<Box>,
               ghost others: seq<Box>)
    returns (ok: bool)
    requires ValidBoard(b) && t.hw >= 0.0 && t.hh >= 0.0
    requires grid.Valid() && Tracks(grid, placed[..], boxes[..], b.spacing, others)
    ensures ok <==> Fits(t, b.spacing, others, x, y)
  {
    if !InReach(t, x, y) {
      return false;
    }
    var me := Box(x, y, t.hw, t.hh);
    var raw := grid.Neighbors(Inflated(me, b.spacing / 2.0), []);
    var neigh := SortDedup(raw);
    for n := 0 to |neigh|
      invariant forall m :: 0 <= m < n && neigh[m] < placed.Length && placed[neigh[m]] ==>
        !Overlaps(b.spacing, me, boxes[neigh[m]])
    {
      var j := neigh[n];
      assert j in raw[0..];
      if placed[j] {
        if Overlaps(b.spacing, me, boxes[j]) {
          assert boxes[..][j] in others;
          return false;
        }
      }
    }
    forall l | 0 <= l < |others|
      ensures !Overlaps(b.spacing, me, others[l])
    {
      NeighborsSuffice(x, y, t, b, grid, placed[..], boxes[..], others, raw, l);
    }
    return true;
  }

  /** A placed courtyard that overlaps the tried one is always among the grid neighbours. */
  lemma NeighborsSuffice(x: real, y: real, t: Target, b: Board, grid: Grid, placed: seq<bool>, boxes: seq<Box>,
                         others: seq<Box>, raw: seq<nat>, l: nat)
    requires ValidBoard(b) && t.hw >= 0.0 && t.hh >= 0.0 && l < |others|
    requires Tracks(grid, placed, boxes, b.spacing, others)
    requires var q := Inflated(Box(x, y, t.hw, t.hh), b.spacing / 2.0);
             forall k ::
               0 <= k < |grid.entries| && Proper(grid.entries[k].1) && Proper(q) && Meet(grid.entries[k].1, q) ==>
               grid.entries[k].0 in raw
    requires forall j :: j in raw && j < |placed| && placed[j] ==> !Overlaps(b.spacing, Box(x, y, t.hw, t.hh), boxes[j])
    ensures !Overlaps(b.spacing, Box(x, y, t.hw, t.hh), others[l])
  {
    var me := Box(x, y, t.hw, t.hh);
    assert others[l] in others;
    var j :| 0 <= j < |placed| && placed[j] && boxes[j] == others[l];
    assert Indexed(grid.entries, j, boxes[j], b.spacing);
    var k :| 0 <= k < |grid.entries| && grid.entries[k] == (j, Inflated(boxes[j], b.spacing / 2.0));
    OverlapsSymmetric(b.spacing, me, boxes[j]);
    OverlapMeansMeet(b.spacing, boxes[j], me);
  }

  // ------------------------------------------------------------------------------------------------------
  // The search
  // ------------------------------------------------------------------------------------------------------

  /** What a search has found so far: nothing, or a position that fits. */
  datatype Spot = Missing | Hit(x: real, y: real)

  /** After `k` cells of a ring: the last one is the hit, or none of them fits. */
  ghost predicate RingProgress(t: Target, spacing: real, others: seq<Box>, step: real, ring: nat, k: nat, spot: Spot) {
    match spot
    case Missing => NoneOnRing(t, spacing, others, step, ring, k)
    case Hit(x, y) =>
      && 0 < k <= RingSize(ring)
      && NoneOnRing(t, spacing, others, step, ring, k - 1)
      && CellFits(t, spacing, others, step, ring, k - 1)
      && x == CellX(t, step, RingCell(ring, k - 1).0) && y == CellY(t, step, RingCell(ring, k - 1).1)
  }

  method TryCell(gx: int, gy: int, step: real, t: Target, b: Board, grid: Grid, placed: array<bool>, boxes: array<Box>,
                 ghost others: seq<Box>, ghost ring: nat, ghost k: nat) returns (spot: Spot)
    requires ValidBoard(b) && t.hw >= 0.0 && t.hh >= 0.0
    requires grid.Valid() && Tracks(grid, placed[..], boxes[..], b.spacing, others)
    requires k < RingSize(ring) && RingCell(ring, k) == (gx, gy)
    requires RingProgress(t, b.spacing, others, step, ring, k, Missing)
    ensures RingProgress(t, b.spacing, others, step, ring, k + 1, spot)
  {
    var x, y := CellX(t, step, gx), CellY(t, step, gy);
    var ok := Visit(x, y, t, b, grid, placed, boxes, others);
    spot := if ok then Hit(x, y) else Missing;
  }

  /** Walk one ring until a cell fits. */
  method WalkRing(ring: nat, step: real, t: Target, b: Board, grid: Grid, placed: array<bool>, boxes: array<Box>,
                  ghost others: seq<Box>) returns (spot: Spot, ghost k: nat)
    requires ValidBoard(b) && t.hw >= 0.0 && t.hh >= 0.0
    requires grid.Valid() && Tracks(grid, placed[..], boxes[..], b.spacing, others)
    ensures RingProgress(t, b.spacing, others, step, ring, k, spot)
    ensures spot.Missing? ==> k == RingSize(ring) && NoneOnRing(t, b.spacing, others, step, ring, RingSize(ring))
  {
    hide Tracks, CellFits;
    spot, k := Missing, 0;
    if ring == 0 {
      spot := TryCell(0, 0, step, t, b, grid, placed, boxes, others, ring, 0);
      k := 1;
      return;
    }
    var gx := 0 - ring;
    while gx <= ring && spot.Missing?
      invariant 0 - ring <= gx <= ring + 1 && k == gx + ring
      invariant RingProgress(t, b.spacing, others, step, ring, k, spot)
    {
      spot := TryCell(gx, 0 - ring, step, t, b, grid, placed, boxes, others, ring, k);
      gx, k := gx + 1, k + 1;
    }
    var gy := 0 - ring + 1;
    while gy <= ring && spot.Missing?
      invariant 0 - ring + 1 <= gy <= ring + 1
      invariant spot.Missing? ==> k == gy + 3 * ring
      invariant RingProgress(t, b.spacing, others, step, ring, k, spot)
    {
      spot := TryCell(ring, gy, step, t, b, grid, placed, boxes, others, ring, k);
      gy, k := gy + 1, k + 1;
    }
    gx := ring - 1;
    while gx >= 0 - ring && spot.Missing?
      invariant 0 - ring - 1 <= gx <= ring - 1
      invariant spot.Missing? ==> k == 5 * ring - gx
      invariant RingProgress(t, b.spacing, others, step, ring, k, spot)
    {
      spot := TryCell(gx, ring, step, t, b, grid, placed, boxes, others, ring, k);
      gx, k := gx - 1, k + 1;
    }
    gy := ring - 1;
    while gy >= 0 - ring + 1 && spot.Missing?
      invariant 0 - ring <= gy <= ring - 1
      invariant spot.Missing? ==> k == 7 * ring - gy
      invariant RingProgress(t, b.spacing, others, step, ring, k, spot)
    {
      spot := TryCell(0 - ring, gy, step, t, b, grid, placed, boxes, others, ring, k);
      gy, k := gy - 1, k + 1;
    }
  }

  /** Walk rings `lo` to `hi` until a cell fits. */
  method WalkRings(lo: nat, hi: int, step: real, t: Target, b: Board, grid: Grid, placed: array<bool>,
                   boxes: array<Box>,
                   ghost others: seq<Box>) returns (spot: Spot)
    requires ValidBoard(b) && t.hw >= 0.0 && t.hh >= 0.0
    requires grid.Valid() && Tracks(grid, placed[..], boxes[..], b.spacing, others)
    ensures match spot
            case Missing => NoneOnRings(t, b.spacing, others, step, lo, hi + 1)
            case Hit(x, y) => FirstHit(t, b.spacing, others, step, lo, hi, x, y)
  {
    hide Tracks, CellFits;
    spot := Missing;
    var ring := lo;
    while ring <= hi && spot.Missing?
      invariant lo <= ring
      invariant match spot
                case Missing => NoneOnRings(t, b.spacing, others, step, lo, ring) && (ring <= hi + 1 || ring == lo)
                case Hit(x, y) => FirstHit(t, b.spacing, others, step, lo, hi, x, y)
    {
      ghost var k;
      spot, k := WalkRing(ring, step, t, b, grid, placed, boxes, others);
      if spot.Hit? {
        assert FirstFrom(t, b.spacing, others, step, lo, ring, k - 1, spot.x, spot.y);
      }
      ring := ring + 1;
    }
  }

  method FindSpot(t: Target, b: Board, grid: Grid, placed: array<bool>, boxes: array<Box>, ghost others: seq<Box>)
    returns (spot: Spot)
    requires ValidBoard(b) && t.hw >= 0.0 && t.hh >= 0.0
    requires grid.Valid() && Tracks(grid, placed[..], boxes[..], b.spacing, others)
    ensures match spot
            case Missing => NoSpot(t, b, others)
            case Hit(x, y) => FirstSpot(t, b, others, x, y)
  {
    hide Tracks, NoneOnRings, FirstHit;
    spot := WalkRings(0, FineRings(b), b.grid, t, b, grid, placed, boxes, others);
    if spot.Missing? {
      CoarseStartPositive(b);
      spot := WalkRings(CoarseStart(b), MaxRing(b), CoarseStep(b), t, b, grid, placed, boxes, others);
    }
  }

  /** The coarse step is the grid multiple nearest to the spacing, at least one grid cell. */
  lemma CoarseStepIsNearest(b: Board, u: real)
    requires ValidBoard(b) && OnGrid(u, b.grid) && u >= b.grid
    ensures CoarseStep(b) >= b.grid && OnGrid(CoarseStep(b), b.grid)
    ensures Abs(CoarseStep(b) - b.spacing) <= Abs(u - b.spacing)
  {
    StepsOnGrid(b);
    SnapIsNearest(b.spacing, b.grid, u);
    SnapIsNearest(b.spacing, b.grid, b.grid);
  }

  /** Fine rings are the fewest that reach three coarse steps out; coarse rings go on from the fourth, and are the
      fewest that reach across the board's longer side. */
  lemma RingsReach(b: Board)
    requires ValidBoard(b)
    ensures CoarseStart(b) == 4
    ensures (FineRings(b) - 1) as real * b.grid < 3.0 * CoarseStep(b) <= FineRings(b) as real * b.grid
    ensures (MaxRing(b) - 1) as real * CoarseStep(b) < Max(b.w, b.h) <= MaxRing(b) as real * CoarseStep(b)
  {
    var c := CoarseStep(b);
    assert FineRadius(b) == 3.0 * c;
    assert FineRadius(b) / c == 3.0;
    CeilReaches(FineRadius(b), b.grid);
    CeilReaches(Max(b.w, b.h), c);
  }

  lemma CeilReaches(v: real, g: real)
    requires g > 0.0
    ensures var n := Ceil(v / g); (n - 1) as real * g < v <= n as real * g
  {
    var n := Ceil(v / g);
    QuotientTimes(v, g);
    ScalePositive(g, n as real - v / g);
    assert g * (n as real - v / g) == n as real * g - v;
    ScalePositive(g, v / g - (n - 1) as real);
    assert g * (v / g - (n - 1) as real) == v - (n - 1) as real * g;
  }

  /** Between neighbouring cells the walk moves one step right along the top, down the right side, back along the bottom
      and up the left, from the corner with the smallest coordinates. */
  lemma WalkGoesRound(t: Target, step: real, ring: nat, k: nat)
    requires 0 < ring && 0 < k < RingSize(ring)
    ensures var (gx, gy) := RingCell(ring, 0);
            CellX(t, step, gx) == t.cx - ring as real * step && CellY(t, step, gy) == t.cy - ring as real * step
    ensures var (ox, oy) := RingCell(ring, k - 1);
            var (gx, gy) := RingCell(ring, k);
            var dx, dy := CellX(t, step, gx) - CellX(t, step, ox), CellY(t, step, gy) - CellY(t, step, oy);
            if k <= 2 * ring then dx == step && dy == 0.0
            else if k <= 4 * ring then dx == 0.0 && dy == step
            else if k <= 6 * ring then dx == -step && dy == 0.0
            else dx == 0.0 && dy == -step
  {
    var (ox, oy) := RingCell(ring, k - 1);
    var (gx, gy) := RingCell(ring, k);
    RingGoesRound(ring, k);
    Corner(t, step, ring);
    hide RingCell, RingSize, CellX, CellY;
    OneStepOn(t, step, gx, ox);
    OneStepOn(t, step, gy, oy);
  }

  lemma Corner(t: Target, step: real, ring: nat)
    ensures CellX(t, step, 0 - ring) == t.cx - ring as real * step
    ensures CellY(t, step, 0 - ring) == t.cy - ring as real * step
  {
    assert (0 - ring) as real * step == -(ring as real * step);
  }

  lemma RingGoesRound(ring: nat, k: nat)
    requires 0 < ring && 0 < k < RingSize(ring)
    ensures RingCell(ring, 0) == (0 - ring, 0 - ring)
    ensures var (ox, oy) := RingCell(ring, k - 1);
            RingCell(ring, k) == if k <= 2 * ring then (ox + 1, oy) else if k <= 4 * ring then (ox, oy + 1)
                                 else if k <= 6 * ring then (ox - 1, oy) else (ox, oy - 1)
  {
  }

  lemma OneStepOn(t: Target, step: real, n: int, m: int)
    requires m - 1 <= n <= m + 1
    ensures CellX(t, step, n) - CellX(t, step, m) == if n > m then step else if n < m then -step else 0.0
    ensures CellY(t, step, n) - CellY(t, step, m) == if n > m then step else if n < m then -step else 0.0
  {
    assert n as real * step - m as real * step == (n - m) as real * step;
  }

  /** Nor did it miss a coarse cell beyond, anywhere on the board. */
  lemma NoSpotMeansNoCoarseCell(p: Part, r: int, x: real, y: real, b: Board, others: seq<Box>, gx: int, gy: int)
    requires ValidBoard(b) && b.margin >= 0.0 && p.w >= 0.0 && p.h >= 0.0
    requires var t := TargetOf(p, r, x, y, b); t.maxX >= 0.0 && t.maxY >= 0.0 && NoSpot(t, b, others)
    requires gx <= -CoarseStart(b) || gx >= CoarseStart(b) || gy <= -CoarseStart(b) || gy >= CoarseStart(b)
    ensures var t := TargetOf(p, r, x, y, b);
            !Fits(t, b.spacing, others, CellX(t, CoarseStep(b), gx), CellY(t, CoarseStep(b), gy))
  {
    hide TargetOf, FineRings, CoarseStep, CoarseStart, MaxRing, InReach, CellX, CellY, RingCell, RingSize;
    var t := TargetOf(p, r, x, y, b);
    var ax, ay := if gx < 0 then -gx else gx, if gy < 0 then -gy else gy;
    var ring: nat := if ax > ay then ax else ay;
    RingWalkIsPerimeter(ring, gx, gy);
    var k :| 0 <= k < RingSize(ring) && RingCell(ring, k) == (gx, gy);
    TargetSpan(p, r, x, y, b);
    if InReach(t, CellX(t, CoarseStep(b), gx), CellY(t, CoarseStep(b), gy)) {
      CoarseCellsBounded(t, b, gx, gy);
      assert NoneOnRing(t, b.spacing, others, CoarseStep(b), ring, RingSize(ring));
      assert !CellFits(t, b.spacing, others, CoarseStep(b), ring, k);
    }
  }

  lemma CoarseCellsBounded(t: Target, b: Board, gx: int, gy: int)
    requires ValidBoard(b) && InReach(t, CellX(t, CoarseStep(b), gx), CellY(t, CoarseStep(b), gy))
    requires 2.0 * t.maxX <= b.w && -t.maxX <= t.cx <= t.maxX && 2.0 * t.maxY <= b.h && -t.maxY <= t.cy <= t.maxY
    ensures -MaxRing(b) <= gx <= MaxRing(b) && -MaxRing(b) <= gy <= MaxRing(b)
  {
    hide CoarseStep, MaxRing;
    CoarseStartPositive(b);
    AcrossBoard(b);
    CellsAcross(gx, CoarseStep(b), t.cx, t.maxX, b.w, MaxRing(b));
    CellsAcross(gy, CoarseStep(b), t.cy, t.maxY, b.h, MaxRing(b));
  }

  lemma AcrossBoard(b: Board)
    requires ValidBoard(b)
    ensures b.w <= MaxRing(b) as real * CoarseStep(b) && b.h <= MaxRing(b) as real * CoarseStep(b)
  {
    RingsReach(b);
    hide CoarseStep, MaxRing, FineRings;
  }

  lemma CellsAcross(n: int, step: real, c: real, max: real, side: real, rings: int)
    requires step > 0.0 && -max <= c <= max && -max <= c + n as real * step <= max
    requires 2.0 * max <= side <= rings as real * step
    ensures -rings <= n <= rings
  {
    ScalePositive(step, (rings - n) as real);
    ScalePositive(step, (rings + n) as real);
    assert step * (rings - n) as real == rings as real * step - n as real * step;
    assert step * (rings + n) as real == rings as real * step + n as real * step;
  }

  /** No two positions in reach are further apart than the board is long. */
  lemma TargetSpan(p: Part, r: int, x: real, y: real, b: Board)
    requires b.grid > 0.0 && b.margin >= 0.0 && p.w >= 0.0 && p.h >= 0.0
    ensures var t := TargetOf(p, r, x, y, b);
            && (t.maxX >= 0.0 ==> 2.0 * t.maxX <= b.w && -t.maxX <= t.cx <= t.maxX)
            && (t.maxY >= 0.0 ==> 2.0 * t.maxY <= b.h && -t.maxY <= t.cy <= t.maxY)
  {
    hide Reach, Snap;
    var (hw, hh) := HalfExtents(p, r);
    ReachFits(b.w, b.margin, hw, b.grid);
    ReachFits(b.h, b.margin, hh, b.grid);
  }

  /** A failed search missed no grid cell within the fine radius. */
  lemma NoSpotMeansNoFineCell(t: Target, b: Board, others: seq<Box>, gx: int, gy: int)
    requires ValidBoard(b) && NoSpot(t, b, others)
    requires -FineRings(b) <= gx <= FineRings(b) && -FineRings(b) <= gy <= FineRings(b)
    ensures !Fits(t, b.spacing, others, CellX(t, b.grid, gx), CellY(t, b.grid, gy))
  {
    var ax, ay := if gx < 0 then -gx else gx, if gy < 0 then -gy else gy;
    var ring: nat := if ax > ay then ax else ay;
    RingWalkIsPerimeter(ring, gx, gy);
    var k :| 0 <= k < RingSize(ring) && RingCell(ring, k) == (gx, gy);
    assert NoneOnRing(t, b.spacing, others, b.grid, ring, RingSize(ring));
    assert !CellFits(t, b.spacing, others, b.grid, ring, k);
  }

  /** No fitting cell within the fine radius lies nearer to the target than the spot found. */
  lemma SpotIsNearest(t: Target, b: Board, others: seq<Box>, x: real, y: real, gx: int, gy: int, ring: nat)
    requires ValidBoard(b) && FirstSpot(t, b, others, x, y) && ring <= FineRings(b) && OnRing(ring, gx, gy)
    requires Fits(t, b.spacing, others, CellX(t, b.grid, gx), CellY(t, b.grid, gy))
    ensures Abs(x - t.cx) <= ring as real * b.grid && Abs(y - t.cy) <= ring as real * b.grid
  {
    hide Fits, CellX, CellY, RingCell, RingSize, FineRings, OnRing;
    RingWalkIsPerimeter(ring, gx, gy);
    var k :| 0 <= k < RingSize(ring) && RingCell(ring, k) == (gx, gy);
    assert CellFits(t, b.spacing, others, b.grid, ring, k);
    assert !NoneOnRing(t, b.spacing, others, b.grid, ring, RingSize(ring));
    assert FirstHit(t, b.spacing, others, b.grid, 0, FineRings(b), x, y);
    var near: nat, m: nat :| near <= FineRings(b) && FirstFrom(t, b.spacing, others, b.grid, 0, near, m, x, y);
    assert near <= ring;
    WithinRing(t, b.grid, near, m, ring);
  }

  lemma WithinRing(t: Target, g: real, near: nat, m: nat, ring: nat)
    requires g > 0.0 && near <= ring && m < RingSize(near)
    ensures var (gx, gy) := RingCell(near, m);
            Abs(CellX(t, g, gx) - t.cx) <= ring as real * g && Abs(CellY(t, g, gy) - t.cy) <= ring as real * g
  {
    var (gx, gy) := RingCell(near, m);
    RingIndexInverts(near, m);
    hide RingCell, RingIndex, RingSize;
    CellsWithin(gx, ring, g);
    CellsWithin(gy, ring, g);
  }

  lemma CellsWithin(n: int, ring: nat, g: real)
    requires g > 0.0 && 0 - ring <= n <= ring
    ensures Abs(n as real * g) <= ring as real * g
  {
    ScalePositive(g, (ring - n) as real);
    ScalePositive(g, (ring + n) as real);
    assert g * (ring - n) as real == ring as real * g - n as real * g;
    assert g * (ring + n) as real == ring as real * g + n as real * g;
  }

  lemma CoarseStartPositive(b: Board)
    requires ValidBoard(b)
    ensures CoarseStep(b) > 0.0 && CoarseStart(b) >= 1
  {
    assert FineRadius(b) / CoarseStep(b) >= 0.0;
  }

  lemma StepsOnGrid(b: Board)
    requires b.grid > 0.0
    ensures OnGrid(b.grid, b.grid) && OnGrid(CoarseStep(b), b.grid)
  {
    assert b.grid == Times(1, b.grid);
    SnapOnGrid(b.spacing, b.grid);
  }

  /** A found spot fits, and lies on the grid when the target does. */
  lemma SpotFits(t: Target, b: Board, others: seq<Box>, x: real, y: real)
    requires b.grid > 0.0 && OnGrid(t.cx, b.grid) && OnGrid(t.cy, b.grid)
    requires FirstSpot(t, b, others, x, y)
    ensures Fits(t, b.spacing, others, x, y) && OnGrid(x, b.grid) && OnGrid(y, b.grid)
  {
    StepsOnGrid(b);
    if FirstHit(t, b.spacing, others, b.grid, 0, FineRings(b), x, y) {
      HitFits(t, b, others, b.grid, 0, FineRings(b), x, y);
    } else {
      HitFits(t, b, others, CoarseStep(b), CoarseStart(b), MaxRing(b), x, y);
    }
  }

  lemma HitFits(t: Target, b: Board, others: seq<Box>, step: real, lo: int, hi: int, x: real, y: real)
    requires OnGrid(t.cx, b.grid) && OnGrid(t.cy, b.grid) && OnGrid(step, b.grid)
    requires FirstHit(t, b.spacing, others, step, lo, hi, x, y)
    ensures Fits(t, b.spacing, others, x, y) && OnGrid(x, b.grid) && OnGrid(y, b.grid)
  {
    hide OnGrid, CellX, CellY, RingCell;
    var ring: nat, k: nat :| lo <= ring <= hi && FirstFrom(t, b.spacing, others, step, lo, ring, k, x, y);
    CellOnGrid(t, step, RingCell(ring, k).0, RingCell(ring, k).1, b.grid);
  }

  lemma CellOnGrid(t: Target, step: real, gx: int, gy: int, g: real)
    requires OnGrid(t.cx, g) && OnGrid(t.cy, g) && OnGrid(step, g)
    ensures OnGrid(CellX(t, step, gx), g) && OnGrid(CellY(t, step, gy), g)
  {
    hide OnGrid;
    GridTimes(step, gx, g);
    GridTimes(step, gy, g);
    GridPlus(t.cx, gx as real * step, g);
    GridPlus(t.cy, gy as real * step, g);
  }

  /** Clamping between opposite grid lines stays on the grid. */
  lemma ClampOnGrid(v: real, m: real, g: real)
    requires OnGrid(v, g) && OnGrid(m, g)
    ensures OnGrid(ClampReal(v, -m, m), g)
  {
    GridNegated(m, g);
  }

  lemma TargetOnGrid(p: Part, r: int, x: real, y: real, b: Board)
    requires b.grid > 0.0
    ensures var t := TargetOf(p, r, x, y, b); OnGrid(t.cx, b.grid) && OnGrid(t.cy, b.grid)
  {
    var t := TargetOf(p, r, x, y, b);
    SnapOnGrid(x, b.grid);
    SnapOnGrid(y, b.grid);
    ReachFits(b.w, b.margin, t.hw, b.grid);
    ReachFits(b.h, b.margin, t.hh, b.grid);
    ClampOnGrid(Snap(x, b.grid), t.maxX, b.grid);
    ClampOnGrid(Snap(y, b.grid), t.maxY, b.grid);
  }

  /** A position in reach keeps the whole courtyard inside the board's margin. */
  lemma InReachIsInside(p: Part, r: int, x0: real, y0: real, b: Board, x: real, y: real)
    requires b.grid > 0.0 && InReach(TargetOf(p, r, x0, y0, b), x, y)
    ensures Inside(BoxAt(p, r, x, y), b)
  {
    var (hw, hh) := HalfExtents(p, r);
    ReachFits(b.w, b.margin, hw, b.grid);
    ReachFits(b.h, b.margin, hh, b.grid);
  }

  /** The search starts at the well-placed position nearest to the part's wish, along either axis. */
  lemma TargetIsNearest(p: Part, r: int, x: real, y: real, b: Board, x': real, y': real)
    requires b.grid > 0.0 && WellPlaced(BoxAt(p, r, x', y'), b)
    ensures var t := TargetOf(p, r, x, y, b);
            && InReach(t, x', y') && WellPlaced(BoxAt(p, r, t.cx, t.cy), b)
            && Abs(t.cx - x) <= Abs(x' - x) && Abs(t.cy - y) <= Abs(y' - y)
  {
    hide Reach, OnGrid, Snap;
    var t := TargetOf(p, r, x, y, b);
    TargetOnGrid(p, r, x, y, b);
    NearestOnAxis(x, x', b.w, b.margin, t.hw, b.grid);
    NearestOnAxis(y, y', b.h, b.margin, t.hh, b.grid);
    InReachIsInside(p, r, x, y, b, t.cx, t.cy);
  }

  lemma NearestOnAxis(x: real, x': real, side: real, margin: real, half: real, g: real)
    requires g > 0.0 && OnGrid(x', g) && Abs(x') + half <= side / 2.0 - margin
    ensures var m := Reach(side, margin, half, g);
            -m <= x' <= m && Abs(ClampReal(Snap(x, g), -m, m) - x) <= Abs(x' - x)
  {
    hide Reach, OnGrid, Snap;
    var m := Reach(side, margin, half, g);
    ReachIsFurthest(side, margin, half, g, x');
    GridNegated(x', g);
    ReachIsFurthest(side, margin, half, g, -x');
    ReachFits(side, margin, half, g);
    GridNegated(m, g);
    SnapIsNearest(x, g, x');
    SnapIsNearest(x, g, m);
    SnapIsNearest(x, g, -m);
  }

  /** Where a part already stands clear and well placed, its search ends at once. */
  lemma ClearWishIsFound(p: Part, r: int, x: real, y: real, b: Board, others: seq<Box>)
    requires ValidBoard(b) && WellPlaced(BoxAt(p, r, x, y), b)
    requires forall l :: 0 <= l < |others| ==> !Overlaps(b.spacing, BoxAt(p, r, x, y), others[l])
    ensures var t := TargetOf(p, r, x, y, b);
            && t.maxX >= 0.0 && t.maxY >= 0.0 && !NoSpot(t, b, others)
            && forall x', y' :: FirstSpot(t, b, others, x', y') ==> x' == x && y' == y
  {
    hide Reach, Snap, WellPlaced, HalfExtents, Overlaps;
    var t := TargetOf(p, r, x, y, b);
    TargetIsNearest(p, r, x, y, b, x, y);
    assert Fits(t, b.spacing, others, x, y);
    assert CellFits(t, b.spacing, others, b.grid, 0, 0);
    FineRingsPositive(b);
    hide Fits, CellFits;
    assert !NoneOnRing(t, b.spacing, others, b.grid, 0, RingSize(0));
    forall x', y' | FirstSpot(t, b, others, x', y')
      ensures x' == x && y' == y
    {
      assert FirstHit(t, b.spacing, others, b.grid, 0, FineRings(b), x', y');
    }
  }

  lemma FineRingsPositive(b: Board)
    requires ValidBoard(b)
    ensures FineRings(b) >= 0
  {
    assert FineRadius(b) / b.grid >= 0.0;
  }

  // ------------------------------------------------------------------------------------------------------
  // The legalizer
  // ------------------------------------------------------------------------------------------------------

  function AreaAt(parts: seq<Part>, i: nat): real {
    if i < |parts| then parts[i].w * parts[i].h else 0.0
  }

  function LargerFirst(parts: seq<Part>): (nat, nat) -> bool {
    (i: nat, j: nat) =>
      AreaAt(parts, i) > AreaAt(parts, j)
      || (AreaAt(parts, i) == AreaAt(parts, j) && StringLess(IdAt(parts, i), IdAt(parts, j)))
  }

  /** Larger area first, equal areas by id. */
  function AreaOrder(parts: seq<Part>): (order: seq<nat>) {
    SortBy(Range(|parts|), LargerFirst(parts))
  }

  /** No part is placed before a larger one; parts of one area go by id, and by position where they share one. */
  lemma LargerPartsFirst(parts: seq<Part>, k: nat, l: nat)
    requires k < l < |parts|
    ensures |AreaOrder(parts)| == |parts| && AreaOrder(parts)[k] < |parts| && AreaOrder(parts)[l] < |parts|
    ensures var i, j := AreaOrder(parts)[k], AreaOrder(parts)[l];
            var p, q := parts[i], parts[j];
            && p.w * p.h >= q.w * q.h
            && (p.w * p.h == q.w * q.h ==> StringLess(p.id, q.id) || (p.id == q.id && i < j))
  {
    AreaOrderVisits(parts);
    LargerIndicesFirst(parts, k, l);
  }

  lemma LargerIndicesFirst(parts: seq<Part>, k: nat, l: nat)
    requires k < l < |AreaOrder(parts)|
    ensures var i, j := AreaOrder(parts)[k], AreaOrder(parts)[l];
            && AreaAt(parts, i) >= AreaAt(parts, j)
            && (AreaAt(parts, i) == AreaAt(parts, j) ==>
                  || StringLess(IdAt(parts, i), IdAt(parts, j))
                  || (IdAt(parts, i) == IdAt(parts, j) && i < j))
  {
    hide AreaAt, IdAt, StringLess;
    AreaOrderVisits(parts);
    LargerFirstIsStrict(parts);
    IndicesSorted(Range(|parts|), LargerFirst(parts));
    var i, j := AreaOrder(parts)[k], AreaOrder(parts)[l];
    assert !Stably(LargerFirst(parts))(j, i);
    StringsOrdered(IdAt(parts, i), IdAt(parts, j), IdAt(parts, i));
  }

  lemma LargerFirstIsStrict(parts: seq<Part>)
    ensures StrictOrder(LargerFirst(parts))
  {
    hide AreaAt, IdAt, StringLess;
    forall i: nat, j: nat, k: nat
      ensures LargerFirst(parts)(i, j) ==> !LargerFirst(parts)(j, i)
      ensures LargerFirst(parts)(i, j) && LargerFirst(parts)(j, k) ==> LargerFirst(parts)(i, k)
      ensures LargerFirst(parts)(i, k) ==> LargerFirst(parts)(i, j) || LargerFirst(parts)(j, k)
    {
      StringsOrdered(IdAt(parts, i), IdAt(parts, j), IdAt(parts, k));
    }
  }

  lemma AreaOrderVisits(parts: seq<Part>)
    ensures Visits(AreaOrder(parts), |parts|)
  {
    SortedRangeVisits(|parts|, AreaOrder(parts));
  }

  /** The courtyards of the first `k` parts of `order`. */
  ghost function Placed(boxes: seq<Box>, order: seq<nat>, k: nat): (others: seq<Box>)
    requires k <= |order| && forall l :: 0 <= l < |order| ==> order[l] < |boxes|
    ensures |others| == k && forall l :: 0 <= l < k ==> others[l] == boxes[order[l]]
  {
    seq(k, l requires 0 <= l < k => boxes[order[l]])
  }

  ghost function Wanted(parts: seq<Part>, wish: Layout, i: nat, b: Board): Target
    requires b.grid > 0.0 && i < |parts| == |wish.x| == |wish.y| == |wish.r|
  {
    TargetOf(parts[i], wish.r[i], wish.x[i], wish.y[i], b)
  }

  /** Part `order[k]` sits at the first spot its search finds among the parts placed before it. */
  ghost predicate Settled(parts: seq<Part>, wish: Layout, b: Board, order: seq<nat>, boxes: seq<Box>, k: nat)
    requires b.grid > 0.0 && |boxes| == |parts| == |wish.x| == |wish.y| == |wish.r|
    requires k < |order| && forall l :: 0 <= l < |order| ==> order[l] < |boxes|
  {
    var i := order[k];
    var t := Wanted(parts, wish, i, b);
    && t.maxX >= 0.0 && t.maxY >= 0.0
    && FirstSpot(t, b, Placed(boxes, order, k), boxes[i].x, boxes[i].y)
    && boxes[i] == BoxAt(parts[i], wish.r[i], boxes[i].x, boxes[i].y)
  }

  /** Part `order[k]` is too large for the board, or its whole search is blocked by the parts before it. */
  ghost predicate Stuck(parts: seq<Part>, wish: Layout, b: Board, order: seq<nat>, boxes: seq<Box>, k: nat)
    requires b.grid > 0.0 && |boxes| == |parts| == |wish.x| == |wish.y| == |wish.r|
    requires k < |order| && forall l :: 0 <= l < |order| ==> order[l] < |boxes|
  {
    var t := Wanted(parts, wish, order[k], b);
    t.maxX < 0.0 || t.maxY < 0.0 || NoSpot(t, b, Placed(boxes, order, k))
  }

  /** The first `k` parts of `order` are mutually legal. */
  ghost predicate LegalSoFar(boxes: seq<Box>, order: seq<nat>, k: nat, b: Board)
    requires k <= |order| && forall l :: 0 <= l < |order| ==> order[l] < |boxes|
  {
    && (forall l, m :: 0 <= l < m < k ==> !Overlaps(b.spacing, boxes[order[l]], boxes[order[m]]))
    && (forall l :: 0 <= l < k ==> WellPlaced(boxes[order[l]], b))
  }

  lemma LegalWhenAllPlaced(boxes: seq<Box>, order: seq<nat>, b: Board)
    requires Visits(order, |boxes|) && LegalSoFar(boxes, order, |order|, b)
    ensures Legal(boxes, b)
  {
    forall i, j | 0 <= i < j < |boxes|
      ensures !Overlaps(b.spacing, boxes[i], boxes[j])
    {
      assert i in order && j in order;
      var l :| 0 <= l < |order| && order[l] == i;
      var m :| 0 <= m < |order| && order[m] == j;
      OverlapsSymmetric(b.spacing, boxes[i], boxes[j]);
    }
    forall i | 0 <= i < |boxes|
      ensures WellPlaced(boxes[i], b)
    {
      assert i in order;
    }
  }

  /** The first `k` parts sit where their searches put them, and are mutually legal. */
  ghost predicate SettledSoFar(parts: seq<Part>, wish: Layout, b: Board, order: seq<nat>, boxes: seq<Box>, k: nat)
    requires b.grid > 0.0 && |boxes| == |parts| == |wish.x| == |wish.y| == |wish.r| && Visits(order, |parts|)
  {
    && k <= |order|
    && (forall l :: 0 <= l < k ==> Settled(parts, wish, b, order, boxes, l))
    && LegalSoFar(boxes, order, k, b)
  }

  /** What a run of the legalizer leaves: every part settled, or all before the first that is stuck. */
  ghost predicate Outcome(parts: seq<Part>, wish: Layout, b: Board, order: seq<nat>, boxes: seq<Box>, ok: bool)
    requires b.grid > 0.0 && |boxes| == |parts| == |wish.x| == |wish.y| == |wish.r| && Visits(order, |parts|)
  {
    exists k :: 0 <= k <= |order| && Reached(parts, wish, b, order, boxes, ok, k)
  }

  ghost predicate Reached(parts: seq<Part>, wish: Layout, b: Board, order: seq<nat>, boxes: seq<Box>, ok: bool, k: nat)
    requires b.grid > 0.0 && |boxes| == |parts| == |wish.x| == |wish.y| == |wish.r| && Visits(order, |parts|)
    requires k <= |order|
  {
    && SettledSoFar(parts, wish, b, order, boxes, k)
    && (if ok then k == |order| else k < |order| && Stuck(parts, wish, b, order, boxes, k))
  }

  /** Moving the next part leaves the earlier ones settled where they are, and settles it. */
  lemma SettleNext(parts: seq<Part>, wish: Layout, b: Board, order: seq<nat>, bs: seq<Box>, k: nat, x: real, y: real)
    requires ValidBoard(b) && |bs| == |parts| == |wish.x| == |wish.y| == |wish.r|
    requires Visits(order, |parts|) && k < |order| && SettledSoFar(parts, wish, b, order, bs, k)
    requires var t := Wanted(parts, wish, order[k], b);
             t.maxX >= 0.0 && t.maxY >= 0.0 && FirstSpot(t, b, Placed(bs, order, k), x, y)
    ensures var i := order[k];
            var bs' := bs[i := BoxAt(parts[i], wish.r[i], x, y)];
            && SettledSoFar(parts, wish, b, order, bs', k + 1)
            && Placed(bs', order, k + 1) == Placed(bs, order, k) + [bs'[i]]
  {
    var i := order[k];
    var box := BoxAt(parts[i], wish.r[i], x, y);
    var bs' := bs[i := box];
    var t := Wanted(parts, wish, i, b);
    forall l | 0 <= l <= k
      ensures Placed(bs', order, l) == Placed(bs, order, l) && (l < k ==> bs'[order[l]] == bs[order[l]])
    {
      assert forall m :: 0 <= m < l ==> order[m] != order[k];
    }
    assert Placed(bs', order, k + 1) == Placed(bs, order, k) + [box];
    TargetOnGrid(parts[i], wish.r[i], wish.x[i], wish.y[i], b);
    SpotFits(t, b, Placed(bs, order, k), x, y);
    InReachIsInside(parts[i], wish.r[i], wish.x[i], wish.y[i], b, x, y);
    hide FirstSpot, InReach;
    forall l | 0 <= l < k
      ensures Settled(parts, wish, b, order, bs', l)
    {
      assert Settled(parts, wish, b, order, bs, l);
    }
    forall l | 0 <= l < k
      ensures !Overlaps(b.spacing, bs'[order[l]], box)
    {
      assert Placed(bs, order, k)[l] == bs[order[l]];
      OverlapsSymmetric(b.spacing, bs[order[l]], box);
    }
  }

  /** A layout that is legal already is left as it is. */
  lemma LegalWishStays(parts: seq<Part>, wish: Layout, b: Board, order: seq<nat>, boxes: seq<Box>, ok: bool)
    requires ValidBoard(b) && |boxes| == |parts| && Sized(parts, wish) && Visits(order, |parts|)
    requires Legal(BoxesOf(parts, wish), b) && Outcome(parts, wish, b, order, boxes, ok)
    ensures ok && boxes == BoxesOf(parts, wish)
  {
    hide Settled, Stuck, Legal, LegalSoFar;
    var k :| 0 <= k <= |order| && Reached(parts, wish, b, order, boxes, ok, k);
    WishesKept(parts, wish, b, order, boxes, k);
    if !ok {
      WishIsFound(parts, wish, b, order, boxes, k);
    }
    forall i | 0 <= i < |parts|
      ensures boxes[i] == BoxesOf(parts, wish)[i]
    {
      assert i in order;
    }
  }

  lemma {:induction false} WishesKept(parts: seq<Part>, wish: Layout, b: Board, order: seq<nat>, boxes: seq<Box>,
                                      k: nat)
    requires ValidBoard(b) && |boxes| == |parts| && Sized(parts, wish) && Visits(order, |parts|) && k <= |order|
    requires Legal(BoxesOf(parts, wish), b) && forall l :: 0 <= l < k ==> Settled(parts, wish, b, order, boxes, l)
    ensures forall l :: 0 <= l < k ==> boxes[order[l]] == BoxesOf(parts, wish)[order[l]]
  {
    hide Settled, Legal;
    if k > 0 {
      WishesKept(parts, wish, b, order, boxes, k - 1);
      WishIsFound(parts, wish, b, order, boxes, k - 1);
    }
  }

  lemma WishIsFound(parts: seq<Part>, wish: Layout, b: Board, order: seq<nat>, boxes: seq<Box>, k: nat)
    requires ValidBoard(b) && |boxes| == |parts| && Sized(parts, wish) && Visits(order, |parts|) && k < |order|
    requires Legal(BoxesOf(parts, wish), b)
    requires forall l :: 0 <= l < k ==> boxes[order[l]] == BoxesOf(parts, wish)[order[l]]
    ensures !Stuck(parts, wish, b, order, boxes, k)
    ensures Settled(parts, wish, b, order, boxes, k) ==> boxes[order[k]] == BoxesOf(parts, wish)[order[k]]
  {
    var i, bs := order[k], BoxesOf(parts, wish);
    assert WellPlaced(bs[i], b);
    forall l | 0 <= l < k
      ensures !Overlaps(b.spacing, bs[i], Placed(boxes, order, k)[l])
    {
      OverlapsSymmetric(b.spacing, bs[i], bs[order[l]]);
    }
    hide Legal, Overlaps, WellPlaced, TargetOf, FirstSpot, NoSpot;
    ClearWishIsFound(parts[i], wish.r[i], wish.x[i], wish.y[i], b, Placed(boxes, order, k));
  }

  /** Legalize the layout: on success it is legal, and either way every placed part sits at its first free spot. */
  method Legalize(parts: seq<Part>, st: State, b: Board, cell: real, sqrt: real -> real) returns (ok: bool)
    requires ValidParts(parts) && ValidBoard(b) && st.Valid(|parts|) && IsSqrt(sqrt)
    modifies st.x, st.y
    ensures Visits(AreaOrder(parts), |parts|)
    ensures ok ==> Legal(st.Boxes(parts), b) && PartsClear(parts, LayoutOf(st), b, b.spacing - EPS)
    ensures Outcome(parts, old(LayoutOf(st)), b, AreaOrder(parts), st.Boxes(parts), ok)
  {
    hide Tracks, SettledSoFar, Stuck, OnGrid, Legal, AreaOrder, PartsClear;
    var order := AreaOrder(parts);
    AreaOrderVisits(parts);
    var grid := new Grid(cell, b.w, b.h, sqrt);
    var placed := new bool[|parts|](_ => false);
    var boxes := new Box[|parts|](_ => Box(0.0, 0.0, 0.0, 0.0));
    ghost var wish := LayoutOf(st);
    StartTracks(grid, placed[..], boxes[..], b.spacing);
    StartSettled(parts, wish, b, order, st.Boxes(parts));
    for k := 0 to |order|
      invariant grid.Valid() && fresh(grid) && fresh(grid.buckets) && fresh(placed) && fresh(boxes)
      invariant Tracks(grid, placed[..], boxes[..], b.spacing, Placed(st.Boxes(parts), order, k))
      invariant placed.Length == |parts|
      invariant forall l :: k <= l < |order| ==>
        !placed[order[l]] && st.x[order[l]] == wish.x[order[l]] && st.y[order[l]] == wish.y[order[l]]
      invariant SettledSoFar(parts, wish, b, order, st.Boxes(parts), k)
    {
      ok := PlacePart(parts, st, b, wish, order, k, grid, placed, boxes);
      if !ok {
        assert Reached(parts, wish, b, order, st.Boxes(parts), false, k);
        return;
      }
    }
    ok := true;
    assert Reached(parts, wish, b, order, st.Boxes(parts), true, |order|);
    AllSettledIsLegal(parts, wish, b, order, st.Boxes(parts));
    LegalPartsClear(parts, st, b);
  }

  lemma StartTracks(grid: Grid, placed: seq<bool>, boxes: seq<Box>, spacing: real)
    requires |placed| == |boxes| && grid.entries == [] && forall j :: 0 <= j < |placed| ==> !placed[j]
    ensures Tracks(grid, placed, boxes, spacing, [])
  {
  }

  lemma StartSettled(parts: seq<Part>, wish: Layout, b: Board, order: seq<nat>, boxes: seq<Box>)
    requires b.grid > 0.0 && |boxes| == |parts| == |wish.x| == |wish.y| == |wish.r| && Visits(order, |parts|)
    ensures SettledSoFar(parts, wish, b, order, boxes, 0) && Placed(boxes, order, 0) == []
  {
  }

  lemma AllSettledIsLegal(parts: seq<Part>, wish: Layout, b: Board, order: seq<nat>, boxes: seq<Box>)
    requires b.grid > 0.0 && |boxes| == |parts| == |wish.x| == |wish.y| == |wish.r| && Visits(order, |parts|)
    requires SettledSoFar(parts, wish, b, order, boxes, |order|)
    ensures Legal(boxes, b)
  {
    LegalWhenAllPlaced(boxes, order, b);
  }

  /** Search a spot for the `k`-th part and move it there. */
  method PlacePart(parts: seq<Part>, st: State, b: Board, ghost wish: Layout, order: seq<nat>, k: nat,
                   grid: Grid, placed: array<bool>, boxes: array<Box>) returns (ok: bool)
    requires ValidParts(parts) && ValidBoard(b) && st.Valid(|parts|) && Visits(order, |parts|) && k < |order|
    requires |wish.x| == |wish.y| == |parts| && wish.r == st.r[..]
    requires grid.Valid() && Tracks(grid, placed[..], boxes[..], b.spacing, Placed(st.Boxes(parts), order, k))
    requires placed.Length == |parts| && !placed[order[k]]
    requires st.x[order[k]] == wish.x[order[k]] && st.y[order[k]] == wish.y[order[k]]
    requires SettledSoFar(parts, wish, b, order, st.Boxes(parts), k)
    modifies st.x, st.y, grid, grid.buckets, placed, boxes
    ensures grid.Valid()
    ensures ok ==> Tracks(grid, placed[..], boxes[..], b.spacing, Placed(st.Boxes(parts), order, k + 1))
    ensures ok ==> SettledSoFar(parts, wish, b, order, st.Boxes(parts), k + 1)
    ensures !ok ==> SettledSoFar(parts, wish, b, order, st.Boxes(parts), k)
    ensures !ok ==> Stuck(parts, wish, b, order, st.Boxes(parts), k)
    ensures forall j :: 0 <= j < |parts| && j != order[k] ==>
      placed[j] == old(placed[j]) && st.x[j] == old(st.x[j]) && st.y[j] == old(st.y[j])
  {
    hide Tracks, SettledSoFar, OnGrid, FirstSpot, NoSpot;
    var i := order[k];
    var t := TargetOf(parts[i], st.r[i], st.x[i], st.y[i], b);
    assert t == Wanted(parts, wish, i, b);
    if t.maxX < 0.0 || t.maxY < 0.0 {
      return false;
    }
    ghost var bs := st.Boxes(parts);
    ghost var others := Placed(bs, order, k);
    var spot := FindSpot(t, b, grid, placed, boxes, others);
    if spot.Missing? {
      return false;
    }
    MoveTo(parts, st, b, wish, order, k, grid, placed, boxes, t, spot.x, spot.y);
    return true;
  }

  method MoveTo(parts: seq<Part>, st: State, b: Board, ghost wish: Layout, order: seq<nat>, k: nat,
                grid: Grid, placed: array<bool>, boxes: array<Box>, t: Target, x: real, y: real)
    requires ValidParts(parts) && ValidBoard(b) && st.Valid(|parts|) && Visits(order, |parts|) && k < |order|
    requires |wish.x| == |wish.y| == |parts| && wish.r == st.r[..]
    requires grid.Valid() && Tracks(grid, placed[..], boxes[..], b.spacing, Placed(st.Boxes(parts), order, k))
    requires placed.Length == |parts| && !placed[order[k]]
    requires SettledSoFar(parts, wish, b, order, st.Boxes(parts), k)
    requires t == Wanted(parts, wish, order[k], b) && t.maxX >= 0.0 && t.maxY >= 0.0
    requires FirstSpot(t, b, Placed(st.Boxes(parts), order, k), x, y)
    modifies st.x, st.y, grid, grid.buckets, placed, boxes
    ensures grid.Valid()
    ensures Tracks(grid, placed[..], boxes[..], b.spacing, Placed(st.Boxes(parts), order, k + 1))
    ensures SettledSoFar(parts, wish, b, order, st.Boxes(parts), k + 1)
    ensures forall j :: 0 <= j < |parts| && j != order[k] ==>
      placed[j] == old(placed[j]) && st.x[j] == old(st.x[j]) && st.y[j] == old(st.y[j])
  {
    hide Tracks, SettledSoFar, FirstSpot, ValidBoard;
    var i := order[k];
    ghost var bs := st.Boxes(parts);
    ghost var others := Placed(bs, order, k);
    SettleNext(parts, wish, b, order, bs, k, x, y);
    st.x[i] := x;
    st.y[i] := y;
    var box := Box(x, y, t.hw, t.hh);
    assert box == BoxAt(parts[i], wish.r[i], x, y);
    assert st.Boxes(parts) == bs[i := box];
    assert Placed(st.Boxes(parts), order, k + 1) == others + [box];
    hide Placed;
    ghost var bs' := st.Boxes(parts);
    Keep(box, i, b, grid, placed, boxes, others);
    assert st.Boxes(parts) == bs';
  }

  /** Record a placed courtyard in the grid and in the tables. */
  method Keep(box: Box, i: nat, b: Board, grid: Grid, placed: array<bool>, boxes: array<Box>, ghost others: seq<Box>)
    requires grid.Valid() && Tracks(grid, placed[..], boxes[..], b.spacing, others)
    requires i < placed.Length && !placed[i] && box.hw >= 0.0 && box.hh >= 0.0
    modifies grid, grid.buckets, placed, boxes
    ensures grid.Valid() && Tracks(grid, placed[..], boxes[..], b.spacing, others + [box])
    ensures forall j :: 0 <= j < placed.Length ==> placed[j] == (old(placed[j]) || j == i)
  {
    ghost var placed0, boxes0, entries0 := placed[..], boxes[..], grid.entries;
    grid.Insert(i, Inflated(box, b.spacing / 2.0));
    boxes[i] := box;
    placed[i] := true;
    TrackOneMore(grid, placed0, boxes0, entries0, b.spacing, others, i, box);
    assert placed[..] == placed0[i := true] && boxes[..] == boxes0[i := box];
  }

  lemma TrackOneMore(grid: Grid, placed: seq<bool>, boxes: seq<Box>, entries: seq<Entry>, spacing: real,
                     others: seq<Box>, i: nat, box: Box)
    requires |placed| == |boxes| && i < |placed| && !placed[i] && box.hw >= 0.0 && box.hh >= 0.0
    requires grid.entries == entries + [(i, Inflated(box, spacing / 2.0))]
    requires forall j :: 0 <= j < |placed| && placed[j] ==>
      boxes[j] in others && boxes[j].hw >= 0.0 && boxes[j].hh >= 0.0 && Indexed(entries, j, boxes[j], spacing)
    requires forall o :: o in others ==> exists j :: 0 <= j < |placed| && placed[j] && boxes[j] == o
    requires forall k :: 0 <= k < |entries| ==> entries[k].0 < |placed|
    ensures Tracks(grid, placed[i := true], boxes[i := box], spacing, others + [box])
  {
    var placed', boxes' := placed[i := true], boxes[i := box];
    forall o | o in others + [box]
      ensures exists j :: 0 <= j < |placed'| && placed'[j] && boxes'[j] == o
    {
      if o in others {
        var j :| 0 <= j < |placed| && placed[j] && boxes[j] == o;
        assert placed'[j] && boxes'[j] == o;
      } else {
        assert placed'[i] && boxes'[i] == o;
      }
    }
  }
}
