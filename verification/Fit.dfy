/** Shrink-to-fit: the board that is emitted, sized from the re-centred courtyards and the routing head-room. */
module Fit {
  import opened Reals
  import opened Spatial
  import opened Courtyards

  const MIN_BOARD := 20.0
  const ROUTE_UTIL := 0.45

  /** Two decimals, halves away from zero. */
  function Round2(v: real): real {
    Round(v * 100.0) as real / 100.0
  }

  lemma Round2Close(v: real)
    ensures Abs(Round2(v) - v) <= 0.005
  {
    var n := Round(v * 100.0) as real;
    assert Abs(n - v * 100.0) <= 0.5;
  }

  function CeilSnap(v: real, g: real): real
    requires g > 0.0
  {
    Ceil(v / g) as real * g
  }

  lemma CeilSnapAbove(v: real, g: real)
    requires g > 0.0
    ensures CeilSnap(v, g) >= v
  {
    assert Ceil(v / g) as real >= v / g;
    assert v / g * g == v;
  }

  /** Spacing-inflated area of the first `k` parts. */
  ghost function Area(parts: seq<Part>, spacing: real, k: nat): real
    requires k <= |parts|
  {
    if k == 0 then 0.0
    else Area(parts, spacing, k - 1) + (parts[k - 1].w + spacing) * (parts[k - 1].h + spacing)
  }

  method TotalArea(parts: seq<Part>, spacing: real) returns (area: real)
    ensures area == Area(parts, spacing, |parts|)
  {
    area := 0.0;
    for k := 0 to |parts|
      invariant area == Area(parts, spacing, k)
    {
      area := area + (parts[k].w + spacing) * (parts[k].h + spacing);
    }
  }

  /** The smallest interval holding all courtyards on each axis. */
  datatype Bounds = Bounds(minX: real, maxX: real, minY: real, maxY: real)

  ghost predicate Bounding(bd: Bounds, boxes: seq<Box>, k: nat)
    requires k <= |boxes|
  {
    forall i :: 0 <= i < k ==>
      && bd.minX <= boxes[i].x - boxes[i].hw && boxes[i].x + boxes[i].hw <= bd.maxX
      && bd.minY <= boxes[i].y - boxes[i].hh && boxes[i].y + boxes[i].hh <= bd.maxY
  }

  /** Each bound is some courtyard's. */
  ghost predicate Touched(bd: Bounds, boxes: seq<Box>, k: nat)
    requires k <= |boxes|
  {
    && (exists i :: 0 <= i < k && bd.minX == boxes[i].x - boxes[i].hw)
    && (exists i :: 0 <= i < k && bd.maxX == boxes[i].x + boxes[i].hw)
    && (exists i :: 0 <= i < k && bd.minY == boxes[i].y - boxes[i].hh)
    && (exists i :: 0 <= i < k && bd.maxY == boxes[i].y + boxes[i].hh)
  }

  lemma OneTouched(boxes: seq<Box>)
    requires |boxes| > 0
    ensures var b := boxes[0]; Touched(Bounds(b.x - b.hw, b.x + b.hw, b.y - b.hh, b.y + b.hh), boxes, 1)
    ensures var b := boxes[0]; Bounding(Bounds(b.x - b.hw, b.x + b.hw, b.y - b.hh, b.y + b.hh), boxes, 1)
  {
  }

  /** Bounds stretched to one more courtyard are still touched. */
  lemma StretchTouched(bd: Bounds, boxes: seq<Box>, k: nat, next: nat)
    requires k < |boxes| && next == k + 1 && Touched(bd, boxes, k)
    ensures var b := boxes[k];
            Touched(Bounds(Min(bd.minX, b.x - b.hw), Max(bd.maxX, b.x + b.hw), Min(bd.minY, b.y - b.hh),
              Max(bd.maxY, b.y + b.hh)), boxes, next)
  {
  }

  lemma StretchBounding(bd: Bounds, boxes: seq<Box>, k: nat, next: nat)
    requires k < |boxes| && next == k + 1 && Bounding(bd, boxes, k)
    ensures var b := boxes[k];
            Bounding(Bounds(Min(bd.minX, b.x - b.hw), Max(bd.maxX, b.x + b.hw), Min(bd.minY, b.y - b.hh),
              Max(bd.maxY, b.y + b.hh)), boxes, next)
  {
  }

  method BoundsOf(parts: seq<Part>, st: State) returns (bd: Bounds)
    requires |parts| > 0 && st.Valid(|parts|) && ValidParts(parts)
    ensures Bounding(bd, st.Boxes(parts), |parts|) && Touched(bd, st.Boxes(parts), |parts|)
    ensures bd.minX <= bd.maxX && bd.minY <= bd.maxY
  {
    hide Touched, Bounding;
    var b0 := st.BoxOf(parts[0], 0);
    OneTouched(st.Boxes(parts));
    bd := Bounds(b0.x - b0.hw, b0.x + b0.hw, b0.y - b0.hh, b0.y + b0.hh);
    for i := 1 to |parts|
      invariant Bounding(bd, st.Boxes(parts), i) && Touched(bd, st.Boxes(parts), i) && bd.minX <= bd.maxX
      invariant bd.minY <= bd.maxY
    {
      var b := st.BoxOf(parts[i], i);
      StretchTouched(bd, st.Boxes(parts), i, i + 1);
      StretchBounding(bd, st.Boxes(parts), i, i + 1);
      bd := Bounds(Min(bd.minX, b.x - b.hw), Max(bd.maxX, b.x + b.hw), Min(bd.minY, b.y - b.hh),
        Max(bd.maxY, b.y + b.hh));
    }
  }

  /** The fitted side of one axis, before routing head-room. */
  function FitSide(lo: real, hi: real, centre: real, margin: real, g: real): real
    requires g > 0.0
  {
    Max(CeilSnap(2.0 * (Max(hi - centre, centre - lo) + 0.01 + margin), g), MIN_BOARD)
  }

  /** A courtyard within the bounds, re-centred and rounded, stays inside the margin of any side at least the fitted
      one. */
  lemma FitsOnAxis(lo: real, hi: real, centre: real, margin: real, g: real, x: real, half: real, side: real)
    requires g > 0.0 && lo <= x - half && x + half <= hi
    requires side >= FitSide(lo, hi, centre, margin, g)
    ensures Abs(Round2(x - centre)) + half <= side / 2.0 - margin
  {
    CeilSnapAbove(2.0 * (Max(hi - centre, centre - lo) + 0.01 + margin), g);
    Round2Close(x - centre);
    hide CeilSnap, Round2;
  }

  lemma FitSideExceedsMargins(lo: real, hi: real, centre: real, margin: real, g: real)
    requires g > 0.0 && lo <= hi
    ensures FitSide(lo, hi, centre, margin, g) > 2.0 * margin && FitSide(lo, hi, centre, margin, g) >= MIN_BOARD
  {
    CeilSnapAbove(2.0 * (Max(hi - centre, centre - lo) + 0.01 + margin), g);
    hide CeilSnap;
  }

  ghost function Usable(w: real, h: real, margin: real): real {
    (w - 2.0 * margin) * (h - 2.0 * margin)
  }

  /** Scaling both sides by k >= 1, margins fixed, scales the usable area by at least k squared. */
  lemma GrowthCoversArea(w: real, h: real, margin: real, k: real, w': real, h': real)
    requires margin >= 0.0 && k >= 1.0 && w > 2.0 * margin && h > 2.0 * margin
    requires w' >= w * k && h' >= h * k
    ensures Usable(w', h', margin) >= k * k * Usable(w, h, margin)
  {
    var u, v := w - 2.0 * margin, h - 2.0 * margin;
    GrownSide(w, margin, k, w');
    GrownSide(h, margin, k, h');
    ProductMonotone(k * u, k * v, w' - 2.0 * margin, h' - 2.0 * margin);
    Regroup(k, u, v);
  }

  lemma GrownSide(w: real, margin: real, k: real, w': real)
    requires margin >= 0.0 && k >= 1.0 && w > 2.0 * margin && w' >= w * k
    ensures 0.0 <= k * (w - 2.0 * margin) <= w' - 2.0 * margin && w' >= w
  {
    assert (k - 1.0) * (2.0 * margin) >= 0.0;
    assert (k - 1.0) * w >= 0.0;
    assert k * (w - 2.0 * margin) >= 0.0;
  }

  lemma Regroup(k: real, u: real, v: real)
    ensures (k * u) * (k * v) == k * k * (u * v)
  {
  }

  /** An emitted courtyard: rounded centre relative to the board centre. */
  function Emitted(b: Box, cx: real, cy: real): Box {
    Box(Round2(b.x - cx), Round2(b.y - cy), b.hw, b.hh)
  }

  /** Size the emitted board.  Whichever branch sets it, every emitted courtyard is inside its margin, and the parts
      with their spacing take up at most the routing share of what is usable. */
  method ShrinkToFit(parts: seq<Part>, st: State, grid: real, margin: real, spacing: real, sqrt: real -> real)
    returns (w: real, h: real, cx: real, cy: real, bd: Bounds)
    requires |parts| > 0 && ValidParts(parts) && st.Valid(|parts|) && grid > 0.0 && margin > 0.0 && IsSqrt(sqrt)
    ensures Bounding(bd, st.Boxes(parts), |parts|) && Touched(bd, st.Boxes(parts), |parts|)
    ensures cx == Snap((bd.minX + bd.maxX) / 2.0, grid) && cy == Snap((bd.minY + bd.maxY) / 2.0, grid)
    ensures SidesFor(FitSide(bd.minX, bd.maxX, cx, margin, grid), FitSide(bd.minY, bd.maxY, cy, margin, grid),
                     margin, grid,
                     Area(parts, spacing, |parts|), w, h)
    ensures w >= MIN_BOARD && h >= MIN_BOARD
    ensures forall i :: 0 <= i < |parts| ==>
              Inside(Emitted(st.Boxes(parts)[i], cx, cy), Board(w, h, grid, margin, spacing))
    ensures Area(parts, spacing, |parts|) <= ROUTE_UTIL * Usable(w, h, margin)
  {
    hide FitSide, Bounding, Touched, SidesFor, Inside, Emitted, Snap;
    var area := TotalArea(parts, spacing);
    bd := BoundsOf(parts, st);
    cx := Snap((bd.minX + bd.maxX) / 2.0, grid);
    cy := Snap((bd.minY + bd.maxY) / 2.0, grid);
    var fitW := FitSide(bd.minX, bd.maxX, cx, margin, grid);
    var fitH := FitSide(bd.minY, bd.maxY, cy, margin, grid);
    FitSideExceedsMargins(bd.minX, bd.maxX, cx, margin, grid);
    FitSideExceedsMargins(bd.minY, bd.maxY, cy, margin, grid);
    w, h := RoutingRoom(fitW, fitH, margin, grid, area, sqrt);
    EmittedInside(bd, st.Boxes(parts), Board(w, h, grid, margin, spacing), cx, cy);
  }

  /** Sides at least the fitted ones hold every emitted courtyard. */
  lemma EmittedInside(bd: Bounds, boxes: seq<Box>, board: Board, cx: real, cy: real)
    requires board.grid > 0.0 && Bounding(bd, boxes, |boxes|)
    requires board.w >= FitSide(bd.minX, bd.maxX, cx, board.margin, board.grid)
    requires board.h >= FitSide(bd.minY, bd.maxY, cy, board.margin, board.grid)
    ensures forall i :: 0 <= i < |boxes| ==> Inside(Emitted(boxes[i], cx, cy), board)
  {
    hide FitSide, Bounding, Round2;
    forall i | 0 <= i < |boxes|
      ensures Inside(Emitted(boxes[i], cx, cy), board)
    {
      var b := boxes[i];
      WithinBounds(bd, boxes, i);
      FitsOnAxis(bd.minX, bd.maxX, cx, board.margin, board.grid, b.x, b.hw, board.w);
      FitsOnAxis(bd.minY, bd.maxY, cy, board.margin, board.grid, b.y, b.hh, board.h);
    }
  }

  lemma WithinBounds(bd: Bounds, boxes: seq<Box>, i: nat)
    requires i < |boxes| && Bounding(bd, boxes, |boxes|)
    ensures bd.minX <= boxes[i].x - boxes[i].hw && boxes[i].x + boxes[i].hw <= bd.maxX
    ensures bd.minY <= boxes[i].y - boxes[i].hh && boxes[i].y + boxes[i].hh <= bd.maxY
  {
  }

  /** The fitted sides when they leave routing room; otherwise both scaled to leave exactly enough, and rounded up. */
  ghost predicate SidesFor(fitW: real, fitH: real, margin: real, grid: real, area: real, w: real, h: real)
    requires grid > 0.0
  {
    if area <= ROUTE_UTIL * Usable(fitW, fitH, margin) then w == fitW && h == fitH
    else exists k: real ::
      Scales(k, fitW, fitH, margin, area) && w == CeilSnap(fitW * k, grid) && h == CeilSnap(fitH * k, grid)
  }

  ghost predicate Scales(k: real, fitW: real, fitH: real, margin: real, area: real) {
    k >= 0.0 && ROUTE_UTIL * (k * k * Usable(fitW, fitH, margin)) == area
  }

  /** A fitted side is what the courtyards, their margins and the rounding allowance need, or less than one grid step
      more, unless the smallest board is longer. */
  lemma FitSideIsTight(lo: real, hi: real, centre: real, margin: real, g: real)
    requires g > 0.0
    ensures var side := FitSide(lo, hi, centre, margin, g);
            var need := 2.0 * (Max(hi - centre, centre - lo) + 0.01 + margin);
            side >= need && side >= 20.0 && (side == 20.0 || side < need + g)
  {
    CeilSnapAbove(2.0 * (Max(hi - centre, centre - lo) + 0.01 + margin), g);
    CeilSnapTight(2.0 * (Max(hi - centre, centre - lo) + 0.01 + margin), g);
    hide CeilSnap;
  }

  lemma CeilSnapTight(v: real, g: real)
    requires g > 0.0
    ensures CeilSnap(v, g) < v + g
  {
    var n := Ceil(v / g) as real;
    assert n < v / g + 1.0;
    QuotientTimes(v, g);
    ScalePositive(g, v / g + 1.0 - n);
    assert g * (v / g + 1.0 - n) == v + g - n * g;
  }

  /** Keep the fitted sides, or scale them up until the parts take no more than the routing share. */
  method RoutingRoom(fitW: real, fitH: real, margin: real, grid: real, area: real, sqrt: real -> real)
    returns (w: real, h: real)
    requires grid > 0.0 && margin > 0.0 && fitW > 2.0 * margin && fitH > 2.0 * margin && IsSqrt(sqrt)
    ensures SidesFor(fitW, fitH, margin, grid, area, w, h)
    ensures w >= fitW && h >= fitH && area <= ROUTE_UTIL * Usable(w, h, margin)
  {
    hide SidesFor, CeilSnap, Scales;
    var usable := (fitW - 2.0 * margin) * (fitH - 2.0 * margin);
    w, h := fitW, fitH;
    if usable > 0.0 && area / usable > ROUTE_UTIL {
      RatioPositive(area, usable);
      var k := sqrt(area / (ROUTE_UTIL * usable));
      w, h := Grow(fitW, fitH, margin, grid, area, k);
      ScaledSides(fitW, fitH, margin, grid, area, usable, k);
    } else {
      UtilizationBelow(area, usable, fitW - 2.0 * margin, fitH - 2.0 * margin);
      KeptSides(fitW, fitH, margin, grid, area);
    }
  }

  lemma KeptSides(fitW: real, fitH: real, margin: real, grid: real, area: real)
    requires grid > 0.0 && area <= ROUTE_UTIL * Usable(fitW, fitH, margin)
    ensures SidesFor(fitW, fitH, margin, grid, area, fitW, fitH)
  {
  }

  lemma ScaledSides(fitW: real, fitH: real, margin: real, grid: real, area: real, usable: real, k: real)
    requires grid > 0.0 && usable == Usable(fitW, fitH, margin) > 0.0 && area / usable > ROUTE_UTIL
    requires k >= 0.0 && k * k == area / (ROUTE_UTIL * usable)
    ensures SidesFor(fitW, fitH, margin, grid, area, CeilSnap(fitW * k, grid), CeilSnap(fitH * k, grid))
  {
    UtilizationAbove(area, usable);
    GrowthFactor(area, usable, k);
    hide CeilSnap, Usable;
    assert Scales(k, fitW, fitH, margin, area);
  }

  lemma RatioPositive(area: real, usable: real)
    requires usable > 0.0 && area / usable > ROUTE_UTIL
    ensures area / (ROUTE_UTIL * usable) >= 0.0
  {
    QuotientTimes(area, usable);
    var r := ROUTE_UTIL * usable;
    assert area > 0.0 && r > 0.0;
    assert area / r >= 0.0;
  }

  lemma UtilizationBelow(area: real, usable: real, u: real, v: real)
    requires u > 0.0 && v > 0.0 && usable == u * v
    requires !(usable > 0.0 && area / usable > ROUTE_UTIL)
    ensures area <= ROUTE_UTIL * usable
  {
    assert usable > 0.0;
    QuotientTimes(area, usable);
  }

  lemma UtilizationAbove(area: real, usable: real)
    requires usable > 0.0 && area / usable > ROUTE_UTIL
    ensures area > ROUTE_UTIL * usable
  {
    QuotientTimes(area, usable);
    ScalePositive(usable, area / usable - ROUTE_UTIL);
    assert usable * (area / usable - ROUTE_UTIL) == area / usable * usable - ROUTE_UTIL * usable;
  }

  /** The head-room branch: both sides scaled so that the area is exactly the routing share, then rounded up. */
  method Grow(fitW: real, fitH: real, margin: real, grid: real, area: real, k: real) returns (w: real, h: real)
    requires grid > 0.0 && margin > 0.0 && fitW > 2.0 * margin && fitH > 2.0 * margin
    requires var usable := (fitW - 2.0 * margin) * (fitH - 2.0 * margin);
             usable > 0.0 && area / usable > ROUTE_UTIL && k >= 0.0 && k * k == area / (ROUTE_UTIL * usable)
    ensures w == CeilSnap(fitW * k, grid) && h == CeilSnap(fitH * k, grid)
    ensures w >= fitW && h >= fitH && area <= ROUTE_UTIL * Usable(w, h, margin)
  {
    w := CeilSnap(fitW * k, grid);
    h := CeilSnap(fitH * k, grid);
    ghost var usable := (fitW - 2.0 * margin) * (fitH - 2.0 * margin);
    GrowthFactor(area, usable, k);
    CeilSnapAbove(fitW * k, grid);
    CeilSnapAbove(fitH * k, grid);
    GrowthCoversArea(fitW, fitH, margin, k, w, h);
    GrownSide(fitW, margin, k, w);
    GrownSide(fitH, margin, k, h);
    hide CeilSnap;
  }

  lemma GrowthFactor(area: real, usable: real, k: real)
    requires usable > 0.0 && area / usable > ROUTE_UTIL && k >= 0.0 && k * k == area / (ROUTE_UTIL * usable)
    ensures k >= 1.0 && ROUTE_UTIL * (k * k * usable) == area
  {
    var r := ROUTE_UTIL * usable;
    QuotientTimes(area, usable);
    QuotientTimes(area, r);
    assert area / usable * usable > ROUTE_UTIL * usable;
    AboveOne(area, r);
    if k < 1.0 {
      ProductMonotone(k, k, 1.0, 1.0);
    }
    assert ROUTE_UTIL * (k * k * usable) == k * k * r;
  }

  lemma AboveOne(a: real, b: real)
    requires a > b > 0.0
    ensures a / b > 1.0
  {
    QuotientTimes(a, b);
  }

  /** Re-centring and rounding a legal layout costs every two courtyards at most the rounding of two centres. */
  lemma EmittedStaysApart(boxes: seq<Box>, board: Board, cx: real, cy: real, i: nat, j: nat)
    requires Legal(boxes, board) && i < |boxes| && j < |boxes| && i != j
    ensures Apart(Emitted(boxes[i], cx, cy), Emitted(boxes[j], cx, cy), board.spacing, 0.01 + EPS)
  {
    OverlapsSymmetric(board.spacing, boxes[i], boxes[j]);
    assert !Overlaps(board.spacing, boxes[i], boxes[j]);
    Round2Close(boxes[i].x - cx);
    Round2Close(boxes[i].y - cy);
    Round2Close(boxes[j].x - cx);
    Round2Close(boxes[j].y - cy);
    hide Round2;
  }

  /** Grid lines a whole number of hundredths apart are on the hundredths themselves. */
  lemma FineGrid(v: real, g: real)
    requires OnGrid(v, g) && OnGrid(g, 0.01)
    ensures OnGrid(v, 0.01)
  {
    var k: int :| v == Times(k, g);
    GridTimes(g, k, 0.01);
  }

  lemma Round2Exact(v: real)
    requires OnGrid(v, 0.01)
    ensures Round2(v) == v
  {
    var k: int :| v == Times(k, 0.01);
    RoundWhole(v * 100.0, k);
  }

  lemma RoundWhole(v: real, k: int)
    requires v == k as real
    ensures Round(v) == k
  {
  }

  /** On a grid of whole hundredths rounding changes nothing: what is emitted is the legal layout moved as a whole. */
  lemma FineGridEmitsExactly(b: Box, board: Board, cx: real, cy: real)
    requires WellPlaced(b, board) && OnGrid(board.grid, 0.01) && OnGrid(cx, board.grid) && OnGrid(cy, board.grid)
    ensures Emitted(b, cx, cy) == Box(b.x - cx, b.y - cy, b.hw, b.hh)
    ensures OnGrid(b.x - cx, board.grid) && OnGrid(b.y - cy, board.grid)
  {
    CentredOnGrid(b.x, cx, board.grid);
    CentredOnGrid(b.y, cy, board.grid);
    hide Round2, OnGrid;
  }

  lemma CentredOnGrid(v: real, c: real, g: real)
    requires OnGrid(v, g) && OnGrid(c, g) && OnGrid(g, 0.01)
    ensures OnGrid(v - c, g) && Round2(v - c) == v - c
  {
    GridNegated(c, g);
    GridPlus(v, -c, g);
    FineGrid(v - c, g);
    Round2Exact(v - c);
  }

  /** Then the spacing is kept in full, up to the placer's own tolerance. */
  lemma FineGridKeepsSpacing(boxes: seq<Box>, board: Board, cx: real, cy: real, i: nat, j: nat)
    requires Legal(boxes, board) && i < |boxes| && j < |boxes| && i != j
    requires OnGrid(board.grid, 0.01) && OnGrid(cx, board.grid) && OnGrid(cy, board.grid)
    ensures Apart(Emitted(boxes[i], cx, cy), Emitted(boxes[j], cx, cy), board.spacing, EPS)
  {
    OverlapsSymmetric(board.spacing, boxes[i], boxes[j]);
    assert !Overlaps(board.spacing, boxes[i], boxes[j]);
    FineGridEmitsExactly(boxes[i], board, cx, cy);
    FineGridEmitsExactly(boxes[j], board, cx, cy);
    hide OnGrid, Emitted;
  }
}
