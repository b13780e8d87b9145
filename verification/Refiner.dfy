/** The refinement pass: each part may step to a nearby grid cell that strictly lowers its own pad cost and stays
    clear of every other courtyard.  Clearance is tested against grid neighbours only.  */
module Refiner {
  import opened Reals
  import opened Spatial
  import opened Courtyards
  import opened Turns
  import opened Sorting
  import opened NetSums

  /** The twelve steps a part may try, in grid units. */
  const OFFSETS: seq<(int, int)> := [
    (1, 0), (-1, 0), (0, 1), (0, -1),
    (1, 1), (1, -1), (-1, 1), (-1, -1),
    (2, 0), (-2, 0), (0, 2), (0, -2)]

  function IdOrder(parts: seq<Part>): (order: seq<nat>) {
    SortBy(Range(|parts|), ById(parts))
  }

  function ById(parts: seq<Part>): (nat, nat) -> bool {
    (i: nat, j: nat) => StringLess(IdAt(parts, i), IdAt(parts, j))
  }

  /** Parts take their turns by id, and by position where they share one. */
  lemma TurnsGoById(parts: seq<Part>, k: nat, l: nat)
    requires k < l < |parts|
    ensures |IdOrder(parts)| == |parts| && IdOrder(parts)[k] < |parts| && IdOrder(parts)[l] < |parts|
    ensures var i, j := IdOrder(parts)[k], IdOrder(parts)[l];
            StringLess(parts[i].id, parts[j].id) || (parts[i].id == parts[j].id && i < j)
  {
    IdOrderVisits(parts);
    ByIdIsStrict(parts);
    IndicesSorted(Range(|parts|), ById(parts));
    var i, j := IdOrder(parts)[k], IdOrder(parts)[l];
    assert !Stably(ById(parts))(j, i);
    StringsOrdered(parts[i].id, parts[j].id, parts[i].id);
  }

  lemma ByIdIsStrict(parts: seq<Part>)
    ensures StrictOrder(ById(parts))
  {
    hide IdAt, StringLess;
    forall i: nat, j: nat, k: nat
      ensures ById(parts)(i, j) ==> !ById(parts)(j, i)
      ensures ById(parts)(i, j) && ById(parts)(j, k) ==> ById(parts)(i, k)
      ensures ById(parts)(i, k) ==> ById(parts)(i, j) || ById(parts)(j, k)
    {
      StringsOrdered(IdAt(parts, i), IdAt(parts, j), IdAt(parts, k));
    }
  }

  lemma IdOrderVisits(parts: seq<Part>)
    ensures Visits(IdOrder(parts), |parts|)
  {
    SortedRangeVisits(|parts|, IdOrder(parts));
  }

  ghost predicate ClearOf(me: Box, boxes: seq<Box>, i: nat, spacing: real) {
    forall j :: 0 <= j < |boxes| && j != i ==> !Overlaps(spacing, me, boxes[j])
  }

  /** Grid neighbours are enough to decide whether a position is clear of all other parts. */
  method IsClear(me: Box, i: nat, spacing: real, grid: Grid, boxes: array<Box>) returns (legal: bool)
    requires spacing >= 0.0 && me.hw >= 0.0 && me.hh >= 0.0
    requires grid.Valid() && Holds(grid.entries, boxes[..], spacing)
    ensures legal <==> ClearOf(me, boxes[..], i, spacing)
  {
    var raw := grid.Neighbors(Inflated(me, spacing / 2.0), []);
    var neigh := SortDedup(raw);
    for n := 0 to |neigh|
      invariant forall m :: 0 <= m < n && neigh[m] != i && neigh[m] < boxes.Length ==>
        !Overlaps(spacing, me, boxes[neigh[m]])
    {
      var j := neigh[n];
      assert j in raw[0..];
      if j != i {
        if Overlaps(spacing, me, boxes[j]) {
          assert boxes[..][j] == boxes[j];
          return false;
        }
      }
    }
    forall j | 0 <= j < boxes.Length && j != i
      ensures !Overlaps(spacing, me, boxes[j])
    {
      assert (j, Inflated(boxes[..][j], spacing / 2.0)) in grid.entries;
      var k :| 0 <= k < |grid.entries| && grid.entries[k] == (j, Inflated(boxes[j], spacing / 2.0));
      OverlapsSymmetric(spacing, me, boxes[j]);
      OverlapMeansMeet(spacing, boxes[j], me);
    }
    return true;
  }

  /** Moving one part in a legal layout to a clear, well-placed position keeps the layout legal. */
  lemma MoveKeepsLegal(boxes: seq<Box>, b: Board, i: nat, box: Box)
    requires Legal(boxes, b) && i < |boxes|
    requires WellPlaced(box, b) && ClearOf(box, boxes, i, b.spacing)
    ensures Legal(boxes[i := box], b)
  {
    var boxes' := boxes[i := box];
    forall j, k | 0 <= j < k < |boxes|
      ensures !Overlaps(b.spacing, boxes'[j], boxes'[k])
    {
      OverlapsSymmetric(b.spacing, box, boxes[j]);
    }
  }

  /** A step from a grid position, clamped to the part's reach, is on the grid and inside the margin. */
  lemma StepWellPlaced(p: Part, r: int, x: real, y: real, b: Board, ox: int, oy: int)
    requires b.grid > 0.0 && OnGrid(x, b.grid) && OnGrid(y, b.grid)
    requires var (hw, hh) := HalfExtents(p, r);
             Reach(b.w, b.margin, hw, b.grid) >= 0.0 && Reach(b.h, b.margin, hh, b.grid) >= 0.0
    ensures var (px, py) := Stepped(p, r, x, y, b, ox, oy); WellPlaced(BoxAt(p, r, px, py), b)
  {
    hide Reach, OnGrid, SteppedAlong;
    var (hw, hh) := HalfExtents(p, r);
    StepOnAxis(x, ox, b.w, b.margin, hw, b.grid);
    StepOnAxis(y, oy, b.h, b.margin, hh, b.grid);
  }

  lemma StepOnAxis(x: real, n: int, side: real, margin: real, half: real, g: real)
    requires g > 0.0 && OnGrid(x, g) && Reach(side, margin, half, g) >= 0.0
    ensures var v := SteppedAlong(x, n, side, margin, half, g);
            OnGrid(v, g) && Abs(v) + half <= side / 2.0 - margin
  {
    ReachFits(side, margin, half, g);
    StepOnGrid(x, n, Reach(side, margin, half, g), g);
  }

  lemma StepOnGrid(x: real, n: int, m: real, g: real)
    requires OnGrid(x, g) && OnGrid(m, g)
    ensures OnGrid(ClampReal(x + n as real * g, -m, m), g)
  {
    assert OnGrid(n as real * g, g) by {
      assert n as real * g == Times(n, g);
    }
    GridPlus(x, n as real * g, g);
    GridNegated(m, g);
  }

  function Stepped(p: Part, r: int, x: real, y: real, b: Board, ox: int, oy: int): (real, real)
    requires b.grid > 0.0
  {
    var (hw, hh) := HalfExtents(p, r);
    (SteppedAlong(x, ox, b.w, b.margin, hw, b.grid), SteppedAlong(y, oy, b.h, b.margin, hh, b.grid))
  }

  /** `n` grid cells along one axis, but no further than the reach. */
  function SteppedAlong(x: real, n: int, side: real, margin: real, half: real, g: real): real
    requires g > 0.0
  {
    var max := Reach(side, margin, half, g);
    ClampReal(x + n as real * g, -max, max)
  }

  // ------------------------------------------------------------------------------------------------------
  // The pass
  // ------------------------------------------------------------------------------------------------------

  ghost function CostHere(parts: seq<Part>, snapshot: Layout, i: nat, box: Box, r: int, weights: map<Net, real>,
                          sqrt: real -> real): real
    requires Sized(parts, snapshot) && i < |parts|
  {
    Cost(parts, snapshot, i, box.x, box.y, r, weights, sqrt, |parts[i].pads|)
  }

  /** A part that moved costs strictly less than where it came from. */
  ghost predicate Improved(parts: seq<Part>, snapshot: Layout, i: nat, was: Box, now: Box, r: int,
                           weights: map<Net, real>, sqrt: real -> real)
    requires Sized(parts, snapshot) && i < |parts|
  {
    now == was
    || CostHere(parts, snapshot, i, now, r, weights, sqrt) < CostHere(parts, snapshot, i, was, r, weights, sqrt) - EPS
  }

  // ------------------------------------------------------------------------------------------------------
  // Reference: the same search against every part
  // ------------------------------------------------------------------------------------------------------

  datatype Choice = Choice(box: Box, cost: real)

  /** Where step `k` takes a part. */
  function StepTo(p: Part, r: int, box: Box, b: Board, k: nat): Box
    requires b.grid > 0.0 && k < |OFFSETS|
  {
    var (px, py) := Stepped(p, r, box.x, box.y, b, OFFSETS[k].0, OFFSETS[k].1);
    BoxAt(p, r, px, py)
  }

  /** The first `k` steps in turn: a step is taken over the choice so far when it costs strictly less and is clear of
      every other part. */
  ghost function BestOfSteps(parts: seq<Part>, snapshot: Layout, i: nat, r: int, box: Box, b: Board, boxes: seq<Box>,
                             weights: map<Net, real>, sqrt: real -> real, k: nat): Choice
    requires b.grid > 0.0 && Sized(parts, snapshot) && i < |parts| && k <= |OFFSETS|
  {
    if k == 0 then Choice(box, CostHere(parts, snapshot, i, box, r, weights, sqrt))
    else
      var c := BestOfSteps(parts, snapshot, i, r, box, b, boxes, weights, sqrt, k - 1);
      var me := StepTo(parts[i], r, box, b, k - 1);
      var cost := CostHere(parts, snapshot, i, me, r, weights, sqrt);
      if (me.x != box.x || me.y != box.y) && cost < c.cost - EPS && ClearOf(me, boxes, i, b.spacing)
      then Choice(me, cost) else c
  }

  /** The choice is to stay, or a clear step that is strictly cheaper; no clear step is cheaper than the choice by more
      than the tolerance. */
  lemma {:induction false} ChoiceIsBest(parts: seq<Part>, snapshot: Layout, i: nat, r: int, box: Box, b: Board,
                                        boxes: seq<Box>,
                                        weights: map<Net, real>, sqrt: real -> real, k: nat)
    requires b.grid > 0.0 && Sized(parts, snapshot) && i < |parts| && k <= |OFFSETS|
    ensures var c := BestOfSteps(parts, snapshot, i, r, box, b, boxes, weights, sqrt, k);
            && c.cost == CostHere(parts, snapshot, i, c.box, r, weights, sqrt)
            && (|| c.box == box
                || (c.cost < CostHere(parts, snapshot, i, box, r, weights, sqrt) - EPS
                    && ClearOf(c.box, boxes, i, b.spacing)))
            && forall j :: 0 <= j < k && ClearOf(StepTo(parts[i], r, box, b, j), boxes, i, b.spacing) ==>
                 c.cost <= CostHere(parts, snapshot, i, StepTo(parts[i], r, box, b, j), r, weights, sqrt) + EPS
  {
    hide Cost, ClearOf, StepTo;
    if k > 0 {
      ChoiceIsBest(parts, snapshot, i, r, box, b, boxes, weights, sqrt, k - 1);
    }
  }

  /** Nearer cells are tried first; of equally near ones those along x, and then those further on first. */
  ghost predicate TriedBefore(p: (int, int), q: (int, int)) {
    var d, e := p.0 * p.0 + p.1 * p.1, q.0 * q.0 + q.1 * q.1;
    d < e || (d == e && (p.1 * p.1 < q.1 * q.1
                         || (p.1 * p.1 == q.1 * q.1 && (p.0 > q.0 || (p.0 == q.0 && p.1 > q.1)))))
  }

  /** The steps are to the twelve nearest grid cells, each once, in that order. */
  lemma StepsAreNearest(ox: int, oy: int)
    ensures (ox, oy) in OFFSETS <==> 0 < ox * ox + oy * oy <= 4
    ensures forall j, k :: 0 <= j < k < |OFFSETS| ==> TriedBefore(OFFSETS[j], OFFSETS[k])
  {
    if ox < -2 || ox > 2 || oy < -2 || oy > 2 {
      SquareBeyond(ox, oy);
    } else {
      assert (ox == 2 || ox == 1 || ox == 0 || ox == -1 || ox == -2)
        && (oy == 2 || oy == 1 || oy == 0 || oy == -1 || oy == -2);
    }
  }

  lemma SquareBeyond(ox: int, oy: int)
    requires ox < -2 || ox > 2 || oy < -2 || oy > 2
    ensures ox * ox + oy * oy > 4
  {
    assert (ox < -2 ==> ox * ox >= 9) && (ox > 2 ==> ox * ox >= 9);
    assert (oy < -2 ==> oy * oy >= 9) && (oy > 2 ==> oy * oy >= 9);
  }

  /** A step that leaves the part inside the margin ends exactly that many grid cells away. */
  lemma StepInside(p: Part, r: int, x: real, y: real, b: Board, ox: int, oy: int)
    requires b.grid > 0.0 && OnGrid(x, b.grid) && OnGrid(y, b.grid)
    requires Inside(BoxAt(p, r, x + ox as real * b.grid, y + oy as real * b.grid), b)
    ensures Stepped(p, r, x, y, b, ox, oy) == (x + ox as real * b.grid, y + oy as real * b.grid)
  {
    hide OnGrid, SteppedAlong;
    var (hw, hh) := HalfExtents(p, r);
    StepReaches(x, ox, b.w, b.margin, hw, b.grid);
    StepReaches(y, oy, b.h, b.margin, hh, b.grid);
    assert Stepped(p, r, x, y, b, ox, oy).0 == x + ox as real * b.grid;
    assert Stepped(p, r, x, y, b, ox, oy).1 == y + oy as real * b.grid;
  }

  lemma StepReaches(x: real, n: int, side: real, margin: real, half: real, g: real)
    requires g > 0.0 && OnGrid(x, g) && Abs(x + n as real * g) + half <= side / 2.0 - margin
    ensures SteppedAlong(x, n, side, margin, half, g) == x + n as real * g
  {
    hide Reach, OnGrid;
    assert OnGrid(n as real * g, g) by {
      OneStepOnGrid(g);
      GridTimes(g, n, g);
    }
    GridPlus(x, n as real * g, g);
    GridNegated(x + n as real * g, g);
    ReachIsFurthest(side, margin, half, g, x + n as real * g);
    ReachIsFurthest(side, margin, half, g, -(x + n as real * g));
  }

  lemma OneStepOnGrid(g: real)
    ensures OnGrid(g, g)
  {
    assert g == Times(1, g);
  }

  /** Of all grid cells within two of the part's own, none that is inside the margin and clear of every other part costs
      less than the choice, to within the tolerance. */
  lemma NoNearCellIsBetter(parts: seq<Part>, snapshot: Layout, i: nat, r: int, box: Box, b: Board, boxes: seq<Box>,
                           weights: map<Net, real>, sqrt: real -> real, ox: int, oy: int)
    requires b.grid > 0.0 && Sized(parts, snapshot) && i < |parts| && box == BoxAt(parts[i], r, box.x, box.y)
    requires OnGrid(box.x, b.grid) && OnGrid(box.y, b.grid) && ox * ox + oy * oy <= 4
    requires var me := BoxAt(parts[i], r, box.x + ox as real * b.grid, box.y + oy as real * b.grid);
             Inside(me, b) && ClearOf(me, boxes, i, b.spacing)
    ensures var me := BoxAt(parts[i], r, box.x + ox as real * b.grid, box.y + oy as real * b.grid);
            BestOfSteps(parts, snapshot, i, r, box, b, boxes, weights, sqrt, |OFFSETS|).cost
            <= CostHere(parts, snapshot, i, me, r, weights, sqrt) + EPS
  {
    var me := BoxAt(parts[i], r, box.x + ox as real * b.grid, box.y + oy as real * b.grid);
    hide OnGrid, ClearOf, Inside, Stepped, CostHere, BestOfSteps;
    ChoiceIsBest(parts, snapshot, i, r, box, b, boxes, weights, sqrt, |OFFSETS|);
    if ox == 0 && oy == 0 {
      assert me == box;
    } else {
      NonZeroSquares(ox, oy);
      StepsAreNearest(ox, oy);
      var k :| 0 <= k < |OFFSETS| && OFFSETS[k] == (ox, oy);
      StepInside(parts[i], r, box.x, box.y, b, ox, oy);
      assert StepTo(parts[i], r, box, b, k) == me;
    }
  }

  lemma NonZeroSquares(ox: int, oy: int)
    requires ox != 0 || oy != 0
    ensures ox * ox + oy * oy > 0
  {
    assert ox * ox >= 0 && oy * oy >= 0;
    assert ox != 0 ==> ox * ox > 0;
  }

  /** One part's turn in a pass. */
  ghost function RefinedPart(parts: seq<Part>, snapshot: Layout, l: Layout, b: Board, i: nat, weights: map<Net, real>,
                             sqrt: real -> real): (l': Layout)
    requires b.grid > 0.0 && Sized(parts, snapshot) && Sized(parts, l) && i < |parts|
    ensures Sized(parts, l') && l'.r == l.r
  {
    var boxes := BoxesOf(parts, l);
    var box := boxes[i];
    if |parts[i].pads| < 2 || Reach(b.w, b.margin, box.hw, b.grid) < 0.0 || Reach(b.h, b.margin, box.hh, b.grid) < 0.0
    then l
    else
      var c := BestOfSteps(parts, snapshot, i, l.r[i], box, b, boxes, weights, sqrt, |OFFSETS|);
      l.(x := l.x[i := c.box.x], y := l.y[i := c.box.y])
  }

  /** The first `k` turns of a pass. */
  ghost function RefinedTo(parts: seq<Part>, snapshot: Layout, l: Layout, b: Board, order: seq<nat>, k: nat,
                           weights: map<Net, real>,
                           sqrt: real -> real): (l': Layout)
    requires b.grid > 0.0 && Sized(parts, snapshot) && Sized(parts, l) && k <= |order|
    requires forall m :: 0 <= m < |order| ==> order[m] < |parts|
    ensures Sized(parts, l') && l'.r == l.r
  {
    if k == 0 then l
    else RefinedPart(parts, snapshot, RefinedTo(parts, snapshot, l, b, order, k - 1, weights, sqrt), b, order[k - 1],
      weights, sqrt)
  }

  /** One turn moves no other part, and its own only for a strictly lower cost. */
  lemma TurnImproves(parts: seq<Part>, snapshot: Layout, l: Layout, b: Board, i: nat, weights: map<Net, real>,
                     sqrt: real -> real)
    requires b.grid > 0.0 && Sized(parts, snapshot) && Sized(parts, l) && i < |parts|
    ensures var l' := RefinedPart(parts, snapshot, l, b, i, weights, sqrt);
            && (forall j :: 0 <= j < |parts| && j != i ==> BoxesOf(parts, l')[j] == BoxesOf(parts, l)[j])
            && Improved(parts, snapshot, i, BoxesOf(parts, l)[i], BoxesOf(parts, l')[i], l.r[i], weights, sqrt)
  {
    hide Reach, Cost;
    ChoiceIsBest(parts, snapshot, i, l.r[i], BoxesOf(parts, l)[i], b, BoxesOf(parts, l), weights, sqrt, |OFFSETS|);
  }

  /** Over a pass every part stays or ends strictly cheaper than it began, measured against the snapshot. */
  lemma {:induction false} PassImproves(parts: seq<Part>, snapshot: Layout, l: Layout, b: Board, order: seq<nat>,
                                        k: nat, weights: map<Net, real>,
                                        sqrt: real -> real, i: nat)
    requires b.grid > 0.0 && Sized(parts, snapshot) && Sized(parts, l) && k <= |order| && Visits(order, |parts|)
    requires i < |parts|
    ensures var now := BoxesOf(parts, RefinedTo(parts, snapshot, l, b, order, k, weights, sqrt))[i];
            && Improved(parts, snapshot, i, BoxesOf(parts, l)[i], now, l.r[i], weights, sqrt)
            && (i !in order[..k] ==> now == BoxesOf(parts, l)[i])
  {
    hide RefinedPart, Cost;
    if k > 0 {
      PassImproves(parts, snapshot, l, b, order, k - 1, weights, sqrt, i);
      TurnImproves(parts, snapshot, RefinedTo(parts, snapshot, l, b, order, k - 1, weights, sqrt), b, order[k - 1],
        weights, sqrt);
      assert order[..k] == order[..k - 1] + [order[k - 1]];
      assert order[k - 1] !in order[..k - 1];
    }
  }

  ghost function AfterPass(parts: seq<Part>, snapshot: Layout, l: Layout, b: Board, weights: map<Net, real>,
                           sqrt: real -> real): (l': Layout)
    requires b.grid > 0.0 && Sized(parts, snapshot) && Sized(parts, l)
    ensures Sized(parts, l') && l'.r == l.r
  {
    IdOrderVisits(parts);
    RefinedTo(parts, snapshot, l, b, IdOrder(parts), |IdOrder(parts)|, weights, sqrt)
  }

  /** `n` passes, each scored against the layout it starts from. */
  ghost function AfterPasses(parts: seq<Part>, l: Layout, b: Board, weights: map<Net, real>, sqrt: real -> real,
                             n: nat): (l': Layout)
    requires b.grid > 0.0 && Sized(parts, l)
    ensures Sized(parts, l') && l'.r == l.r
  {
    if n == 0 then l
    else
      var p := AfterPasses(parts, l, b, weights, sqrt, n - 1);
      AfterPass(parts, p, p, b, weights, sqrt)
  }

  /** After a pass that moves nothing, further passes move nothing. */
  lemma {:induction false} SettledPasses(parts: seq<Part>, l: Layout, b: Board, weights: map<Net, real>,
                                         sqrt: real -> real, n: nat, m: nat)
    requires b.grid > 0.0 && Sized(parts, l) && n <= m
    requires var p := AfterPasses(parts, l, b, weights, sqrt, n); AfterPass(parts, p, p, b, weights, sqrt) == p
    ensures AfterPasses(parts, l, b, weights, sqrt, m) == AfterPasses(parts, l, b, weights, sqrt, n)
  {
    hide AfterPass;
    if n < m {
      SettledPasses(parts, l, b, weights, sqrt, n, m - 1);
    }
  }

  // ------------------------------------------------------------------------------------------------------
  // The pass on the grid
  // ------------------------------------------------------------------------------------------------------

  /** The best legal strict improvement among the twelve steps, or the part's own position. */
  method BestStep(parts: seq<Part>, ghost snapshot: Layout, i: nat, r: int, box: Box, b: Board, grid: Grid,
                  boxes: array<Box>,
                  weights: map<Net, real>, sqrt: real -> real, sums: Sums, own: Sums) returns (best: Box)
    requires ValidBoard(b) && Sized(parts, snapshot) && i < |parts| && box == BoxAt(parts[i], r, box.x, box.y)
    requires box.hw >= 0.0 && box.hh >= 0.0 && WellPlaced(box, b)
    requires Reach(b.w, b.margin, box.hw, b.grid) >= 0.0 && Reach(b.h, b.margin, box.hh, b.grid) >= 0.0
    requires grid.Valid() && Holds(grid.entries, boxes[..], b.spacing)
    requires HoldsTotals(sums, parts, snapshot, |parts|)
    requires HoldsOwn(own, parts[i].pads, snapshot.x[i], snapshot.y[i], snapshot.r[i], |parts[i].pads|)
    ensures best == BoxAt(parts[i], r, best.x, best.y)
    ensures best == BestOfSteps(parts, snapshot, i, r, box, b, boxes[..], weights, sqrt, |OFFSETS|).box
    ensures best != box ==> WellPlaced(best, b) && ClearOf(best, boxes[..], i, b.spacing)
  {
    hide Holds, WellPlaced, HoldsTotals, HoldsOwn, ClearOf, Reach, Cost;
    best := box;
    var bestCost := CachedCost(parts, snapshot, i, box.x, box.y, r, weights, sqrt, sums, own);
    for n := 0 to |OFFSETS|
      invariant best == BoxAt(parts[i], r, best.x, best.y)
      invariant Choice(best, bestCost) == BestOfSteps(parts, snapshot, i, r, box, b, boxes[..], weights, sqrt, n)
      invariant best != box ==> WellPlaced(best, b) && ClearOf(best, boxes[..], i, b.spacing)
    {
      var (ox, oy) := OFFSETS[n];
      var (px, py) := Stepped(parts[i], r, box.x, box.y, b, ox, oy);
      if px != box.x || py != box.y {
        var cost := CachedCost(parts, snapshot, i, px, py, r, weights, sqrt, sums, own);
        if cost < bestCost - EPS {
          var me := BoxAt(parts[i], r, px, py);
          var legal := IsClear(me, i, b.spacing, grid, boxes);
          if legal {
            PlacedOnGrid(box, b);
            StepWellPlaced(parts[i], r, box.x, box.y, b, ox, oy);
            best, bestCost := me, cost;
          }
        }
      }
    }
  }

  lemma PlacedOnGrid(box: Box, b: Board)
    requires WellPlaced(box, b)
    ensures OnGrid(box.x, b.grid) && OnGrid(box.y, b.grid)
  {
  }

  /** Move one part in the grid and in the box table. */
  method Shift(i: nat, was: Box, now: Box, spacing: real, grid: Grid, boxes: array<Box>)
    requires grid.Valid() && Holds(grid.entries, boxes[..], spacing)
    requires i < boxes.Length && boxes[i] == was && now.hw >= 0.0 && now.hh >= 0.0
    modifies grid, grid.buckets, boxes
    ensures grid.Valid() && boxes[..] == old(boxes[..])[i := now] && Holds(grid.entries, boxes[..], spacing)
  {
    assert (i, Inflated(boxes[..][i], spacing / 2.0)) in grid.entries;
    ghost var before := grid.entries;
    grid.Remove(i, Inflated(was, spacing / 2.0));
    ghost var less := grid.entries;
    grid.Insert(i, Inflated(now, spacing / 2.0));
    HoldsAfterMove(before, less, boxes[..], i, was, now, spacing);
    boxes[i] := now;
  }

  lemma HoldsAfterMove(before: seq<Entry>, less: seq<Entry>, boxes: seq<Box>, i: nat, was: Box, now: Box, spacing: real)
    requires i < |boxes| && boxes[i] == was && now.hw >= 0.0 && now.hh >= 0.0
    requires Holds(before, boxes, spacing) && OneRemoved(before, less, (i, Inflated(was, spacing / 2.0)))
    ensures Holds(less + [(i, Inflated(now, spacing / 2.0))], boxes[i := now], spacing)
  {
    var e := (i, Inflated(was, spacing / 2.0));
    var k :| 0 <= k < |before| && before[k] == e && less == before[..k] + before[k + 1..];
    forall j | 0 <= j < |boxes| && j != i
      ensures (j, Inflated(boxes[j], spacing / 2.0)) in less
    {
      var m :| 0 <= m < |before| && before[m] == (j, Inflated(boxes[j], spacing / 2.0));
      assert m < k ==> less[m] == before[m];
      assert m > k ==> less[m - 1] == before[m];
    }
    forall m | 0 <= m < |less|
      ensures less[m].0 < |boxes|
    {
      assert less[m] == if m < k then before[m] else before[m + 1];
    }
  }

  /** One pass over all parts: a legal layout stays legal, and every part ends where the reference puts it. */
  method RefinePass(parts: seq<Part>, snapshot: Layout, st: State, b: Board, cell: real, weights: map<Net, real>,
                    sqrt: real -> real) returns (moves: nat)
    requires ValidParts(parts) && ValidBoard(b) && st.Valid(|parts|) && Sized(parts, snapshot) && IsSqrt(sqrt)
    requires Legal(st.Boxes(parts), b)
    modifies st.x, st.y
    ensures Legal(st.Boxes(parts), b) && PartsClear(parts, LayoutOf(st), b, b.spacing - EPS)
    ensures LayoutOf(st) == AfterPass(parts, snapshot, old(LayoutOf(st)), b, weights, sqrt)
    ensures moves == 0 ==> LayoutOf(st) == old(LayoutOf(st))
  {
    hide Legal, Holds, HoldsTotals, IdOrder, RefinedTo, PartsClear;
    var sums := NetTotals(parts, snapshot);
    var grid := new Grid(cell, b.w, b.h, sqrt);
    var boxes := Fill(parts, st, b.spacing, grid);
    IdOrderVisits(parts);
    moves := RefineInOrder(parts, snapshot, st, b, IdOrder(parts), grid, boxes, weights, sqrt, sums);
    LegalPartsClear(parts, st, b);
  }

  method RefineInOrder(parts: seq<Part>, snapshot: Layout, st: State, b: Board, order: seq<nat>, grid: Grid,
                       boxes: array<Box>,
                       weights: map<Net, real>, sqrt: real -> real, sums: Sums) returns (moves: nat)
    requires ValidParts(parts) && ValidBoard(b) && st.Valid(|parts|) && Sized(parts, snapshot)
    requires grid.Valid() && boxes[..] == st.Boxes(parts) && Holds(grid.entries, boxes[..], b.spacing)
    requires grid.buckets as object != st.x && grid.buckets as object != st.y
    requires HoldsTotals(sums, parts, snapshot, |parts|) && Legal(st.Boxes(parts), b)
    requires forall m :: 0 <= m < |order| ==> order[m] < |parts|
    modifies st.x, st.y, grid, grid.buckets, boxes
    ensures Legal(st.Boxes(parts), b)
    ensures LayoutOf(st) == RefinedTo(parts, snapshot, old(LayoutOf(st)), b, order, |order|, weights, sqrt)
    ensures moves == 0 ==> LayoutOf(st) == old(LayoutOf(st))
  {
    hide RefinedPart, Legal, Holds, HoldsTotals;
    ghost var before := LayoutOf(st);
    moves := 0;
    for k := 0 to |order|
      invariant grid.Valid() && boxes[..] == st.Boxes(parts) && Holds(grid.entries, boxes[..], b.spacing)
      invariant Legal(st.Boxes(parts), b)
      invariant LayoutOf(st) == RefinedTo(parts, snapshot, before, b, order, k, weights, sqrt)
      invariant moves == 0 ==> LayoutOf(st) == before
    {
      var moved := RefinePart(parts, snapshot, st, b, order[k], grid, boxes, weights, sqrt, sums);
      moves := if moved then moves + 1 else moves;
    }
  }

  method RefinePart(parts: seq<Part>, snapshot: Layout, st: State, b: Board, i: nat, grid: Grid, boxes: array<Box>,
                    weights: map<Net, real>, sqrt: real -> real, sums: Sums) returns (moved: bool)
    requires ValidParts(parts) && ValidBoard(b) && st.Valid(|parts|) && Sized(parts, snapshot) && i < |parts|
    requires grid.Valid() && boxes[..] == st.Boxes(parts) && Holds(grid.entries, boxes[..], b.spacing)
    requires HoldsTotals(sums, parts, snapshot, |parts|)
    requires Legal(st.Boxes(parts), b)
    modifies st.x, st.y, grid, grid.buckets, boxes
    ensures grid.Valid() && boxes[..] == st.Boxes(parts) && Holds(grid.entries, boxes[..], b.spacing)
    ensures Legal(st.Boxes(parts), b)
    ensures LayoutOf(st) == RefinedPart(parts, snapshot, old(LayoutOf(st)), b, i, weights, sqrt)
    ensures !moved ==> LayoutOf(st) == old(LayoutOf(st))
  {
    hide Holds, HoldsTotals, ClearOf, WellPlaced, Reach, BestOfSteps, Cost;
    var p := parts[i];
    ghost var l := LayoutOf(st);
    assert BoxesOf(parts, l) == st.Boxes(parts);
    if |p.pads| < 2 {
      return false;
    }
    var box := st.BoxOf(p, i);
    if Reach(b.w, b.margin, box.hw, b.grid) < 0.0 || Reach(b.h, b.margin, box.hh, b.grid) < 0.0 {
      return false;
    }
    assert WellPlaced(st.Boxes(parts)[i], b);
    var own := OwnNetSums(p, snapshot.x[i], snapshot.y[i], snapshot.r[i]);
    var best := BestStep(parts, snapshot, i, st.r[i], box, b, grid, boxes, weights, sqrt, sums, own);
    moved := best != box;
    if moved {
      ghost var bs := st.Boxes(parts);
      MoveKeepsLegal(bs, b, i, best);
      Shift(i, box, best, b.spacing, grid, boxes);
      st.x[i] := best.x;
      st.y[i] := best.y;
      assert st.Boxes(parts) == bs[i := best];
    }
    assert LayoutOf(st) == l.(x := l.x[i := best.x], y := l.y[i := best.y]);
  }

  /** The bounded pass sequence on one board: stop when nothing moves, and undo everything if the wire length, here
      any measure of a layout, got worse.  The layout stays legal and never ends worse than it began. */
  method Refine(parts: seq<Part>, st: State, passes: nat, b: Board, cell: real, weights: map<Net, real>,
                sqrt: real -> real, hpwl: Layout -> real)
    requires ValidParts(parts) && ValidBoard(b) && st.Valid(|parts|) && IsSqrt(sqrt)
    requires Legal(st.Boxes(parts), b)
    modifies st.x, st.y
    ensures Legal(st.Boxes(parts), b)
    ensures hpwl(LayoutOf(st)) <= hpwl(old(LayoutOf(st))) + EPS
    ensures var refined := AfterPasses(parts, old(LayoutOf(st)), b, weights, sqrt, passes);
            LayoutOf(st) == if hpwl(refined) > hpwl(old(LayoutOf(st))) + EPS then old(LayoutOf(st)) else refined
  {
    hide Legal, AfterPass, PartsClear;
    if passes == 0 {
      return;
    }
    var before := LayoutOf(st);
    ghost var boxes := st.Boxes(parts);
    var n, moved := 0, true;
    while n < passes && moved
      invariant n <= passes
      invariant Legal(st.Boxes(parts), b)
      invariant LayoutOf(st) == AfterPasses(parts, before, b, weights, sqrt, n)
      invariant !moved ==> LayoutOf(st) == AfterPasses(parts, before, b, weights, sqrt, passes)
    {
      var moves := RefinePass(parts, LayoutOf(st), st, b, cell, weights, sqrt);
      moved := moves > 0;
      if !moved {
        SettledPasses(parts, before, b, weights, sqrt, n, passes);
      }
      n := n + 1;
    }
    if hpwl(LayoutOf(st)) > hpwl(before) + EPS {
      forall i | 0 <= i < st.x.Length {
        st.x[i] := before.x[i];
      }
      forall i | 0 <= i < st.y.Length {
        st.y[i] := before.y[i];
      }
      assert st.Boxes(parts) == boxes;
      assert LayoutOf(st) == before;
    }
  }
}
