/** From one relaxed layout to what is emitted: legalize, growing the board once if need be, refine, size the board to
    the parts and centre the positions on it. */
module Place {
  import opened Reals
  import opened Courtyards
  import opened Turns
  import opened Sorting
  import opened Legalizer
  import opened NetSums
  import opened Refiner
  import opened Fit

  const MAX_BOARD := 10000.0

  function Grown(b: Board): Board
    requires b.grid > 0.0
  {
    b.(w := Min(Snap(b.w * 1.4, b.grid), MAX_BOARD), h := Min(Snap(b.h * 1.4, b.grid), MAX_BOARD))
  }

  /** The larger board: both sides two fifths longer, to the nearest grid line, but no longer than the largest board. */
  lemma GrownByTwoFifths(b: Board)
    requires b.grid > 0.0
    ensures var c := Grown(b);
            && c.w <= 10000.0 && (c.w == 10000.0 || Abs(c.w - b.w * 1.4) <= b.grid / 2.0)
            && c.h <= 10000.0 && (c.h == 10000.0 || Abs(c.h - b.h * 1.4) <= b.grid / 2.0)
            && (b.w * 1.4 + b.grid / 2.0 < 10000.0 ==> c.w != 10000.0)
            && (b.h * 1.4 + b.grid / 2.0 < 10000.0 ==> c.h != 10000.0)
            && c == b.(w := c.w, h := c.h)
  {
    SnapWithin(b.w * 1.4, b.grid);
    SnapWithin(b.h * 1.4, b.grid);
    hide Snap;
  }

  lemma SnapWithin(v: real, g: real)
    requires g > 0.0
    ensures Abs(Snap(v, g) - v) <= g / 2.0
  {
    var n := Round(v / g);
    RoundIsNearest(v / g, n);
    QuotientTimes(v, g);
    var d := n as real - v / g;
    assert g * d == Snap(v, g) - v;
    ScalePositive(g, 0.5 - d);
    ScalePositive(g, 0.5 + d);
    assert g * (0.5 - d) == g / 2.0 - g * d && g * (0.5 + d) == g / 2.0 + g * d;
  }

  /** How legalizing went: the layout after the first attempt, whether that was legal, and the board used in the end. */
  datatype Attempt = Attempt(first: Layout, fits: bool, used: Board)

  /** From `wish`, legalizing leaves `out` on the board asked for; or fails there, and goes on from what that attempt
      left to `out` on the larger board. */
  ghost predicate Attempted(parts: seq<Part>, wish: Layout, b: Board, a: Attempt, out: Layout, ok: bool)
    requires b.grid > 0.0 && Sized(parts, wish) && Sized(parts, out) && Visits(AreaOrder(parts), |parts|)
  {
    && Sized(parts, a.first) && a.first.r == wish.r && out.r == wish.r
    && Outcome(parts, wish, b, AreaOrder(parts), BoxesOf(parts, a.first), a.fits)
    && if a.fits then ok && a.used == b && out == a.first
       else
         && a.used == Grown(b)
         && Outcome(parts, a.first, Grown(b), AreaOrder(parts), BoxesOf(parts, out), ok)
  }

  /** Legalize on the board asked for, and once more on a larger one if that fails. */
  method LegalizeGrowing(parts: seq<Part>, st: State, b: Board, cell: real, sqrt: real -> real)
    returns (ok: bool, used: Board, ghost a: Attempt)
    requires ValidParts(parts) && ValidBoard(b) && st.Valid(|parts|) && IsSqrt(sqrt)
    modifies st.x, st.y
    ensures Visits(AreaOrder(parts), |parts|) && used == a.used && (used == b || used == Grown(b))
    ensures Attempted(parts, old(LayoutOf(st)), b, a, LayoutOf(st), ok)
    ensures ok ==> Legal(st.Boxes(parts), used)
  {
    hide Legal, Outcome, AreaOrder, PartsClear;
    used := b;
    ok := Legalize(parts, st, b, cell, sqrt);
    a := Attempt(LayoutOf(st), ok, b);
    assert st.Boxes(parts) == BoxesOf(parts, LayoutOf(st));
    if !ok {
      used := Grown(b);
      ok := Legalize(parts, st, used, cell, sqrt);
      a := a.(used := used);
      assert st.Boxes(parts) == BoxesOf(parts, LayoutOf(st));
    }
  }

  /** What is emitted: every part's position about the board's centre, rounded, and its rotation. */
  method MakePositions(parts: seq<Part>, st: State, cx: real, cy: real) returns (out: Layout)
    requires st.Valid(|parts|)
    ensures Sized(parts, out) && out.r == st.r[..]
    ensures forall i :: 0 <= i < |parts| ==> out.x[i] == Round2(st.x[i] - cx) && out.y[i] == Round2(st.y[i] - cy)
    ensures forall i :: 0 <= i < |parts| ==> EmittedBox(parts, out, i) == Emitted(st.Boxes(parts)[i], cx, cy)
  {
    var xs, ys := [], [];
    for i := 0 to |parts|
      invariant |xs| == |ys| == i
      invariant forall k :: 0 <= k < i ==> xs[k] == Round2(st.x[k] - cx) && ys[k] == Round2(st.y[k] - cy)
    {
      xs := xs + [Round2(st.x[i] - cx)];
      ys := ys + [Round2(st.y[i] - cy)];
    }
    out := Layout(xs, ys, st.r[..]);
    forall i | 0 <= i < |parts|
      ensures EmittedBox(parts, out, i) == Emitted(st.Boxes(parts)[i], cx, cy)
    {
      assert st.Boxes(parts)[i] == st.BoxOf(parts[i], i);
    }
  }

  ghost function EmittedBox(parts: seq<Part>, out: Layout, i: nat): Box
    requires Sized(parts, out) && i < |parts|
  {
    BoxAt(parts[i], out.r[i], out.x[i], out.y[i])
  }

  /** The promises of an emitted board, in terms of the parts' own rectangles: each, turned and set down as emitted,
      lies inside the margin; any two keep their spacing on one axis to within `slack`; and there is room to route. */
  ghost predicate Promised(parts: seq<Part>, out: Layout, board: Board, slack: real) {
    && Sized(parts, out)
    && PartsClear(parts, out, board, board.spacing - slack)
    && Area(parts, board.spacing, |parts|) <= 0.45 * Usable(board.w, board.h, board.margin)
    && board.w >= 20.0 && board.h >= 20.0
  }

  /** What the wire-length guard makes of the refinement passes over a legal layout. */
  ghost predicate IsRefined(parts: seq<Part>, legal: Layout, passes: nat, used: Board, weights: map<Net, real>,
                            sqrt: real -> real, hpwl: Layout -> real, refined: Layout)
    requires used.grid > 0.0 && Sized(parts, legal)
  {
    var fine := AfterPasses(parts, legal, used, weights, sqrt, passes);
    refined == if hpwl(fine) > hpwl(legal) + EPS then legal else fine
  }

  /** The layout emitted from, the smallest rectangle around its courtyards, and the centre taken. */
  datatype Emission = Emission(refined: Layout, bounds: Bounds, cx: real, cy: real)

  /** Every part is emitted where the refined layout has it, about the grid point nearest to the middle of the
      courtyards, rounded, on a board of the fitted sides or those with room to route. */
  ghost predicate Emits(parts: seq<Part>, e: Emission, board: Board, out: Layout)
    requires board.grid > 0.0
  {
    var bd := e.bounds;
    && Sized(parts, e.refined) && Sized(parts, out) && out.r == e.refined.r
    && Bounding(bd, BoxesOf(parts, e.refined), |parts|) && Touched(bd, BoxesOf(parts, e.refined), |parts|)
    && e.cx == Snap((bd.minX + bd.maxX) / 2.0, board.grid) && e.cy == Snap((bd.minY + bd.maxY) / 2.0, board.grid)
    && (forall i :: 0 <= i < |parts| ==>
         out.x[i] == Round2(e.refined.x[i] - e.cx) && out.y[i] == Round2(e.refined.y[i] - e.cy))
    && SidesFor(FitSide(bd.minX, bd.maxX, e.cx, board.margin, board.grid),
                FitSide(bd.minY, bd.maxY, e.cy, board.margin, board.grid),
                board.margin, board.grid, Area(parts, board.spacing, |parts|), board.w, board.h)
  }

  /** Whatever the relaxed layout, the measure of wire length and the number of passes: what is emitted keeps its
      promises, with the rounding as slack, or with none when the grid is a whole number of hundredths. */
  method PlaceFrom(parts: seq<Part>, st: State, b: Board, cell: real, passes: nat, weights: map<Net, real>,
                   sqrt: real -> real, hpwl: Layout -> real)
    returns (ok: bool, out: Layout, board: Board, ghost a: Attempt, ghost legal: Layout, ghost e: Emission)
    requires |parts| > 0 && ValidParts(parts) && ValidBoard(b) && b.margin > 0.0 && st.Valid(|parts|) && IsSqrt(sqrt)
    modifies st.x, st.y
    ensures ok ==> board == b.(w := board.w, h := board.h) && out.r == st.r[..]
    ensures ok ==> Promised(parts, out, board, 0.010000001)
    ensures ok && OnGrid(b.grid, 0.01) ==> Promised(parts, out, board, 0.000000001)
    ensures !ok ==> out == Layout([], [], []) && board == b
    ensures Visits(AreaOrder(parts), |parts|) && Sized(parts, legal)
    ensures Attempted(parts, old(LayoutOf(st)), b, a, legal, ok)
    ensures ok ==> IsRefined(parts, legal, passes, a.used, weights, sqrt, hpwl, e.refined)
    ensures ok ==> Emits(parts, e, board, out)
  {
    hide Legal, AfterPasses, Promised, Emits, Attempted;
    var used;
    ok, used, a := LegalizeGrowing(parts, st, b, cell, sqrt);
    legal := LayoutOf(st);
    if !ok {
      out, board := Layout([], [], []), b;
      e := Emission(legal, Bounds(0.0, 0.0, 0.0, 0.0), 0.0, 0.0);
      return;
    }
    Refine(parts, st, passes, used, cell, weights, sqrt, hpwl);
    out, board, e := Emit(parts, st, b, used, sqrt);
  }

  /** Size the board to the refined parts and centre them on it. */
  method Emit(parts: seq<Part>, st: State, b: Board, ghost used: Board, sqrt: real -> real)
    returns (out: Layout, board: Board, ghost e: Emission)
    requires |parts| > 0 && ValidParts(parts) && ValidBoard(b) && b.margin > 0.0 && st.Valid(|parts|) && IsSqrt(sqrt)
    requires used == b.(w := used.w, h := used.h) && Legal(st.Boxes(parts), used)
    ensures board == b.(w := board.w, h := board.h) && out.r == st.r[..]
    ensures e.refined == LayoutOf(st) && Emits(parts, e, board, out)
    ensures Promised(parts, out, board, 0.01 + EPS)
    ensures OnGrid(b.grid, 0.01) ==> Promised(parts, out, board, EPS)
  {
    hide Legal, SidesFor, FitSide, Bounding, Touched, Promised, Inside, Emitted, Usable, Area, PartsClear, EmittedBox;
    var w, h, cx, cy, bd := ShrinkToFit(parts, st, b.grid, b.margin, b.spacing, sqrt);
    e := Emission(LayoutOf(st), bd, cx, cy);
    assert st.Boxes(parts) == BoxesOf(parts, LayoutOf(st));
    out := MakePositions(parts, st, cx, cy);
    board := b.(w := w, h := h);
    SnapOnGrid((bd.minX + bd.maxX) / 2.0, b.grid);
    SnapOnGrid((bd.minY + bd.maxY) / 2.0, b.grid);
    EmittedIsPromised(parts, st.Boxes(parts), used, board, cx, cy, out);
  }

  lemma EmittedIsPromised(parts: seq<Part>, boxes: seq<Box>, used: Board, board: Board, cx: real, cy: real, out: Layout)
    requires Legal(boxes, used) && OnGrid(cx, used.grid) && OnGrid(cy, used.grid)
    requires used == board.(w := used.w, h := used.h) && Sized(parts, out) && |boxes| == |parts|
    requires forall i :: 0 <= i < |parts| ==> EmittedBox(parts, out, i) == Emitted(boxes[i], cx, cy)
    requires forall i :: 0 <= i < |parts| ==> Inside(Emitted(boxes[i], cx, cy), board)
    requires Area(parts, board.spacing, |parts|) <= ROUTE_UTIL * Usable(board.w, board.h, board.margin)
    requires board.w >= MIN_BOARD && board.h >= MIN_BOARD
    ensures Promised(parts, out, board, 0.01 + EPS)
    ensures OnGrid(board.grid, 0.01) ==> Promised(parts, out, board, EPS)
  {
    hide Legal, OnGrid, Inside, Usable, Area, Apart, Emitted, PartsClear, BoxAt;
    forall i, j | 0 <= i < |parts| && 0 <= j < |parts| && i != j
      ensures Apart(EmittedBox(parts, out, i), EmittedBox(parts, out, j), board.spacing, 0.01 + EPS)
      ensures OnGrid(board.grid, 0.01) ==>
                Apart(EmittedBox(parts, out, i), EmittedBox(parts, out, j), board.spacing, EPS)
    {
      EmittedStaysApart(boxes, used, cx, cy, i, j);
      if OnGrid(used.grid, 0.01) {
        FineGridKeepsSpacing(boxes, used, cx, cy, i, j);
      }
    }
    EmittedClear(parts, out, board, 0.01 + EPS);
    if OnGrid(board.grid, 0.01) {
      EmittedClear(parts, out, board, EPS);
    }
  }

  lemma EmittedClear(parts: seq<Part>, out: Layout, board: Board, slack: real)
    requires Sized(parts, out) && forall i :: 0 <= i < |parts| ==> Inside(EmittedBox(parts, out, i), board)
    requires forall i, j :: 0 <= i < |parts| && 0 <= j < |parts| && i != j ==>
               Apart(EmittedBox(parts, out, i), EmittedBox(parts, out, j), board.spacing, slack)
    ensures PartsClear(parts, out, board, board.spacing - slack)
  {
    hide Inside, Apart, PartsClear, BoxAt;
    forall i | 0 <= i < |parts|
      ensures Inside(BoxAt(parts[i], out.r[i], out.x[i], out.y[i]), board)
    {
      assert Inside(EmittedBox(parts, out, i), board);
    }
    forall i, j | 0 <= i < |parts| && 0 <= j < |parts| && i != j
      ensures Apart(BoxAt(parts[i], out.r[i], out.x[i], out.y[i]), BoxAt(parts[j], out.r[j], out.x[j], out.y[j]),
                    board.spacing, slack)
    {
      assert Apart(EmittedBox(parts, out, i), EmittedBox(parts, out, j), board.spacing, slack);
    }
    CourtyardsClear(parts, out, board, slack);
  }
}
