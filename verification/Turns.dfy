/** What a turned part covers of the board, from its own rectangle and the turn: the half sides the placer works with
    are exactly right, and a legal layout keeps the parts themselves apart. */
module Turns {
  import opened Reals
  import opened Courtyards

  // ------------------------------------------------------------------------------------------------------
  // Turning
  // ------------------------------------------------------------------------------------------------------

  /** A quarter turn keeps lengths and goes counter-clockwise, from the x axis towards the y axis. */
  lemma QuarterTurn(x: real, y: real)
    ensures var (a, b) := Rot(90, x, y);
            a * a + b * b == x * x + y * y && x * a + y * b == 0.0 && x * b - y * a == x * x + y * y
  {
  }

  /** The other turns are repeated quarter turns, and four of them are none. */
  lemma TurnsAddUp(x: real, y: real)
    ensures Rot(0, x, y) == (x, y)
    ensures Rot(180, x, y) == Rot(90, Rot(90, x, y).0, Rot(90, x, y).1)
    ensures Rot(270, x, y) == Rot(90, Rot(180, x, y).0, Rot(180, x, y).1)
    ensures Rot(90, Rot(270, x, y).0, Rot(270, x, y).1) == (x, y)
  {
  }

  /** A point of the part's own rectangle, as the footprint is drawn. */
  ghost predicate OnPart(p: Part, u: real, v: real) {
    -p.w / 2.0 <= u <= p.w / 2.0 && -p.h / 2.0 <= v <= p.h / 2.0
  }

  /** Turned by `r` and set down at (cx, cy), the part covers the point (x, y). */
  ghost predicate Covers(p: Part, r: int, cx: real, cy: real, x: real, y: real) {
    exists u, v :: OnPart(p, u, v) && x == cx + Rot(r, u, v).0 && y == cy + Rot(r, u, v).1
  }

  /** The turned part covers exactly the rectangle of its half sides. */
  lemma CoversItsBox(p: Part, r: int, cx: real, cy: real, x: real, y: real)
    ensures var (hw, hh) := HalfExtents(p, r);
            Covers(p, r, cx, cy, x, y) <==> Abs(x - cx) <= hw && Abs(y - cy) <= hh
  {
    var (hw, hh) := HalfExtents(p, r);
    if Abs(x - cx) <= hw && Abs(y - cy) <= hh {
      var (u, v) := Rot(if r == 90 then 270 else if r == 270 then 90 else r, x - cx, y - cy);
      assert OnPart(p, u, v);
    }
  }

  // ------------------------------------------------------------------------------------------------------
  // Parts apart
  // ------------------------------------------------------------------------------------------------------

  /** Every point of the second part lies at least `gap` to the right of every point of the first. */
  ghost predicate RightOf(p: Part, r: int, px: real, py: real, q: Part, s: int, qx: real, qy: real, gap: real) {
    forall x, y, x', y' | Covers(p, r, px, py, x, y) && Covers(q, s, qx, qy, x', y') :: x' - x >= gap
  }

  ghost predicate Above(p: Part, r: int, px: real, py: real, q: Part, s: int, qx: real, qy: real, gap: real) {
    forall x, y, x', y' | Covers(p, r, px, py, x, y) && Covers(q, s, qx, qy, x', y') :: y' - y >= gap
  }

  /** The two parts, as turned and set down, are at least `gap` apart on one axis. */
  ghost predicate PartsApart(p: Part, r: int, px: real, py: real, q: Part, s: int, qx: real, qy: real, gap: real) {
    || RightOf(p, r, px, py, q, s, qx, qy, gap) || RightOf(q, s, qx, qy, p, r, px, py, gap)
    || Above(p, r, px, py, q, s, qx, qy, gap) || Above(q, s, qx, qy, p, r, px, py, gap)
  }

  /** Every point the part covers lies within the board's margin. */
  ghost predicate PartInside(p: Part, r: int, cx: real, cy: real, board: Board) {
    forall x, y | Covers(p, r, cx, cy, x, y) ::
      Abs(x) <= board.w / 2.0 - board.margin && Abs(y) <= board.h / 2.0 - board.margin
  }

  /** Of the parts themselves: each within the margin, and every two at least `gap` apart on one axis. */
  ghost predicate PartsClear(parts: seq<Part>, l: Layout, board: Board, gap: real)
    requires Sized(parts, l)
  {
    && (forall i :: 0 <= i < |parts| ==> PartInside(parts[i], l.r[i], l.x[i], l.y[i], board))
    && (forall i, j :: 0 <= i < |parts| && 0 <= j < |parts| && i != j ==>
          PartsApart(parts[i], l.r[i], l.x[i], l.y[i], parts[j], l.r[j], l.x[j], l.y[j], gap))
  }

  lemma BoxesApart(p: Part, r: int, px: real, py: real, q: Part, s: int, qx: real, qy: real, spacing: real, slack: real)
    requires Apart(BoxAt(p, r, px, py), BoxAt(q, s, qx, qy), spacing, slack)
    ensures PartsApart(p, r, px, py, q, s, qx, qy, spacing - slack)
  {
    forall x, y, x', y' | Covers(p, r, px, py, x, y) && Covers(q, s, qx, qy, x', y')
      ensures Abs(x - px) <= HalfExtents(p, r).0 && Abs(y - py) <= HalfExtents(p, r).1
      ensures Abs(x' - qx) <= HalfExtents(q, s).0 && Abs(y' - qy) <= HalfExtents(q, s).1
    {
      CoversItsBox(p, r, px, py, x, y);
      CoversItsBox(q, s, qx, qy, x', y');
    }
    hide Covers, HalfExtents;
  }

  lemma BoxInside(p: Part, r: int, cx: real, cy: real, board: Board)
    requires Inside(BoxAt(p, r, cx, cy), board)
    ensures PartInside(p, r, cx, cy, board)
  {
    forall x, y | Covers(p, r, cx, cy, x, y)
      ensures Abs(x - cx) <= HalfExtents(p, r).0 && Abs(y - cy) <= HalfExtents(p, r).1
    {
      CoversItsBox(p, r, cx, cy, x, y);
    }
    hide Covers, HalfExtents;
  }

  /** Where the courtyards of a layout keep apart and inside, the parts do. */
  lemma CourtyardsClear(parts: seq<Part>, l: Layout, board: Board, slack: real)
    requires Sized(parts, l)
    requires forall i :: 0 <= i < |parts| ==> Inside(BoxAt(parts[i], l.r[i], l.x[i], l.y[i]), board)
    requires forall i, j :: 0 <= i < |parts| && 0 <= j < |parts| && i != j ==>
               Apart(BoxAt(parts[i], l.r[i], l.x[i], l.y[i]), BoxAt(parts[j], l.r[j], l.x[j], l.y[j]),
                     board.spacing, slack)
    ensures PartsClear(parts, l, board, board.spacing - slack)
  {
    hide Apart, Inside, BoxAt, PartsApart, PartInside;
    forall i | 0 <= i < |parts|
      ensures PartInside(parts[i], l.r[i], l.x[i], l.y[i], board)
    {
      BoxInside(parts[i], l.r[i], l.x[i], l.y[i], board);
    }
    forall i, j | 0 <= i < |parts| && 0 <= j < |parts| && i != j
      ensures PartsApart(parts[i], l.r[i], l.x[i], l.y[i], parts[j], l.r[j], l.x[j], l.y[j], board.spacing - slack)
    {
      BoxesApart(parts[i], l.r[i], l.x[i], l.y[i], parts[j], l.r[j], l.x[j], l.y[j], board.spacing, slack);
    }
  }

  /** A legal layout keeps the parts themselves inside the margin and their spacing apart. */
  lemma LegalPartsClear(parts: seq<Part>, st: State, board: Board)
    requires st.Valid(|parts|) && Legal(st.Boxes(parts), board)
    ensures PartsClear(parts, LayoutOf(st), board, board.spacing - EPS)
  {
    var l, boxes := LayoutOf(st), st.Boxes(parts);
    forall i | 0 <= i < |parts|
      ensures boxes[i] == BoxAt(parts[i], l.r[i], l.x[i], l.y[i]) && Inside(boxes[i], board)
    {
      assert WellPlaced(boxes[i], board);
    }
    forall i, j | 0 <= i < |parts| && 0 <= j < |parts| && i != j
      ensures Apart(boxes[i], boxes[j], board.spacing, EPS)
    {
      OverlapsSymmetric(board.spacing, boxes[i], boxes[j]);
      assert !Overlaps(board.spacing, boxes[i], boxes[j]);
    }
    hide Legal, Apart, Inside, BoxAt;
    CourtyardsClear(parts, l, board, EPS);
  }
}
