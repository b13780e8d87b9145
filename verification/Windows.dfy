/** The window of the placer's grid: how wide a cell is, how many cells cover the window, and how far their number
    keeps to the cap meant for it. */
module Windows {
  import opened Reals

  const MAX_BUCKETS := 4000000.0

  /** The smallest cell size in use. */
  function Size(cellWanted: real): (size: real)
    ensures size > 0.0
  {
    Max(cellWanted, 0.000001)
  }

  /** Half the side of the window, and how many cells of a size it takes from end to end. */
  function Side(span: real, cellWanted: real): (side: real)
    ensures side >= span && side >= Size(cellWanted)
  {
    Max(span, Size(cellWanted))
  }

  function Across(side: real, size: real): real
    requires size > 0.0
  {
    2.0 * side / size
  }

  /** How many cells the wanted size would take. */
  function CellsWanted(cellWanted: real, spanX: real, spanY: real): real {
    var size := Size(cellWanted);
    (Across(Side(spanX, cellWanted), size) + 1.0) * (Across(Side(spanY, cellWanted), size) + 1.0)
  }

  /** Larger cells for a window that would take too many. */
  function Coarsened(size: real, want: real, sqrt: real -> real): real {
    if want <= MAX_BUCKETS then size else size * sqrt(want / MAX_BUCKETS)
  }

  function CellSize(cellWanted: real, spanX: real, spanY: real, sqrt: real -> real): real {
    Coarsened(Size(cellWanted), CellsWanted(cellWanted, spanX, spanY), sqrt)
  }

  function CellCount(side: real, size: real): (n: int)
    requires size > 0.0
    ensures n >= 1
  {
    var n := Ceil(Across(side, size)) + 1;
    if n >= 1 then n else 1
  }

  lemma Coarser(size: real, want: real, sqrt: real -> real)
    requires size > 0.0 && IsSqrt(sqrt)
    ensures Coarsened(size, want, sqrt) >= size
  {
    if want > MAX_BUCKETS {
      var factor := sqrt(want / MAX_BUCKETS);
      assert factor * factor == want / MAX_BUCKETS > 1.0;
      if factor <= 1.0 {
        ProductMonotone(factor, factor, 1.0, 1.0);
      }
      ScalePositive(size, factor - 1.0);
      assert size * (factor - 1.0) == size * factor - size;
    }
  }

  /** The size asked for is used, a millionth of a millimetre at least, while that takes no more than four million
      cells; beyond, the cells grow by the factor that brings their number before rounding back to it. */
  lemma SizeChosen(cellWanted: real, spanX: real, spanY: real, sqrt: real -> real) returns (factor: real)
    requires IsSqrt(sqrt)
    ensures var asked := if cellWanted >= 0.000001 then cellWanted else 0.000001;
            CellSize(cellWanted, spanX, spanY, sqrt) == asked * factor
    ensures var want := CellsWanted(cellWanted, spanX, spanY);
            factor >= 0.0 && factor * factor == if want > 4000000.0 then want / 4000000.0 else 1.0
  {
    var want := CellsWanted(cellWanted, spanX, spanY);
    hide CellsWanted;
    factor := if want <= MAX_BUCKETS then 1.0 else sqrt(want / MAX_BUCKETS);
    assert want > MAX_BUCKETS ==> want / MAX_BUCKETS >= 0.0;
  }

  lemma CellSizeAtLeast(cellWanted: real, spanX: real, spanY: real, sqrt: real -> real)
    requires IsSqrt(sqrt)
    ensures CellSize(cellWanted, spanX, spanY, sqrt) >= Size(cellWanted)
  {
    Coarser(Size(cellWanted), CellsWanted(cellWanted, spanX, spanY), sqrt);
  }

  /** Rounding the number of cells up, and one more, covers the span. */
  lemma SpanCovered(side: real, size: real)
    requires size > 0.0
    ensures -side + CellCount(side, size) as real * size > side
  {
    var n, q := CellCount(side, size), Across(side, size);
    QuotientTimes(2.0 * side, size);
    assert n as real >= q + 1.0;
    ScalePositive(size, n as real - q - 1.0);
    assert size * (n as real - q - 1.0) == n as real * size - q * size - size;
  }

  // ------------------------------------------------------------------------------------------------------
  // How many buckets a grid takes
  // ------------------------------------------------------------------------------------------------------

  function Buckets(cellWanted: real, spanX: real, spanY: real, sqrt: real -> real): int
    requires IsSqrt(sqrt)
  {
    var size := CellSize(cellWanted, spanX, spanY, sqrt);
    CellSizeAtLeast(cellWanted, spanX, spanY, sqrt);
    CellCount(Side(spanX, cellWanted), size) * CellCount(Side(spanY, cellWanted), size)
  }

  /** Rounding up costs each side less than two cells. */
  lemma CountWithinTwo(side: real, size: real)
    requires side > 0.0 && size > 0.0
    ensures 0.0 < Across(side, size)
    ensures Across(side, size) + 1.0 <= CellCount(side, size) as real < Across(side, size) + 2.0
  {
    QuotientTimes(2.0 * side, size);
    ScalePositive(size, Across(side, size));
  }

  lemma ProductBelow(a: real, b: real, c: real, d: real)
    requires 0.0 < a < c && 0.0 < b < d
    ensures a * b < c * d
  {
    assert a * b < a * d;
    assert a * d < c * d;
  }

  /** A coarsened window's sides take no more than the cap's cells between them, before rounding. */
  lemma CoarsenedArea(a: real, b: real, a': real, b': real, factor: real, want: real)
    requires a > 0.0 && b > 0.0 && want == (a + 1.0) * (b + 1.0) && want > MAX_BUCKETS
    requires factor > 0.0 && factor * factor == want / MAX_BUCKETS && a' * factor == a && b' * factor == b
    ensures a' * b' <= MAX_BUCKETS
  {
    assert (a' * b') * (factor * factor) == a * b;
    assert a * b <= want;
    assert want == MAX_BUCKETS * (factor * factor);
    ScalePositive(factor * factor, MAX_BUCKETS - a' * b');
    assert (factor * factor) * (MAX_BUCKETS - a' * b')
           == MAX_BUCKETS * (factor * factor) - (a' * b') * (factor * factor);
  }

  /** What the sides take in cells of the size chosen, before rounding. */
  function Sides(cellWanted: real, spanX: real, spanY: real, sqrt: real -> real): (ab: (real, real))
    requires IsSqrt(sqrt)
  {
    var size := CellSize(cellWanted, spanX, spanY, sqrt);
    CellSizeAtLeast(cellWanted, spanX, spanY, sqrt);
    (Across(Side(spanX, cellWanted), size), Across(Side(spanY, cellWanted), size))
  }

  lemma SidesWithinCap(cellWanted: real, spanX: real, spanY: real, sqrt: real -> real)
    requires IsSqrt(sqrt)
    ensures var (a, b) := Sides(cellWanted, spanX, spanY, sqrt); a > 0.0 && b > 0.0 && a * b <= MAX_BUCKETS
  {
    hide Across, Side, Size, CellsWanted;
    var size, want := Size(cellWanted), CellsWanted(cellWanted, spanX, spanY);
    var sx, sy := Side(spanX, cellWanted), Side(spanY, cellWanted);
    CountWithinTwo(sx, size);
    CountWithinTwo(sy, size);
    WantedIsProduct(cellWanted, spanX, spanY);
    if want <= MAX_BUCKETS {
      UncoarsenedArea(Across(sx, size), Across(sy, size), want);
      assert Coarsened(size, want, sqrt) == size;
    } else {
      CoarsenedSides(sx, sy, size, want, sqrt);
    }
  }

  lemma WantedIsProduct(cellWanted: real, spanX: real, spanY: real)
    ensures var size := Size(cellWanted);
            CellsWanted(cellWanted, spanX, spanY)
            == (Across(Side(spanX, cellWanted), size) + 1.0) * (Across(Side(spanY, cellWanted), size) + 1.0)
  {
  }

  lemma UncoarsenedArea(a: real, b: real, want: real)
    requires a > 0.0 && b > 0.0 && want == (a + 1.0) * (b + 1.0)
    ensures a * b <= want
  {
    assert (a + 1.0) * (b + 1.0) == a * b + a + b + 1.0;
  }

  lemma RootPositive(x: real, sqrt: real -> real)
    requires IsSqrt(sqrt) && x > 0.0
    ensures sqrt(x) > 0.0 && sqrt(x) * sqrt(x) == x
  {
  }

  lemma RescaledAcross(side: real, size: real, factor: real, coarse: real)
    requires size > 0.0 && factor > 0.0 && coarse == size * factor
    ensures coarse > 0.0 && Across(side, coarse) * factor == Across(side, size)
  {
    ScalePositive(size, factor);
    QuotientTimes(2.0 * side, coarse);
    QuotientTimes(2.0 * side, size);
    SameQuotient(size, Across(side, coarse) * factor, Across(side, size));
  }

  lemma CoarsenedSides(sx: real, sy: real, size: real, want: real, sqrt: real -> real)
    requires sx > 0.0 && sy > 0.0 && size > 0.0 && IsSqrt(sqrt) && want > MAX_BUCKETS
    requires want == (Across(sx, size) + 1.0) * (Across(sy, size) + 1.0)
    ensures var coarse := Coarsened(size, want, sqrt);
            && coarse > 0.0 && Across(sx, coarse) > 0.0 && Across(sy, coarse) > 0.0
            && Across(sx, coarse) * Across(sy, coarse) <= MAX_BUCKETS
  {
    hide Across;
    var factor := sqrt(want / MAX_BUCKETS);
    RootPositive(want / MAX_BUCKETS, sqrt);
    var coarse := Coarsened(size, want, sqrt);
    assert coarse == size * factor;
    SidesShrink(sx, sy, size, factor, coarse, want);
  }

  lemma SidesShrink(sx: real, sy: real, size: real, factor: real, coarse: real, want: real)
    requires sx > 0.0 && sy > 0.0 && size > 0.0 && factor > 0.0 && coarse == size * factor && want > MAX_BUCKETS
    requires factor * factor == want / MAX_BUCKETS
    requires want == (Across(sx, size) + 1.0) * (Across(sy, size) + 1.0)
    ensures coarse > 0.0 && Across(sx, coarse) > 0.0 && Across(sy, coarse) > 0.0
    ensures Across(sx, coarse) * Across(sy, coarse) <= MAX_BUCKETS
  {
    hide Across;
    RescaledAcross(sx, size, factor, coarse);
    RescaledAcross(sy, size, factor, coarse);
    CountWithinTwo(sx, size);
    CountWithinTwo(sy, size);
    CountWithinTwo(sx, coarse);
    CountWithinTwo(sy, coarse);
    CoarsenedArea(Across(sx, size), Across(sy, size), Across(sx, coarse), Across(sy, coarse), factor, want);
  }

  lemma SameQuotient(size: real, x: real, y: real)
    requires size > 0.0 && x * size == y * size
    ensures x == y
  {
    ScalePositive(size, x - y);
    assert size * (x - y) == x * size - y * size;
  }

  /** The bound the grid does keep: the cap, and a term in the two sides for rounding each up and adding one. */
  lemma BucketsBounded(cellWanted: real, spanX: real, spanY: real, sqrt: real -> real)
    requires IsSqrt(sqrt)
    ensures var (a, b) := Sides(cellWanted, spanX, spanY, sqrt);
            && Buckets(cellWanted, spanX, spanY, sqrt) as real < (a + 2.0) * (b + 2.0)
            && (a + 2.0) * (b + 2.0) <= MAX_BUCKETS + 2.0 * (a + b) + 4.0
  {
    hide Across, Side, Size, CellsWanted, CellCount;
    var size := CellSize(cellWanted, spanX, spanY, sqrt);
    CellSizeAtLeast(cellWanted, spanX, spanY, sqrt);
    hide CellSize;
    var sx, sy := Side(spanX, cellWanted), Side(spanY, cellWanted);
    CountWithinTwo(sx, size);
    CountWithinTwo(sy, size);
    SidesWithinCap(cellWanted, spanX, spanY, sqrt);
    CountsBounded(CellCount(sx, size), CellCount(sy, size), Across(sx, size), Across(sy, size));
  }

  lemma CountsBounded(m: int, n: int, a: real, b: real)
    requires a > 0.0 && b > 0.0 && a + 1.0 <= m as real < a + 2.0 && b + 1.0 <= n as real < b + 2.0
    requires a * b <= MAX_BUCKETS
    ensures (m * n) as real < (a + 2.0) * (b + 2.0) <= MAX_BUCKETS + 2.0 * (a + b) + 4.0
  {
    ProductBelow(m as real, n as real, a + 2.0, b + 2.0);
    RealProduct(m, n);
    assert (a + 2.0) * (b + 2.0) == a * b + 2.0 * (a + b) + 4.0;
  }

  lemma RealProduct(m: int, n: int)
    ensures (m * n) as real == m as real * n as real
  {
  }

  /** The sharp condition a caller can check: up to three quarters of the cap wanted, the cap holds. */
  lemma CapHoldsUpTo(cellWanted: real, spanX: real, spanY: real, sqrt: real -> real)
    requires IsSqrt(sqrt) && CellsWanted(cellWanted, spanX, spanY) <= 3000000.0
    ensures Buckets(cellWanted, spanX, spanY, sqrt) <= 4000000
  {
    var size := Size(cellWanted);
    var sx, sy := Side(spanX, cellWanted), Side(spanY, cellWanted);
    CountWithinTwo(sx, size);
    CountWithinTwo(sy, size);
    AtLeastTwo(sx, size);
    AtLeastTwo(sy, size);
    RoundedUp(CellCount(sx, size), CellCount(sy, size), Across(sx, size) + 1.0, Across(sy, size) + 1.0);
  }

  lemma AtLeastTwo(side: real, size: real)
    requires size > 0.0 && side >= size
    ensures Across(side, size) >= 2.0
  {
    QuotientTimes(2.0 * side, size);
    ScalePositive(size, Across(side, size) - 2.0);
    assert size * (Across(side, size) - 2.0) == 2.0 * side - 2.0 * size;
  }

  /** Two counts just above sides whose product is at most three millions. */
  lemma RoundedUp(m: int, n: int, u: real, v: real)
    requires 3.0 <= u <= m as real < u + 1.0 && 3.0 <= v <= n as real < v + 1.0
    requires u * v <= 3000000.0
    ensures m * n <= 4000000
  {
    var p, q := m - 1, n - 1;
    ProductBelow(p as real, q as real, u, v);
    RealProduct(p, q);
    ProductMonotone(3.0, 3.0, u, v);
    if p == 2 {
      ProductMonotone(3.0, v, u, v);
    } else if q == 2 {
      ProductMonotone(u, 3.0, u, v);
    } else {
      OneMoreEach(p, q);
    }
    assert m * n == p * q + p + q + 1;
  }

  lemma OneMoreEach(p: int, q: int)
    requires p >= 3 && q >= 3 && p * q < 3000000
    ensures p * q + p + q + 1 <= 4000000
  {
    if p > 3 && q > 3 {
      ProductAtLeast(p - 4, q - 4);
      assert (p - 4) * (q - 4) == p * q - 4 * (p + q) + 16;
    }
  }

  lemma ProductAtLeast(p: int, q: int)
    requires p >= 0 && q >= 0
    ensures p * q >= 0
  {
  }

  /** On the boards the placer accepts, 20 to 10,000 mm a side, the limit is higher: no side is more than five hundred
      times the other, so rounding up costs less. */
  lemma CapHoldsOnBoards(cellWanted: real, spanX: real, spanY: real, sqrt: real -> real)
    requires IsSqrt(sqrt) && 20.0 <= spanX <= 10000.0 && 20.0 <= spanY <= 10000.0
    requires CellsWanted(cellWanted, spanX, spanY) <= 3956040.0
    ensures Buckets(cellWanted, spanX, spanY, sqrt) <= 4000000
  {
    BoardSides(cellWanted, spanX, spanY);
    BoardSides(cellWanted, spanY, spanX);
    hide Across, Side, Size, CellsWanted, CellCount;
    var size := Size(cellWanted);
    var sx, sy := Side(spanX, cellWanted), Side(spanY, cellWanted);
    CountWithinTwo(sx, size);
    CountWithinTwo(sy, size);
    WantedIsProduct(cellWanted, spanX, spanY);
    SidesAlike(sx, sy, size);
    SidesAlike(sy, sx, size);
    if CellCount(sx, size) >= CellCount(sy, size) {
      LongSideFirst(CellCount(sx, size), CellCount(sy, size), Across(sx, size), Across(sy, size));
    } else {
      LongSideFirst(CellCount(sy, size), CellCount(sx, size), Across(sy, size), Across(sx, size));
    }
  }

  lemma BoardSides(cellWanted: real, span: real, other: real)
    requires 20.0 <= span <= 10000.0 && 20.0 <= other <= 10000.0
    ensures Side(span, cellWanted) <= 500.0 * Side(other, cellWanted) && Side(other, cellWanted) > 0.0
  {
  }

  /** No side takes more than five hundred times the cells of the other. */
  lemma SidesAlike(side: real, other: real, size: real)
    requires size > 0.0 && other > 0.0 && side <= 500.0 * other
    ensures Across(side, size) <= 500.0 * Across(other, size)
  {
    QuotientTimes(2.0 * side, size);
    QuotientTimes(2.0 * other, size);
    Quotients(Across(side, size), Across(other, size), size);
  }

  lemma Quotients(x: real, y: real, size: real)
    requires size > 0.0 && x * size <= 500.0 * (y * size)
    ensures x <= 500.0 * y
  {
    ScalePositive(size, 500.0 * y - x);
    assert size * (500.0 * y - x) == 500.0 * (y * size) - x * size;
  }

  /** The worst is ninety-one rows: fewer would need a longer side than there can be, more cost less. */
  lemma LongSideFirst(m: int, n: int, a: real, b: real)
    requires 0.0 < a <= 500.0 * b && b > 0.0 && (a + 1.0) * (b + 1.0) <= 3956040.0 && m >= n
    requires a + 1.0 <= m as real < a + 2.0 && b + 1.0 <= n as real < b + 2.0
    ensures m * n <= 4000000
  {
    var p, q := m - 1, n - 1;
    ProductBelow(p as real, q as real, a + 1.0, b + 1.0);
    RealProduct(p, q);
    assert m * n == p * q + p + q + 1;
    if q < 90 {
      TooLong(p, q, a, b);
      RowsTimes(m, n);
    } else {
      OneMoreLong(p, q);
    }
  }

  /** With fewer than ninety-one rows the long side is within its bounds. */
  lemma TooLong(p: int, q: int, a: real, b: real)
    requires 0.0 < a <= 500.0 * b && (a + 1.0) * (b + 1.0) <= 3956040.0 && p as real < a + 1.0
    ensures p < 44444
  {
    if p >= 44444 {
      ProductMonotone(44444.0, 89.8, a + 1.0, b + 1.0);
    }
  }

  lemma OneMoreLong(p: int, q: int)
    requires p >= q >= 90 && p * q < 3956040
    ensures p * q + p + q + 1 <= 4000000
  {
    if q >= 91 {
      ProductAtLeast(p - 91, q - 91);
      assert (p - 91) * (q - 91) == p * q - 91 * (p + q) + 8281;
    }
  }

  lemma RowsTimes(m: int, n: int)
    requires 0 <= m <= 44444 && 0 <= n <= 90
    ensures m * n <= 4000000
  {
    ProductAtLeast(44444 - m, n);
    assert (44444 - m) * n == 44444 * n - m * n;
  }

  /** And sharp for those boards too. */
  lemma CapFailsOnBoard(limit: real, sqrt: real -> real) returns (spanX: real, spanY: real)
    requires IsSqrt(sqrt) && 3956040.0 < limit <= MAX_BUCKETS
    ensures 20.0 <= spanX <= 10000.0 && 20.0 <= spanY <= 10000.0
    ensures 3956040.0 < CellsWanted(0.45, spanX, spanY) <= limit
    ensures Buckets(0.45, spanX, spanY, sqrt) == 43957 * 91
  {
    hide CellsWanted, Buckets;
    var e := (limit - 3956040.0) / 44047.0;
    spanX, spanY := 0.225 * (43955.0 + e), 0.225 * (89.0 + e);
    assert 44047.0 * e == limit - 3956040.0 && e < 0.999;
    SmallCells(43955.0 + e, 89.0 + e, sqrt);
    JustBeyondBoards(43956.0 + e, 90.0 + e, e, CellsWanted(0.45, spanX, spanY));
    assert Ceil(43955.0 + e) == 43956 && Ceil(89.0 + e) == 90;
  }

  lemma JustBeyondBoards(u: real, v: real, e: real, want: real)
    requires 0.0 < e < 1.0 && u == 43956.0 + e && v == 90.0 + e && want == u * v
    ensures 3956040.0 < want <= 3956040.0 + 44047.0 * e
  {
    assert u * v == 3956040.0 + 44046.0 * e + e * e;
    ScalePositive(e, e);
    ScalePositive(e, 1.0 - e);
    assert e * (1.0 - e) == e - e * e;
  }

  /** Cells of 0.45 mm, none coarsened. */
  lemma SmallCells(a: real, b: real, sqrt: real -> real)
    requires a >= 2.0 && b >= 2.0 && IsSqrt(sqrt)
    ensures CellsWanted(0.45, 0.225 * a, 0.225 * b) == (a + 1.0) * (b + 1.0)
    ensures CellsWanted(0.45, 0.225 * a, 0.225 * b) <= MAX_BUCKETS ==>
              Buckets(0.45, 0.225 * a, 0.225 * b, sqrt) == (Ceil(a) + 1) * (Ceil(b) + 1)
  {
    var sx, sy := 0.225 * a, 0.225 * b;
    assert Size(0.45) == 0.45 && Side(sx, 0.45) == sx && Side(sy, 0.45) == sy;
    assert Across(sx, 0.45) == a && Across(sy, 0.45) == b;
    hide Across, Size, Side;
  }

  /** What is known of the number of buckets: the bound in the sides, and the cap itself up to three quarters of it. */
  ghost predicate Bounded(buckets: int, cellWanted: real, spanX: real, spanY: real, sqrt: real -> real)
    requires IsSqrt(sqrt)
  {
    var (a, b) := Sides(cellWanted, spanX, spanY, sqrt);
    && a * b <= MAX_BUCKETS
    && buckets as real < (a + 2.0) * (b + 2.0) <= MAX_BUCKETS + 2.0 * (a + b) + 4.0
    && (CellsWanted(cellWanted, spanX, spanY) <= 3000000.0 ==> buckets <= 4000000)
  }

  lemma WindowBounded(cellWanted: real, spanX: real, spanY: real, sqrt: real -> real)
    requires IsSqrt(sqrt)
    ensures Bounded(Buckets(cellWanted, spanX, spanY, sqrt), cellWanted, spanX, spanY, sqrt)
  {
    hide Buckets, CellsWanted, Sides;
    SidesWithinCap(cellWanted, spanX, spanY, sqrt);
    BucketsBounded(cellWanted, spanX, spanY, sqrt);
    if CellsWanted(cellWanted, spanX, spanY) <= 3000000.0 {
      CapHoldsUpTo(cellWanted, spanX, spanY, sqrt);
    }
  }

  /** The cell size, half the sides and the counts of cells of a window. */
  method Measure(cellWanted: real, spanX: real, spanY: real, sqrt: real -> real)
    returns (size: real, sx: real, sy: real, nc: int, nr: int)
    requires IsSqrt(sqrt)
    ensures size == CellSize(cellWanted, spanX, spanY, sqrt) >= Size(cellWanted)
    ensures sx >= spanX && sy >= spanY && nc >= 1 && nr >= 1
    ensures -sx + nc as real * size > sx && -sy + nr as real * size > sy
    ensures nc * nr == Buckets(cellWanted, spanX, spanY, sqrt)
    ensures Bounded(nc * nr, cellWanted, spanX, spanY, sqrt)
  {
    hide Across, Side, Size, CellsWanted, CellCount, CellSize, Bounded;
    WindowBounded(cellWanted, spanX, spanY, sqrt);
    CellSizeAtLeast(cellWanted, spanX, spanY, sqrt);
    size := CellSize(cellWanted, spanX, spanY, sqrt);
    sx, sy := Side(spanX, cellWanted), Side(spanY, cellWanted);
    nc, nr := CellCount(sx, size), CellCount(sy, size);
    SpanCovered(sx, size);
    SpanCovered(sy, size);
  }

  /** For windows of any sides the condition is sharp: however little more is wanted, some window takes more buckets
      than the cap. */
  lemma CapFailsJustBeyond(limit: real, sqrt: real -> real) returns (spanX: real, spanY: real)
    requires IsSqrt(sqrt) && 3000000.0 < limit <= MAX_BUCKETS
    ensures 3000000.0 < CellsWanted(1.0, spanX, spanY) <= limit
    ensures Buckets(1.0, spanX, spanY, sqrt) == 4000004
  {
    hide CellsWanted, Buckets;
    var e := (limit - 3000000.0) / 2000008.0;
    spanX, spanY := 499999.5 + e, 1.0 + e;
    assert 2000008.0 * e == limit - 3000000.0;
    UnitCells(spanX, spanY, sqrt);
    JustBeyond(2.0 * spanX + 1.0, 2.0 * spanY + 1.0, e, CellsWanted(1.0, spanX, spanY));
    assert Ceil(2.0 * spanX) == 1000000 && Ceil(2.0 * spanY) == 3;
  }

  /** Cells of size one, none coarsened. */
  lemma UnitCells(spanX: real, spanY: real, sqrt: real -> real)
    requires spanX >= 1.0 && spanY >= 1.0 && IsSqrt(sqrt)
    ensures CellsWanted(1.0, spanX, spanY) == (2.0 * spanX + 1.0) * (2.0 * spanY + 1.0)
    ensures CellsWanted(1.0, spanX, spanY) <= MAX_BUCKETS ==>
              Buckets(1.0, spanX, spanY, sqrt) == (Ceil(2.0 * spanX) + 1) * (Ceil(2.0 * spanY) + 1)
  {
    assert Size(1.0) == 1.0 && Side(spanX, 1.0) == spanX && Side(spanY, 1.0) == spanY;
    assert Across(spanX, 1.0) == 2.0 * spanX && Across(spanY, 1.0) == 2.0 * spanY;
    hide Across, Size, Side;
  }

  lemma JustBeyond(u: real, v: real, e: real, want: real)
    requires 0.0 < e <= 0.5 && u == 1000000.0 + 2.0 * e && v == 3.0 + 2.0 * e && want == u * v
    ensures 3000000.0 < want <= 3000000.0 + 2000008.0 * e
  {
    assert u * v == 3000000.0 + 2000006.0 * e + 4.0 * (e * e);
    ScalePositive(e, e);
    ScalePositive(e, 0.5 - e);
    assert e * (0.5 - e) == 0.5 * e - e * e;
  }

  /** Not a thin window and nothing to coarsen, and still a thousand buckets beyond the cap. */
  lemma CapExceeded(sqrt: real -> real)
    requires IsSqrt(sqrt)
    ensures CellsWanted(1.0, 1999.505, 499.45) <= MAX_BUCKETS
    ensures Buckets(1.0, 1999.505, 499.45, sqrt) == 4001 * 1000
  {
    UnitCells(1999.505, 499.45, sqrt);
  }

  /** And no multiple of the cap bounds the buckets of a long, thin window, coarsened as it is. */
  lemma CapHasNoMultiple(k: nat, sqrt: real -> real) returns (spanX: real)
    requires IsSqrt(sqrt) && k >= 2
    ensures CellsWanted(1.0, spanX, 1.0) == MAX_BUCKETS * (k * k) as real
    ensures 3 * Buckets(1.0, spanX, 1.0, sqrt) > 2 * k * 4000000
  {
    var f := k as real;
    var a := MAX_BUCKETS * (f * f) / 3.0 - 1.0;
    spanX := a / 2.0;
    RealProduct(k, k);
    assert f * f >= 4.0;
    assert Across(spanX, 1.0) == a && Across(1.0, 1.0) == 2.0;
    var want := CellsWanted(1.0, spanX, 1.0);
    assert want == 3.0 * (a + 1.0);
    assert want / MAX_BUCKETS == f * f;
    RootOfSquare(f, sqrt);
    assert CellSize(1.0, spanX, 1.0, sqrt) == f;
    CountWithinTwo(spanX, f);
    CountWithinTwo(1.0, f);
    QuotientTimes(a, f);
    LongSide(a / f, f, CellCount(spanX, f), CellCount(1.0, f), k);
  }

  lemma RootOfSquare(f: real, sqrt: real -> real)
    requires IsSqrt(sqrt) && f >= 0.0
    ensures sqrt(f * f) == f
  {
    assert f * f >= 0.0;
    SquareOrder(sqrt(f * f), f);
    SquareOrder(f, sqrt(f * f));
  }

  lemma LongSide(a: real, f: real, m: int, n: int, k: nat)
    requires f == k as real && k >= 2 && a * f == MAX_BUCKETS * (f * f) / 3.0 - 1.0
    requires m as real >= a + 1.0 && n as real > 1.0
    ensures 3 * (m * n) > 2 * k * 4000000
  {
    SameQuotient(f, a + 1.0 / f, MAX_BUCKETS * f / 3.0);
    assert 1.0 / f <= 0.5;
    assert 3.0 * m as real > MAX_BUCKETS * f;
    assert n >= 2;
    assert m > 0;
    assert m * n >= m * 2;
  }
}
