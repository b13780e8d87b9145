/** The uniform spatial grid of the placer: buckets of part indices over a clamped window of cells.

    The grid stands for a plain list of (index, rectangle) pairs.  Coordinates are real; positions outside the
    window fall into the border cells.  */
module Spatial {
  import opened Reals
  import opened Windows

  datatype Rect = Rect(minX: real, maxX: real, minY: real, maxY: real)

  type Entry = (nat, Rect)

  /** Two rectangles meet, edges included. */
  predicate Meet(p: Rect, q: Rect) {
    && p.minX <= q.maxX && q.minX <= p.maxX
    && p.minY <= q.maxY && q.minY <= p.maxY
  }

  predicate Proper(p: Rect) {
    p.minX <= p.maxX && p.minY <= p.maxY
  }

  function Clamp(v: int, lo: int, hi: int): int {
    if v < lo then lo else if v > hi then hi else v
  }

  // ------------------------------------------------------------------------------------------------------
  // Cell arithmetic
  // ------------------------------------------------------------------------------------------------------

  /** The cell of coordinate `x` on an axis of `n` cells, clamped to the window. */
  function CellOf(x: real, origin: real, cell: real, n: int): (c: int)
    requires cell > 0.0 && n >= 1
    ensures 0 <= c < n
  {
    Clamp(((x - origin) / cell).Floor, 0, n - 1)
  }

  /** A coordinate inside the window falls into the cell that spans it. */
  lemma CellHolds(x: real, origin: real, cell: real, n: int)
    requires cell > 0.0 && n >= 1 && origin <= x < origin + n as real * cell
    ensures var c := CellOf(x, origin, cell, n) as real; origin + c * cell <= x < origin + (c + 1.0) * cell
  {
    var q := (x - origin) / cell;
    QuotientTimes(x - origin, cell);
    ScalePositive(cell, q);
    ScalePositive(cell, n as real - q);
    assert cell * (n as real - q) == n as real * cell - (x - origin);
    ScalePositive(cell, q - q.Floor as real);
    assert cell * (q - q.Floor as real) == q * cell - q.Floor as real * cell;
    ScalePositive(cell, q.Floor as real + 1.0 - q);
    assert cell * (q.Floor as real + 1.0 - q) == (q.Floor as real + 1.0) * cell - q * cell;
  }

  lemma DivMonotone(x: real, y: real, d: real)
    requires x <= y && d > 0.0
    ensures x / d <= y / d
  {
    assert y / d - x / d == (y - x) / d;
    assert (y - x) / d >= 0.0;
  }

  lemma CellMonotone(x: real, y: real, origin: real, cell: real, n: int)
    requires cell > 0.0 && n >= 1 && x <= y
    ensures CellOf(x, origin, cell, n) <= CellOf(y, origin, cell, n)
  {
    DivMonotone(x - origin, y - origin, cell);
  }

  /** On one axis, overlapping ranges share a clamped cell. */
  lemma RangesShareCell(lo1: real, hi1: real, lo2: real, hi2: real, origin: real, cell: real, n: int) returns (c: int)
    requires cell > 0.0 && n >= 1
    requires lo1 <= hi1 && lo2 <= hi2 && lo1 <= hi2 && lo2 <= hi1
    ensures CellOf(lo1, origin, cell, n) <= c <= CellOf(hi1, origin, cell, n)
    ensures CellOf(lo2, origin, cell, n) <= c <= CellOf(hi2, origin, cell, n)
  {
    CellMonotone(lo1, hi1, origin, cell, n);
    CellMonotone(lo2, hi2, origin, cell, n);
    CellMonotone(lo1, hi2, origin, cell, n);
    CellMonotone(lo2, hi1, origin, cell, n);
    c := if lo1 >= lo2 then CellOf(lo1, origin, cell, n) else CellOf(lo2, origin, cell, n);
    CellMonotone(if lo1 >= lo2 then lo2 else lo1, if lo1 >= lo2 then lo1 else lo2, origin, cell, n);
  }

  function Index(c: int, r: int, cols: int): int {
    r * cols + c
  }

  lemma IndexInRange(c: int, r: int, cols: int, rows: int)
    requires 0 <= c < cols && 0 <= r < rows
    ensures 0 <= Index(c, r, cols) < cols * rows
  {
    assert (r + 1) * cols <= rows * cols;
  }

  lemma RowsInOrder(c: int, r: int, c': int, r': int, cols: int)
    requires 0 <= c < cols && 0 <= c' < cols
    ensures r < r' ==> Index(c, r, cols) < Index(c', r', cols)
  {
    if r < r' {
      assert (r + 1) * cols <= r' * cols;
    }
  }

  lemma IndexInjective(c: int, r: int, c': int, r': int, cols: int)
    requires 0 <= c < cols && 0 <= c' < cols && Index(c, r, cols) == Index(c', r', cols)
    ensures c == c' && r == r'
  {
    RowsInOrder(c, r, c', r', cols);
    RowsInOrder(c', r', c, r, cols);
  }

  // ------------------------------------------------------------------------------------------------------
  // Buckets
  // ------------------------------------------------------------------------------------------------------

  /** Removing a position by moving the last element into it. */
  function SwapRemove(s: seq<nat>, pos: nat): (t: seq<nat>)
    requires pos < |s|
    ensures multiset(t) == multiset(s) - multiset{s[pos]}
  {
    var last := |s| - 1;
    assert s == s[..last] + [s[last]];
    if pos == last then s[..last]
    else
      var t := s[..last][pos := s[last]];
      assert multiset(t) == multiset(s[..last]) - multiset{s[pos]} + multiset{s[last]};
      t
  }

  method Position(s: seq<nat>, v: nat) returns (pos: int)
    ensures v in s ==> 0 <= pos < |s| && s[pos] == v && v !in s[..pos]
    ensures v !in s ==> pos == -1
  {
    for i := 0 to |s|
      invariant v !in s[..i]
    {
      if s[i] == v {
        return i;
      }
    }
    assert s[..|s|] == s;
    return -1;
  }

  /** `es'` is `es` less one occurrence of `e`. */
  ghost predicate OneRemoved(es: seq<Entry>, es': seq<Entry>, e: Entry) {
    exists k :: 0 <= k < |es| && es[k] == e && es' == es[..k] + es[k + 1..]
  }

  class Grid {
    const cell: real
    const originX: real
    const originY: real
    const cols: int
    const rows: int
    const buckets: array<seq<nat>>
    var dirty: seq<nat>

    /** What the grid stands for: the rectangles stored, in order of insertion. */
    ghost var entries: seq<Entry>

    ghost predicate Shape() {
      cell > 0.0 && cols >= 1 && rows >= 1 && buckets.Length == cols * rows
    }

    function Col(x: real): (c: int)
      requires cell > 0.0 && cols >= 1
      ensures 0 <= c < cols
    {
      CellOf(x, originX, cell, cols)
    }

    function Row(y: real): (r: int)
      requires cell > 0.0 && rows >= 1
      ensures 0 <= r < rows
    {
      CellOf(y, originY, cell, rows)
    }

    /** Rectangle `q` covers cell (c, r). */
    ghost predicate Covers(q: Rect, c: int, r: int)
      requires Shape()
    {
      Col(q.minX) <= c <= Col(q.maxX) && Row(q.minY) <= r <= Row(q.maxY)
    }

    /** The indices that belong in cell (c, r), with multiplicity. */
    ghost function Held(es: seq<Entry>, c: int, r: int): multiset<nat>
      requires Shape()
    {
      if es == [] then multiset{}
      else
        Held(es[..|es| - 1], c, r) + Share(es[|es| - 1], c, r)
    }

    ghost predicate BucketsHold(es: seq<Entry>)
      requires Shape()
      reads buckets
    {
      forall c, r :: 0 <= c < cols && 0 <= r < rows ==> BucketHolds(es, c, r)
    }

    ghost predicate BucketHolds(es: seq<Entry>, c: int, r: int)
      requires Shape()
      reads buckets
    {
      var i := Index(c, r, cols);
      0 <= i < buckets.Length && multiset(buckets[i]) == Held(es, c, r)
    }

    ghost predicate DirtyCovers()
      reads this, buckets
    {
      && (forall i :: 0 <= i < buckets.Length && buckets[i] != [] ==> i in dirty)
      && (forall i :: i in dirty ==> i < buckets.Length)
    }

    ghost predicate Valid()
      reads this, buckets
    {
      Shape() && BucketsHold(entries) && DirtyCovers()
    }

    constructor (cellWanted: real, spanX: real, spanY: real, sqrt: real -> real)
      requires IsSqrt(sqrt)
      ensures Valid() && entries == [] && fresh(buckets)
      ensures originX <= -spanX && originX + cols as real * cell > spanX
      ensures originY <= -spanY && originY + rows as real * cell > spanY
      ensures cell == CellSize(cellWanted, spanX, spanY, sqrt) >= Size(cellWanted)
      ensures buckets.Length == cols * rows == Buckets(cellWanted, spanX, spanY, sqrt)
      ensures Bounded(buckets.Length, cellWanted, spanX, spanY, sqrt)
    {
      hide CellsWanted, CellSize, Size, Buckets, Bounded;
      var size, sx, sy, nc, nr := Measure(cellWanted, spanX, spanY, sqrt);
      cell := size;
      originX, originY := -sx, -sy;
      cols, rows := nc, nr;
      assert nc * nr >= 0;
      buckets := new seq<nat>[nc * nr](_ => []);
      dirty := [];
      entries := [];
      new;
      forall c, r | 0 <= c < cols && 0 <= r < rows
        ensures BucketHolds([], c, r)
      {
        IndexInRange(c, r, cols, rows);
      }
    }

    /** Empty the grid, touching only the buckets known to be dirty. */
    method Clear()
      requires Valid()
      modifies this, buckets
      ensures Valid() && entries == []
    {
      for k := 0 to |dirty|
        invariant dirty == old(dirty)
        invariant forall i :: i in dirty ==> i < buckets.Length
        invariant forall i :: 0 <= i < buckets.Length && buckets[i] != [] ==> i in dirty[k..]
      {
        assert dirty[k] in dirty;
        buckets[dirty[k]] := [];
      }
      dirty := [];
      entries := [];
      forall c, r | 0 <= c < cols && 0 <= r < rows
        ensures BucketHolds([], c, r)
      {
        IndexInRange(c, r, cols, rows);
      }
    }

    /** Cell (c, r) lies before position (atC, atR) of a row-by-row sweep over the cells of `q`. */
    ghost predicate Swept(q: Rect, c: int, r: int, atC: int, atR: int)
      requires Shape()
    {
      Covers(q, c, r) && (r < atR || (r == atR && c < atC))
    }

    /** The bucket of (c, r) holds `es`, with `index` added where the sweep has been. */
    ghost predicate AddedTo(es: seq<Entry>, index: nat, q: Rect, atC: int, atR: int, c: int, r: int)
      requires Shape()
      reads buckets
    {
      var i := Index(c, r, cols);
      0 <= i < buckets.Length
      && multiset(buckets[i]) == Held(es, c, r) + if Swept(q, c, r, atC, atR) then multiset{index} else multiset{}
    }

    method Insert(index: nat, rect: Rect)
      requires Valid()
      modifies this, buckets
      ensures Valid() && entries == old(entries) + [(index, rect)]
    {
      ghost var es := entries;
      var r := Row(rect.minY);
      forall c', r' | 0 <= c' < cols && 0 <= r' < rows
        ensures AddedTo(es, index, rect, Col(rect.minX), r, c', r')
      {
        assert BucketHolds(es, c', r');
      }
      while r <= Row(rect.maxY)
        invariant Row(rect.minY) <= r
        invariant entries == es && DirtyCovers()
        invariant AddedEverywhere(es, index, rect, Col(rect.minX), r)
      {
        AddRow(es, index, rect, r);
        r := r + 1;
      }
      entries := entries + [(index, rect)];
      forall c', r' | 0 <= c' < cols && 0 <= r' < rows
        ensures BucketHolds(entries, c', r')
      {
        assert AddedTo(es, index, rect, Col(rect.minX), r, c', r');
        assert entries[..|entries| - 1] == es;
      }
    }

    ghost predicate AddedEverywhere(es: seq<Entry>, index: nat, q: Rect, atC: int, atR: int)
      requires Shape()
      reads buckets
    {
      forall c, r :: 0 <= c < cols && 0 <= r < rows ==> AddedTo(es, index, q, atC, atR, c, r)
    }

    /** One row of cells of an insertion. */
    method AddRow(ghost es: seq<Entry>, index: nat, q: Rect, r: int)
      requires Shape() && DirtyCovers() && Row(q.minY) <= r <= Row(q.maxY)
      requires AddedEverywhere(es, index, q, Col(q.minX), r)
      modifies this`dirty, buckets
      ensures DirtyCovers()
      ensures AddedEverywhere(es, index, q, Col(q.minX), r + 1)
    {
      var c := Col(q.minX);
      while c <= Col(q.maxX)
        invariant Col(q.minX) <= c
        invariant DirtyCovers() && AddedEverywhere(es, index, q, c, r)
      {
        AddAt(es, index, q, c, r);
        c := c + 1;
      }
      ghost var next := r + 1;
      forall c', r' | 0 <= c' < cols && 0 <= r' < rows
        ensures AddedTo(es, index, q, Col(q.minX), next, c', r')
      {
        assert AddedTo(es, index, q, c, r, c', r');
      }
    }

    /** One cell of an insertion. */
    method AddAt(ghost es: seq<Entry>, index: nat, ghost q: Rect, c: int, r: int)
      requires Shape() && DirtyCovers() && Covers(q, c, r) && 0 <= c < cols && 0 <= r < rows
      requires AddedEverywhere(es, index, q, c, r)
      modifies this`dirty, buckets
      ensures DirtyCovers()
      ensures AddedEverywhere(es, index, q, c + 1, r)
    {
      assert AddedTo(es, index, q, c, r, c, r);
      var i := Index(c, r, cols);
      if buckets[i] == [] {
        dirty := dirty + [i];
      }
      buckets[i] := buckets[i] + [index];
      ghost var next := c + 1;
      forall c', r' | 0 <= c' < cols && 0 <= r' < rows
        ensures AddedTo(es, index, q, next, r, c', r')
      {
        assert old(AddedTo(es, index, q, c, r, c', r'));
        if Index(c', r', cols) == i {
          IndexInjective(c, r, c', r', cols);
        }
      }
    }

    /** Remove one stored pair, at the rectangle it was stored with. */
    method Remove(index: nat, rect: Rect)
      requires Valid() && (index, rect) in entries
      modifies this, buckets
      ensures Valid()
      ensures OneRemoved(old(entries), entries, (index, rect))
    {
      hide Held, Share, Covers;
      ghost var es := entries;
      ghost var k :| 0 <= k < |es| && es[k] == (index, rect);
      ghost var fewer := es[..k] + es[k + 1..];
      forall c', r' | 0 <= c' < cols && 0 <= r' < rows
        ensures TakenFrom(fewer, index, rect, Col(rect.minX), Row(rect.minY), c', r')
      {
        assert BucketHolds(es, c', r');
        StartTaken(es, k, index, rect, c', r');
      }
      var r := Row(rect.minY);
      while r <= Row(rect.maxY)
        invariant Row(rect.minY) <= r
        invariant entries == es && DirtyCovers()
        invariant TakenEverywhere(fewer, index, rect, Col(rect.minX), r)
      {
        TakeRow(fewer, index, rect, r);
        r := r + 1;
      }
      entries := fewer;
      forall c', r' | 0 <= c' < cols && 0 <= r' < rows
        ensures BucketHolds(entries, c', r')
      {
        assert TakenFrom(fewer, index, rect, Col(rect.minX), r, c', r');
        EndTaken(fewer, index, rect, r, c', r');
      }
    }

    lemma StartTaken(es: seq<Entry>, k: nat, index: nat, rect: Rect, c: int, r: int)
      requires Shape() && k < |es| && es[k] == (index, rect) && BucketHolds(es, c, r)
      ensures TakenFrom(es[..k] + es[k + 1..], index, rect, Col(rect.minX), Row(rect.minY), c, r)
    {
      HeldWithout(es, k, c, r);
      hide Held;
    }

    lemma EndTaken(es: seq<Entry>, index: nat, rect: Rect, atR: int, c: int, r: int)
      requires Shape() && atR > Row(rect.maxY) && TakenFrom(es, index, rect, Col(rect.minX), atR, c, r)
      ensures BucketHolds(es, c, r)
    {
      hide Held;
    }

    /** What one entry adds to cell (c, r). */
    ghost function Share(e: Entry, c: int, r: int): multiset<nat>
      requires Shape()
    {
      if Covers(e.1, c, r) then multiset{e.0} else multiset{}
    }

    static lemma SumsRegroup(a: multiset<nat>, x: multiset<nat>, y: multiset<nat>)
      ensures (a + x) + y == (a + y) + x
    {
    }

    /** Dropping one entry takes one occurrence of its index from the cells it covers. */
    lemma {:induction false} HeldWithout(es: seq<Entry>, k: nat, c: int, r: int)
      requires Shape() && k < |es|
      ensures Held(es, c, r) == Held(es[..k] + es[k + 1..], c, r) + Share(es[k], c, r)
    {
      hide Share;
      var fewer, front := es[..k] + es[k + 1..], es[..|es| - 1];
      if k == |es| - 1 {
        assert fewer == front;
      } else {
        HeldWithout(front, k, c, r);
        var fewerFront, last := front[..k] + front[k + 1..], es[|es| - 1];
        assert fewer == fewerFront + [last];
        assert fewer[..|fewer| - 1] == fewerFront && front[k] == es[k];
        assert Held(es, c, r) == Held(front, c, r) + Share(last, c, r);
        assert Held(fewer, c, r) == Held(fewerFront, c, r) + Share(last, c, r);
        hide Held;
        SumsRegroup(Held(fewerFront, c, r), Share(es[k], c, r), Share(last, c, r));
      }
    }

    /** The bucket of (c, r) holds `es`, with `index` still to take where the sweep has not been. */
    ghost predicate TakenFrom(es: seq<Entry>, index: nat, q: Rect, atC: int, atR: int, c: int, r: int)
      requires Shape()
      reads buckets
    {
      var i := Index(c, r, cols);
      0 <= i < buckets.Length && Remaining(buckets[i], es, index, q, atC, atR, c, r)
    }

    ghost predicate Remaining(bucket: seq<nat>, es: seq<Entry>, index: nat, q: Rect, atC: int, atR: int, c: int, r: int)
      requires Shape()
    {
      multiset(bucket)
      == Held(es, c, r) + if Covers(q, c, r) && !Swept(q, c, r, atC, atR) then multiset{index} else multiset{}
    }

    ghost predicate TakenEverywhere(es: seq<Entry>, index: nat, q: Rect, atC: int, atR: int)
      requires Shape()
      reads buckets
    {
      forall c, r :: 0 <= c < cols && 0 <= r < rows ==> TakenFrom(es, index, q, atC, atR, c, r)
    }

    method TakeRow(ghost es: seq<Entry>, index: nat, q: Rect, r: int)
      requires Shape() && DirtyCovers() && Row(q.minY) <= r <= Row(q.maxY)
      requires TakenEverywhere(es, index, q, Col(q.minX), r)
      modifies buckets
      ensures DirtyCovers()
      ensures TakenEverywhere(es, index, q, Col(q.minX), r + 1)
    {
      var c := Col(q.minX);
      while c <= Col(q.maxX)
        invariant Col(q.minX) <= c
        invariant DirtyCovers() && TakenEverywhere(es, index, q, c, r)
      {
        TakeAt(es, index, q, c, r);
        c := c + 1;
      }
      ghost var next := r + 1;
      forall c', r' | 0 <= c' < cols && 0 <= r' < rows
        ensures TakenFrom(es, index, q, Col(q.minX), next, c', r')
      {
        assert TakenFrom(es, index, q, c, r, c', r');
      }
    }

    method TakeAt(ghost es: seq<Entry>, index: nat, ghost q: Rect, c: int, r: int)
      requires Shape() && DirtyCovers() && Covers(q, c, r) && 0 <= c < cols && 0 <= r < rows
      requires TakenEverywhere(es, index, q, c, r)
      modifies buckets
      ensures DirtyCovers()
      ensures TakenEverywhere(es, index, q, c + 1, r)
    {
      hide Remaining, Swept, Covers;
      ghost var next := c + 1;
      var i := Index(c, r, cols);
      assert TakenFrom(es, index, q, c, r, c, r);
      Owed(buckets[i], es, index, q, c, r);
      TakeOne(i, index);
      forall c', r' | 0 <= c' < cols && 0 <= r' < rows
        ensures TakenFrom(es, index, q, next, r, c', r')
      {
        IndexInRange(c', r', cols, rows);
        assert old(TakenFrom(es, index, q, c, r, c', r'));
        if Index(c', r', cols) == i {
          IndexInjective(c, r, c', r', cols);
        }
        SweptPast(old(buckets[Index(c', r', cols)]), buckets[Index(c', r', cols)], es, index, q, c, r, next, c', r');
      }
    }

    /** The bucket the sweep is at still holds `index`. */
    lemma Owed(bucket: seq<nat>, es: seq<Entry>, index: nat, q: Rect, c: int, r: int)
      requires Shape() && Covers(q, c, r) && Remaining(bucket, es, index, q, c, r, c, r)
      ensures index in multiset(bucket)
    {
      hide Held;
    }

    /** Past (c, r) its bucket has one occurrence less to give, and every other bucket is as it was. */
    lemma SweptPast(was: seq<nat>, bucket: seq<nat>, es: seq<Entry>, index: nat, q: Rect, c: int, r: int, next: int,
                    c': int, r': int)
      requires Shape() && Covers(q, c, r) && next == c + 1 && Remaining(was, es, index, q, c, r, c', r')
      requires if c' == c && r' == r then multiset(bucket) == multiset(was) - multiset{index} else bucket == was
      ensures Remaining(bucket, es, index, q, next, r, c', r')
    {
      SweepPasses(q, c, r, next);
      hide Held, Swept, Covers;
    }

    /** Take the first occurrence of `index` out of a bucket. */
    method TakeOne(i: nat, index: nat)
      requires i < buckets.Length && index in multiset(buckets[i]) && DirtyCovers()
      modifies buckets
      ensures DirtyCovers() && multiset(buckets[i]) == multiset(old(buckets[i])) - multiset{index}
      ensures forall j :: 0 <= j < buckets.Length && j != i ==> buckets[j] == old(buckets[j])
    {
      var pos := Position(buckets[i], index);
      if pos >= 0 {
        buckets[i] := SwapRemove(buckets[i], pos);
      }
    }

    /** Moving the sweep past (c, r) sweeps that cell and no other. */
    lemma SweepPasses(q: Rect, c: int, r: int, next: int)
      requires Shape() && Covers(q, c, r) && next == c + 1
      ensures !Swept(q, c, r, c, r) && Swept(q, c, r, next, r)
      ensures forall c', r' :: c' != c || r' != r ==> (Swept(q, c', r', next, r) <==> Swept(q, c', r', c, r))
    {
    }

    /** `p` and `q` touch a common cell. */
    ghost predicate ShareCell(p: Rect, q: Rect)
      requires Shape()
    {
      exists c, r :: Covers(p, c, r) && Covers(q, c, r)
    }

    /** Append every index stored in a cell that `rect` touches. */
    method Neighbors(rect: Rect, out: seq<nat>) returns (out': seq<nat>)
      requires Valid()
      ensures out <= out'
      ensures forall k :: 0 <= k < |entries| && Proper(entries[k].1) && Proper(rect) && Meet(entries[k].1, rect) ==>
        entries[k].0 in out'[|out|..]
      ensures forall j :: j in out'[|out|..] <==>
        exists k :: 0 <= k < |entries| && entries[k].0 == j && ShareCell(entries[k].1, rect)
    {
      hide ShareCell;
      out' := out;
      ghost var found: seq<nat> := [];
      var r := Row(rect.minY);
      while r <= Row(rect.maxY)
        invariant Row(rect.minY) <= r
        invariant out' == out + found
        invariant Found(rect, Col(rect.minX), r, found)
      {
        ghost var more;
        out', more := CollectRow(rect, r, out', found);
        found := found + more;
        r := r + 1;
      }
      FoundAll(rect, r, found);
      assert out'[|out|..] == found;
    }

    method CollectRow(rect: Rect, r: int, out: seq<nat>, ghost found: seq<nat>)
      returns (out': seq<nat>, ghost more: seq<nat>)
      requires Valid() && Row(rect.minY) <= r <= Row(rect.maxY)
      requires Found(rect, Col(rect.minX), r, found)
      ensures out' == out + more && Found(rect, Col(rect.minX), r + 1, found + more)
    {
      hide Found, Held;
      out', more := out, [];
      var c := Col(rect.minX);
      assert found + more == found;
      while c <= Col(rect.maxX)
        invariant Col(rect.minX) <= c
        invariant out' == out + more
        invariant Found(rect, c, r, found + more)
      {
        assert BucketHolds(entries, c, r);
        var bucket := buckets[Index(c, r, cols)];
        FoundOneMore(rect, c, r, found + more, bucket);
        out' := out' + bucket;
        more := more + bucket;
        assert found + more == found + more[..|more| - |bucket|] + bucket;
        c := c + 1;
      }
      FoundNextRow(rect, c, r, found + more);
    }

    /** `found` lists exactly the indices held in the cells of `q` swept so far. */
    ghost predicate Found(q: Rect, atC: int, atR: int, found: seq<nat>)
      requires Shape()
      reads this
    {
      forall j :: j in found <==> exists c, r :: Swept(q, c, r, atC, atR) && j in Held(entries, c, r)
    }

    lemma FoundOneMore(q: Rect, c: int, r: int, found: seq<nat>, bucket: seq<nat>)
      requires Shape() && Covers(q, c, r) && multiset(bucket) == Held(entries, c, r)
      requires Found(q, c, r, found)
      ensures Found(q, c + 1, r, found + bucket)
    {
      hide Covers, Held;
      var next := c + 1;
      forall j
        ensures j in found + bucket <==> exists c', r' :: Swept(q, c', r', next, r) && j in Held(entries, c', r')
      {
        assert j in bucket <==> j in Held(entries, c, r);
        if j in found {
          var c', r' :| Swept(q, c', r', c, r) && j in Held(entries, c', r');
          assert Swept(q, c', r', next, r);
        }
        if j in bucket {
          assert Swept(q, c, r, next, r);
        }
        if c', r' :| Swept(q, c', r', next, r) && j in Held(entries, c', r') {
          assert Swept(q, c', r', c, r) || (c' == c && r' == r);
        }
      }
    }

    lemma FoundNextRow(q: Rect, c: int, r: int, found: seq<nat>)
      requires Shape() && c > Col(q.maxX) && Found(q, c, r, found)
      ensures Found(q, Col(q.minX), r + 1, found)
    {
      forall c', r'
        ensures Swept(q, c', r', c, r) <==> Swept(q, c', r', Col(q.minX), r + 1)
      {
      }
    }

    lemma FoundAll(q: Rect, r: int, found: seq<nat>)
      requires Shape() && r > Row(q.maxY) && Found(q, Col(q.minX), r, found)
      ensures forall j :: j in found <==>
        exists k :: 0 <= k < |entries| && entries[k].0 == j && ShareCell(entries[k].1, q)
      ensures forall k :: 0 <= k < |entries| && Proper(entries[k].1) && Proper(q) && Meet(entries[k].1, q) ==>
        entries[k].0 in found
    {
      forall j
        ensures j in found <==> exists k :: 0 <= k < |entries| && entries[k].0 == j && ShareCell(entries[k].1, q)
      {
        if j in found {
          var c', r' :| Swept(q, c', r', Col(q.minX), r) && j in Held(entries, c', r');
          HeldMembers(entries, j, c', r');
          var k :| 0 <= k < |entries| && entries[k].0 == j && Covers(entries[k].1, c', r');
          assert ShareCell(entries[k].1, q);
        }
        if k :| 0 <= k < |entries| && entries[k].0 == j && ShareCell(entries[k].1, q) {
          var c', r' :| Covers(entries[k].1, c', r') && Covers(q, c', r');
          HeldMembers(entries, j, c', r');
          assert Swept(q, c', r', Col(q.minX), r);
        }
      }
      forall k | 0 <= k < |entries| && Proper(entries[k].1) && Proper(q) && Meet(entries[k].1, q)
        ensures ShareCell(entries[k].1, q)
      {
        MeetingRectsShareCell(entries[k].1, q);
      }
    }

    lemma {:induction false} HeldMembers(es: seq<Entry>, j: nat, c: int, r: int)
      requires Shape()
      ensures j in Held(es, c, r) <==> exists k :: 0 <= k < |es| && es[k].0 == j && Covers(es[k].1, c, r)
    {
      if es != [] {
        var front, last := es[..|es| - 1], es[|es| - 1];
        HeldMembers(front, j, c, r);
        assert Held(es, c, r) == Held(front, c, r) + Share(last, c, r);
        assert j in Share(last, c, r) <==> last.0 == j && Covers(last.1, c, r);
        hide Held, Share, Covers;
        if k :| 0 <= k < |front| && front[k].0 == j && Covers(front[k].1, c, r) {
          assert es[k] == front[k];
        }
        if k :| 0 <= k < |es| && es[k].0 == j && Covers(es[k].1, c, r) {
          assert k < |front| ==> front[k] == es[k];
        }
      }
    }

    /** Rectangles that meet always share a cell, also when clamping moves them to the border. */
    lemma MeetingRectsShareCell(p: Rect, q: Rect)
      requires Shape() && Proper(p) && Proper(q) && Meet(p, q)
      ensures ShareCell(p, q)
    {
      var c := RangesShareCell(p.minX, p.maxX, q.minX, q.maxX, originX, cell, cols);
      var r := RangesShareCell(p.minY, p.maxY, q.minY, q.maxY, originY, cell, rows);
      assert Covers(p, c, r) && Covers(q, c, r);
    }
  }
}
