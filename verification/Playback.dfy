/** Putting a solver's uneven samples on the animation's uneven clock.  One cursor walks the samples while the frames
    advance; every frame still gets what a search from the first sample would give it.  */
module Playback {
  import opened Reals

  datatype Sample = Sample(x: real, y: real)

  /** The first segment from `i` on whose far end is not before `t`, or the last segment. */
  function SegmentFrom(points: seq<Sample>, t: real, i: nat): (s: nat)
    requires i < |points|
    ensures i <= s < |points| && (s == i || s <= |points| - 2)
    ensures forall j :: i < j <= s ==> points[j].x < t
    ensures s < |points| - 2 ==> points[s + 1].x >= t
    decreases |points| - i
  {
    if i < |points| - 2 && points[i + 1].x < t then SegmentFrom(points, t, i + 1) else i
  }

  /** The value on a segment; a segment without extent gives its earlier sample. */
  function OnSegment(points: seq<Sample>, i: nat, t: real): real
    requires i < |points|
  {
    var a := points[i];
    var b := points[if i + 1 <= |points| - 1 then i + 1 else |points| - 1];
    var span := b.x - a.x;
    var k := if span > 0.0 then Min(1.0, Max(0.0, (t - a.x) / span)) else 0.0;
    a.y + (b.y - a.y) * k
  }

  /** What one frame shows, found by a search of its own. */
  function ValueAt(points: seq<Sample>, t: real): real
    requires points != []
  {
    OnSegment(points, SegmentFrom(points, t, 0), t)
  }

  ghost predicate InOrder(times: seq<real>) {
    forall f, g :: 0 <= f < g < |times| ==> times[f] <= times[g]
  }

  /** Starting where an earlier frame stopped finds the same segment. */
  lemma {:induction false} SegmentResumes(points: seq<Sample>, t: real, later: real, from: nat, i: nat)
    requires from < |points| && from <= i == SegmentFrom(points, t, from) && t <= later
    ensures SegmentFrom(points, later, i) == SegmentFrom(points, later, from)
    decreases |points| - from
  {
    if from < |points| - 2 && points[from + 1].x < t {
      SegmentResumes(points, t, later, from + 1, i);
    }
  }

  function Cell(f: nat, stride: nat, slot: nat): nat {
    f * stride + slot
  }

  /** The table is laid out frame by frame, one cell a slot. */
  lemma CellsByFrame(f: nat, stride: nat, slot: nat)
    requires slot < stride
    ensures Cell(f, stride, slot) / stride == f && Cell(f, stride, slot) % stride == slot
  {
    var c := f * stride + slot;
    assert c == stride * (c / stride) + c % stride;
    var d := c / stride - f;
    assert d * stride == slot - c % stride by {
      assert (c / stride) * stride == stride * (c / stride);
      assert d * stride == (c / stride) * stride - f * stride;
    }
    NoneBetween(d, stride);
  }

  lemma NoneBetween(d: int, n: int)
    requires n > 0
    ensures d == 0 || d * n >= n || d * n <= -n
  {
    if d >= 1 {
      assert d * n == (d - 1) * n + n && (d - 1) * n >= 0;
    } else if d <= -1 {
      assert d * n == (d + 1) * n - n && (d + 1) * n <= 0;
    }
  }

  lemma CellInRange(f: nat, frames: nat, stride: nat, slot: nat)
    requires f < frames && slot < stride
    ensures Cell(f, stride, slot) < frames * stride
  {
    assert (f + 1) * stride <= frames * stride;
    assert (f + 1) * stride == f * stride + stride;
  }

  lemma CellsApart(f: nat, g: nat, stride: nat, slot: nat)
    requires f < g && slot < stride
    ensures Cell(f, stride, slot) < Cell(g, stride, slot)
  {
    assert f * stride + stride <= g * stride by {
      assert (f + 1) * stride <= g * stride;
      assert (f + 1) * stride == f * stride + stride;
    }
  }

  /** Move the cursor on until its segment reaches `t`. */
  method Advance(points: seq<Sample>, t: real, start: nat) returns (i: nat)
    requires start < |points|
    ensures i == SegmentFrom(points, t, start)
  {
    i := start;
    while i < |points| - 2 && points[i + 1].x < t
      invariant i < |points| && SegmentFrom(points, t, i) == SegmentFrom(points, t, start)
    {
      i := i + 1;
    }
  }

  /** The walk over samples and frames together, writing one net's column of the table in place. */
  method Resample(points: seq<Sample>, times: seq<real>, out: array<real>, stride: nat, slot: nat)
    requires InOrder(times) && slot < stride && out.Length == |times| * stride
    modifies out
    ensures points == [] ==> out[..] == old(out[..])
    ensures forall f :: 0 <= f < |times| ==> Cell(f, stride, slot) < out.Length
    ensures points != [] ==> forall f :: 0 <= f < |times| ==> out[Cell(f, stride, slot)] == ValueAt(points, times[f])
    ensures forall c :: 0 <= c < out.Length && (forall f :: 0 <= f < |times| ==> c != Cell(f, stride, slot)) ==>
              out[c] == old(out[c])
  {
    forall f | 0 <= f < |times|
      ensures Cell(f, stride, slot) < out.Length
    {
      CellInRange(f, |times|, stride, slot);
    }
    if points == [] {
      return;
    }
    hide OnSegment, Cell, SegmentFrom;
    var i := 0;
    for f := 0 to |times|
      invariant i < |points| && (f == 0 ==> i == 0) && (f > 0 ==> i == SegmentFrom(points, times[f - 1], 0))
      invariant forall g :: 0 <= g < f ==> out[Cell(g, stride, slot)] == ValueAt(points, times[g])
      invariant forall c :: 0 <= c < out.Length && (forall g :: 0 <= g < |times| ==> c != Cell(g, stride, slot)) ==>
                  out[c] == old(out[c])
    {
      var t := times[f];
      if f > 0 {
        SegmentResumes(points, times[f - 1], t, 0, i);
      }
      i := Advance(points, t, i);
      forall g | 0 <= g < f
        ensures Cell(g, stride, slot) != Cell(f, stride, slot)
      {
        CellsApart(g, f, stride, slot);
      }
      out[Cell(f, stride, slot)] := OnSegment(points, i, t);
    }
  }

  // ------------------------------------------------------------------------------------------------------
  // What a frame shows
  // ------------------------------------------------------------------------------------------------------

  /** Samples in time order, as a solver gives them; several may share a time. */
  ghost predicate Ordered(points: seq<Sample>) {
    forall i, j :: 0 <= i < j < |points| ==> points[i].x <= points[j].x
  }

  /** The first sample at the time of sample `j`. */
  function First(points: seq<Sample>, j: nat): (p: nat)
    requires j < |points|
    ensures p <= j && points[p].x == points[j].x && (p > 0 ==> points[p - 1].x != points[p].x)
  {
    if j > 0 && points[j - 1].x == points[j].x then First(points, j - 1) else j
  }

  /** A frame at a sample's own time shows the first sample of that time. */
  lemma SamplesAreShown(points: seq<Sample>, j: nat)
    requires Ordered(points) && j < |points|
    ensures ValueAt(points, points[j].x) == points[First(points, j)].y
  {
    FirstIsShown(points, First(points, j));
  }

  lemma FirstIsShown(points: seq<Sample>, p: nat)
    requires Ordered(points) && p < |points| && (p > 0 ==> points[p - 1].x < points[p].x)
    ensures ValueAt(points, points[p].x) == points[p].y
  {
    var t := points[p].x;
    if p > 0 {
      assert SegmentFrom(points, t, 0) == p - 1;
      hide SegmentFrom, Ordered;
      FullShare(points[p - 1].x, t);
    } else {
      assert SegmentFrom(points, t, 0) == 0;
      hide SegmentFrom, Ordered;
      if |points| > 1 && t < points[1].x {
        NoShare(t, points[1].x);
      }
    }
  }

  lemma FullShare(a: real, b: real)
    requires a < b
    ensures (b - a) / (b - a) == 1.0
  {
  }

  lemma NoShare(a: real, b: real)
    requires a < b
    ensures (a - a) / (b - a) == 0.0
  {
  }

  /** From the first sample of one time up to the next sample the value moves from one to the other. */
  lemma ValuesStayBetween(points: seq<Sample>, t: real, j: nat)
    requires Ordered(points) && j < |points| - 1 && points[j].x <= t <= points[j + 1].x
    requires t == points[j].x ==> First(points, j) == j
    ensures Min(points[j].y, points[j + 1].y) <= ValueAt(points, t) <= Max(points[j].y, points[j + 1].y)
  {
    if t == points[j].x {
      SamplesAreShown(points, j);
    } else {
      assert SegmentFrom(points, t, 0) == j;
      var a, b := points[j], points[j + 1];
      var share := (t - a.x) / (b.x - a.x);
      QuotientTimes(t - a.x, b.x - a.x);
      Mixed(a.y, b.y, Min(1.0, Max(0.0, share)));
    }
  }

  /** And in proportion to the time: the point shown lies on the line through the two samples. */
  lemma ValuesAreOnTheLine(points: seq<Sample>, t: real, j: nat)
    requires Ordered(points) && j < |points| - 1 && points[j].x <= t <= points[j + 1].x
    requires t == points[j].x ==> First(points, j) == j
    ensures var a, b := points[j], points[j + 1];
            (ValueAt(points, t) - a.y) * (b.x - a.x) == (b.y - a.y) * (t - a.x)
  {
    var a, b := points[j], points[j + 1];
    if t == a.x {
      SamplesAreShown(points, j);
    } else {
      assert SegmentFrom(points, t, 0) == j;
      hide SegmentFrom, Ordered;
      SegmentIsLine(points, j, t);
    }
  }

  lemma SegmentIsLine(points: seq<Sample>, j: nat, t: real)
    requires j < |points| - 1 && points[j].x < t <= points[j + 1].x
    ensures var a, b := points[j], points[j + 1];
            (OnSegment(points, j, t) - a.y) * (b.x - a.x) == (b.y - a.y) * (t - a.x)
  {
    var a, b := points[j], points[j + 1];
    var part, span := t - a.x, b.x - a.x;
    ShareOfSpan(part, span);
    var rise, k := OnSegment(points, j, t) - a.y, part / span;
    assert rise == (b.y - a.y) * k;
    hide OnSegment;
    InProportion(b.y - a.y, k, span, part);
  }

  lemma ShareOfSpan(part: real, span: real)
    requires 0.0 < part <= span
    ensures 0.0 <= part / span <= 1.0 && part / span * span == part
  {
  }

  lemma InProportion(rise: real, k: real, span: real, part: real)
    requires k * span == part
    ensures rise * k * span == rise * part
  {
    assert rise * k * span == rise * (k * span);
  }

  lemma Mixed(u: real, v: real, k: real)
    requires 0.0 <= k <= 1.0
    ensures Min(u, v) <= u + (v - u) * k <= Max(u, v)
  {
    if v >= u {
      ProductMonotone(0.0, 0.0, v - u, k);
      ProductMonotone(v - u, k, v - u, 1.0);
    } else {
      ProductMonotone(0.0, 0.0, u - v, k);
      ProductMonotone(u - v, k, u - v, 1.0);
      assert (v - u) * k == -((u - v) * k);
    }
  }

  /** The sample shown after the run: the last, or the one before when those two share a time. */
  function AfterLast(points: seq<Sample>): Sample
    requires |points| > 1
  {
    var last := |points| - 1;
    if points[last - 1].x < points[last].x then points[last] else points[last - 1]
  }

  /** Before the run a frame shows the first sample. */
  lemma EndsAreHeld(points: seq<Sample>, t: real)
    requires Ordered(points) && |points| > 1
    ensures t <= points[0].x ==> ValueAt(points, t) == points[0].y
    ensures t > points[|points| - 1].x ==>
              ValueAt(points, t) == AfterLast(points).y
  {
    if t <= points[0].x {
      HeldBefore(points, t);
    } else if t > points[|points| - 1].x {
      HeldAfter(points, t);
    }
  }

  lemma HeldBefore(points: seq<Sample>, t: real)
    requires Ordered(points) && |points| > 1 && t <= points[0].x
    ensures ValueAt(points, t) == points[0].y
  {
    assert SegmentFrom(points, t, 0) == 0;
    var span := points[1].x - points[0].x;
    if span > 0.0 {
      QuotientTimes(t - points[0].x, span);
      ScalePositive(span, (t - points[0].x) / span);
    }
  }

  lemma HeldAfter(points: seq<Sample>, t: real)
    requires Ordered(points) && |points| > 1 && t > points[|points| - 1].x
    ensures ValueAt(points, t) == AfterLast(points).y
  {
    var a, b := points[|points| - 2], points[|points| - 1];
    var span := b.x - a.x;
    assert SegmentFrom(points, t, 0) == |points| - 2;
    if span > 0.0 {
      var share := (t - a.x) / span;
      QuotientTimes(t - a.x, span);
      ScalePositive(span, share - 1.0);
      assert span * (share - 1.0) == t - b.x;
    }
  }
}
