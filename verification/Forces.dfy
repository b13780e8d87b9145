/** Forces of the placer: attraction along edges, and repulsion over grid neighbours only.

    The reference adds repulsion over all pairs of parts.  */
module Forces {
  import opened Reals
  import opened Spatial
  import opened Courtyards
  import opened Sorting

  datatype Force = Force(x: real, y: real)

  const NO_FORCE := Force(0.0, 0.0)

  function Plus(a: Force, b: Force): Force {
    Force(a.x + b.x, a.y + b.y)
  }

  function Negated(a: Force): Force {
    Force(-a.x, -a.y)
  }

  datatype Spring = Spring(a: nat, b: nat, weight: real)

  /** What an edge does to its end `b`; end `a` gets the opposite. */
  function Pull(e: Spring, xa: real, ya: real, xb: real, yb: real): Force {
    var dx, dy := xb - xa, yb - ya;
    var ex := if dx == 0.0 && dy == 0.0 then (if e.a < e.b then 0.01 else -0.01) else dx;
    var ey := if dx == 0.0 && dy == 0.0 then 0.01 else dy;
    Force(-(ex * e.weight * 0.02), -(ey * e.weight * 0.02))
  }

  ghost function PullOn(e: Spring, boxes: seq<Box>): Force
    requires e.a < |boxes| && e.b < |boxes|
  {
    Pull(e, boxes[e.a].x, boxes[e.a].y, boxes[e.b].x, boxes[e.b].y)
  }

  /** What two parts closer than their clearance do to the second; the first gets the opposite. */
  function Push(a: Box, b: Box, spacing: real): Force {
    var same := b.x == a.x && b.y == a.y;
    var dx := if same then 0.01 else b.x - a.x;
    var dy := if same then -0.01 else b.y - a.y;
    var ox := a.hw + b.hw + spacing - Abs(dx);
    var oy := a.hh + b.hh + spacing - Abs(dy);
    if ox <= 0.0 || oy <= 0.0 then NO_FORCE
    else if ox < oy then Force((if dx < 0.0 then -1.0 else 1.0) * (0.5 * ox), 0.0)
    else Force(0.0, (if dy < 0.0 then -1.0 else 1.0) * (0.5 * (if ox < oy then ox else oy)))
  }

  /** How a pair (a, b) acting on each other with `f` moves part `v`. */
  ghost function Felt(v: nat, a: nat, b: nat, f: Force): Force {
    Share(v == b, v == a, f)
  }

  ghost function Share(second: bool, first: bool, f: Force): Force {
    Plus(if second then f else NO_FORCE, if first then Negated(f) else NO_FORCE)
  }

  // ------------------------------------------------------------------------------------------------------
  // Reference forces
  // ------------------------------------------------------------------------------------------------------

  ghost predicate ValidSprings(springs: seq<Spring>, n: nat) {
    forall k :: 0 <= k < |springs| ==> springs[k].a < n && springs[k].b < n
  }

  /** Attraction on `v` from the first `k` edges. */
  ghost function Attraction(springs: seq<Spring>, boxes: seq<Box>, v: nat, k: nat): Force
    requires k <= |springs| && ValidSprings(springs, |boxes|)
  {
    if k == 0 then NO_FORCE
    else
      var e := springs[k - 1];
      Plus(Attraction(springs, boxes, v, k - 1), Felt(v, e.a, e.b, PullOn(e, boxes)))
  }

  /** Repulsion on `v` from the pairs (a, b) with a < b < `upTo`. */
  ghost function RowRepulsion(boxes: seq<Box>, spacing: real, v: nat, a: nat, upTo: nat): Force
    requires a < |boxes| && upTo <= |boxes|
  {
    if upTo <= a + 1 then NO_FORCE
    else Plus(RowRepulsion(boxes, spacing, v, a, upTo - 1),
      Felt(v, a, upTo - 1, Push(boxes[a], boxes[upTo - 1], spacing)))
  }

  /** Repulsion on `v` from all pairs whose first part is below `k`. */
  ghost function PairRepulsion(boxes: seq<Box>, spacing: real, v: nat, k: nat): Force
    requires k <= |boxes|
  {
    if k == 0 then NO_FORCE
    else Plus(PairRepulsion(boxes, spacing, v, k - 1), RowRepulsion(boxes, spacing, v, k - 1, |boxes|))
  }

  /** The force part `j` exerts on part `v`. */
  ghost function Exerted(boxes: seq<Box>, spacing: real, j: nat, v: nat): Force
    requires j < |boxes| && v < |boxes|
  {
    if j < v then Push(boxes[j], boxes[v], spacing)
    else if j > v then Negated(Push(boxes[v], boxes[j], spacing))
    else NO_FORCE
  }

  /** What the first `k` parts exert on `v`: the all-pairs repulsion when `k` counts every part. */
  ghost function Repulsion(boxes: seq<Box>, spacing: real, v: nat, k: nat): Force
    requires v < |boxes| && k <= |boxes|
  {
    if k == 0 then NO_FORCE
    else Plus(Repulsion(boxes, spacing, v, k - 1), Exerted(boxes, spacing, k - 1, v))
  }

  // ------------------------------------------------------------------------------------------------------
  // What the forces do
  // ------------------------------------------------------------------------------------------------------

  /** From part `j` to part `v`; of two parts at one spot the later counts as a hair to the right of and below the
      other. */
  ghost function Offset(boxes: seq<Box>, j: nat, v: nat): (real, real)
    requires j < |boxes| && v < |boxes|
  {
    var dx, dy := boxes[v].x - boxes[j].x, boxes[v].y - boxes[j].y;
    if dx != 0.0 || dy != 0.0 then (dx, dy) else if j < v then (0.01, -0.01) else (-0.01, 0.01)
  }

  /** The force on a part at offset (dx, dy) whose courtyard, with the spacing, reaches this far on each axis: it is
      there exactly when both axes overlap, never points towards the other part, lies on the axis that overlaps less,
      and is half of that overlap. */
  ghost predicate Repels(dx: real, dy: real, reachX: real, reachY: real, f: Force) {
    var overX, overY := reachX - Abs(dx), reachY - Abs(dy);
    && (f != NO_FORCE <==> overX > 0.0 && overY > 0.0)
    && (dx > 0.0 ==> f.x >= 0.0) && (dx < 0.0 ==> f.x <= 0.0)
    && (dy > 0.0 ==> f.y >= 0.0) && (dy < 0.0 ==> f.y <= 0.0)
    && (overX > 0.0 && overY > 0.0 ==>
          if overX < overY then Abs(f.x) == overX / 2.0 && f.y == 0.0 else f.x == 0.0 && Abs(f.y) == overY / 2.0)
  }

  /** What part `j` does to part `v`. */
  ghost predicate RepelledBy(boxes: seq<Box>, spacing: real, j: nat, v: nat, f: Force)
    requires j < |boxes| && v < |boxes|
  {
    if j == v then f == NO_FORCE
    else
      var (dx, dy) := Offset(boxes, j, v);
      Repels(dx, dy, boxes[j].hw + boxes[v].hw + spacing, boxes[j].hh + boxes[v].hh + spacing, f)
  }

  /** The force is the sum of what every other part does. */
  ghost predicate Repelled(boxes: seq<Box>, spacing: real, v: nat, f: Force)
    requires v < |boxes|
  {
    exists pushes: seq<Force> :: |pushes| == |boxes| && f == Sum(pushes) &&
      forall j :: 0 <= j < |boxes| ==> RepelledBy(boxes, spacing, j, v, pushes[j])
  }

  /** From part `v` to part `j` along a spring; of ends at one spot the later part counts as a hair to the right, and
      the spring's second end as a hair further up the y axis. */
  ghost function Towards(boxes: seq<Box>, e: Spring, j: nat, v: nat): (real, real)
    requires j < |boxes| && v < |boxes|
  {
    var dx, dy := boxes[j].x - boxes[v].x, boxes[j].y - boxes[v].y;
    if dx != 0.0 || dy != 0.0 then (dx, dy)
    else (if j > v then 0.01 else -0.01, if j == e.b then 0.01 else -0.01)
  }

  /** A spring draws its end at `v` towards its end at `j`, in proportion to its weight and their distance. */
  ghost predicate Draws(boxes: seq<Box>, e: Spring, j: nat, v: nat, f: Force)
    requires j < |boxes| && v < |boxes|
  {
    var (dx, dy) := Towards(boxes, e, j, v);
    f == Force(dx * (e.weight * 0.02), dy * (e.weight * 0.02))
  }

  /** What one spring does to part `v`: nothing unless just one of its ends is there. */
  ghost predicate PulledBy(boxes: seq<Box>, e: Spring, v: nat, f: Force)
    requires e.a < |boxes| && e.b < |boxes| && v < |boxes|
  {
    if e.a == v && e.b != v then Draws(boxes, e, e.b, v, f)
    else if e.b == v && e.a != v then Draws(boxes, e, e.a, v, f)
    else f == NO_FORCE
  }

  ghost predicate Pulled(springs: seq<Spring>, boxes: seq<Box>, v: nat, f: Force)
    requires ValidSprings(springs, |boxes|) && v < |boxes|
  {
    exists pulls: seq<Force> :: |pulls| == |springs| && f == Sum(pulls) &&
      forall k :: 0 <= k < |springs| ==> PulledBy(boxes, springs[k], v, pulls[k])
  }

  lemma ExertedRepels(boxes: seq<Box>, spacing: real, j: nat, v: nat)
    requires j < |boxes| && v < |boxes|
    ensures RepelledBy(boxes, spacing, j, v, Exerted(boxes, spacing, j, v))
  {
    hide Push, Repels, Abs;
    if j < v {
      PushRepels(boxes, spacing, j, v);
    } else if v < j {
      PushRepels(boxes, spacing, v, j);
      PushedBack(boxes, spacing, v, j, Exerted(boxes, spacing, j, v));
    }
  }

  /** And is pushed back likewise. */
  lemma PushedBack(boxes: seq<Box>, spacing: real, j: nat, v: nat, g: Force)
    requires j < v < |boxes| && RepelledBy(boxes, spacing, j, v, Negated(g))
    ensures RepelledBy(boxes, spacing, v, j, g)
  {
    hide Repels;
    var (dx, dy) := Offset(boxes, j, v);
    var (dx', dy') := Offset(boxes, v, j);
    RepelsBack(dx, dy, dx', dy', boxes[j].hw + boxes[v].hw + spacing, boxes[j].hh + boxes[v].hh + spacing,
      Negated(g), g);
  }

  /** The earlier part of a pair pushes the later one as described. */
  lemma PushRepels(boxes: seq<Box>, spacing: real, j: nat, v: nat)
    requires j < v < |boxes|
    ensures RepelledBy(boxes, spacing, j, v, Push(boxes[j], boxes[v], spacing))
  {
  }

  lemma RepelsBack(dx: real, dy: real, dx': real, dy': real, reachX: real, reachY: real, f: Force, g: Force)
    requires Repels(dx, dy, reachX, reachY, f) && dx' == -dx && dy' == -dy && g.x == -f.x && g.y == -f.y
    ensures Repels(dx', dy', reachX, reachY, g)
  {
    assert Abs(dx') == Abs(dx) && Abs(dy') == Abs(dy) && Abs(g.x) == Abs(f.x) && Abs(g.y) == Abs(f.y);
    assert g != NO_FORCE <==> f != NO_FORCE;
    hide Abs;
  }

  lemma {:induction false} RepulsionSums(boxes: seq<Box>, spacing: real, v: nat, pushes: seq<Force>, k: nat)
    requires v < |boxes| && k <= |boxes| == |pushes|
    requires forall j :: 0 <= j < k ==> pushes[j] == Exerted(boxes, spacing, j, v)
    ensures Repulsion(boxes, spacing, v, k) == Sum(pushes[..k])
  {
    hide Exerted, Plus;
    if k > 0 {
      RepulsionSums(boxes, spacing, v, pushes, k - 1);
      assert pushes[..k][..k - 1] == pushes[..k - 1];
    }
  }

  lemma RepulsionRepels(boxes: seq<Box>, spacing: real, v: nat)
    requires v < |boxes|
    ensures Repelled(boxes, spacing, v, Repulsion(boxes, spacing, v, |boxes|))
  {
    hide Exerted, RepelledBy;
    var pushes := seq(|boxes|, j requires 0 <= j < |boxes| => Exerted(boxes, spacing, j, v));
    RepulsionSums(boxes, spacing, v, pushes, |boxes|);
    assert pushes[..|boxes|] == pushes;
    forall j | 0 <= j < |boxes|
      ensures RepelledBy(boxes, spacing, j, v, pushes[j])
    {
      ExertedRepels(boxes, spacing, j, v);
    }
  }

  lemma FeltPulls(boxes: seq<Box>, e: Spring, v: nat)
    requires e.a < |boxes| && e.b < |boxes| && v < |boxes|
    ensures PulledBy(boxes, e, v, Felt(v, e.a, e.b, PullOn(e, boxes)))
  {
    hide PullOn, Draws;
    var f := PullOn(e, boxes);
    if e.a != e.b {
      PullDraws(e, boxes[e.b].x - boxes[e.a].x, boxes[e.b].y - boxes[e.a].y, f, boxes);
    }
    PlusNothing(f);
    PlusNothing(Negated(f));
    PlusOpposite(f);
  }

  lemma PlusOpposite(f: Force)
    ensures Plus(f, Negated(f)) == NO_FORCE && Plus(NO_FORCE, NO_FORCE) == NO_FORCE
  {
  }

  lemma PullDraws(e: Spring, dx: real, dy: real, f: Force, boxes: seq<Box>)
    requires e.a < |boxes| && e.b < |boxes| && e.a != e.b && f == PullOn(e, boxes)
    requires dx == boxes[e.b].x - boxes[e.a].x && dy == boxes[e.b].y - boxes[e.a].y
    ensures Draws(boxes, e, e.a, e.b, f) && Draws(boxes, e, e.b, e.a, Negated(f))
  {
    var w := e.weight * 0.02;
    Scaled(dx, e.weight);
    Scaled(dy, e.weight);
    Scaled(0.01, e.weight);
    Scaled(-0.01, e.weight);
    Opposite(dx, w);
    Opposite(dy, w);
    Opposite(0.01, w);
  }

  lemma Scaled(d: real, weight: real)
    ensures d * weight * 0.02 == d * (weight * 0.02)
  {
  }

  lemma Opposite(d: real, w: real)
    ensures (-d) * w == -(d * w)
  {
  }

  lemma {:induction false} AttractionSums(springs: seq<Spring>, boxes: seq<Box>, v: nat, pulls: seq<Force>, k: nat)
    requires ValidSprings(springs, |boxes|) && v < |boxes| && k <= |springs| == |pulls|
    requires forall i :: 0 <= i < k ==> pulls[i] == Felt(v, springs[i].a, springs[i].b, PullOn(springs[i], boxes))
    ensures Attraction(springs, boxes, v, k) == Sum(pulls[..k])
  {
    hide Felt, Plus, PullOn;
    if k > 0 {
      AttractionSums(springs, boxes, v, pulls, k - 1);
      assert pulls[..k][..k - 1] == pulls[..k - 1];
    }
  }

  lemma AttractionPulls(springs: seq<Spring>, boxes: seq<Box>, v: nat)
    requires ValidSprings(springs, |boxes|) && v < |boxes|
    ensures Pulled(springs, boxes, v, Attraction(springs, boxes, v, |springs|))
  {
    hide Felt, PullOn, PulledBy;
    var pulls := seq(|springs|, i requires 0 <= i < |springs| =>
      Felt(v, springs[i].a, springs[i].b, PullOn(springs[i], boxes)));
    AttractionSums(springs, boxes, v, pulls, |springs|);
    assert pulls[..|springs|] == pulls;
    forall k | 0 <= k < |springs|
      ensures PulledBy(boxes, springs[k], v, pulls[k])
    {
      FeltPulls(boxes, springs[k], v);
    }
  }

  lemma PlusAssociates(a: Force, b: Force, c: Force)
    ensures Plus(Plus(a, b), c) == Plus(a, Plus(b, c))
  {
  }

  lemma PlusNothing(f: Force)
    ensures Plus(f, NO_FORCE) == f && Plus(NO_FORCE, f) == f
  {
  }

  lemma FeltAlone(v: nat, a: nat, b: nat, f: Force)
    requires v != a
    ensures Felt(v, a, b, f) == if v == b then f else NO_FORCE
  {
  }

  /** A row below `v` gives it that row's single push; its own row gives it the opposite of its pushes. */
  lemma {:induction false} RowSeenBy(boxes: seq<Box>, spacing: real, v: nat, a: nat, upTo: nat)
    requires v < |boxes| && a < |boxes| && upTo <= |boxes|
    ensures a != v ==>
      RowRepulsion(boxes, spacing, v, a, upTo) == if a < v < upTo then Exerted(boxes, spacing, a, v) else NO_FORCE
  {
    hide Push, Plus, Felt, Negated;
    if a != v && upTo > a + 1 {
      var f := Push(boxes[a], boxes[upTo - 1], spacing);
      RowSeenBy(boxes, spacing, v, a, upTo - 1);
      FeltAlone(v, a, upTo - 1, f);
      PlusNothing(f);
      PlusNothing(NO_FORCE);
      PlusNothing(Exerted(boxes, spacing, a, v));
    }
  }

  /** A part's own row adds what the later parts exert on it. */
  lemma {:induction false} OwnRowSeenBy(boxes: seq<Box>, spacing: real, v: nat, upTo: nat)
    requires v < upTo <= |boxes|
    ensures Repulsion(boxes, spacing, v, upTo)
         == Plus(Repulsion(boxes, spacing, v, v), RowRepulsion(boxes, spacing, v, v, upTo))
  {
    if upTo > v + 1 {
      OwnRowSeenBy(boxes, spacing, v, upTo - 1);
      PlusAssociates(Repulsion(boxes, spacing, v, v), RowRepulsion(boxes, spacing, v, v, upTo - 1),
                     Exerted(boxes, spacing, upTo - 1, v));
    }
  }

  /** Adding pair by pair, each unordered pair once, gives every part the all-pairs repulsion. */
  lemma {:induction false} PairsGiveAllPairs(boxes: seq<Box>, spacing: real, v: nat, k: nat)
    requires v < |boxes| && k <= |boxes|
    ensures PairRepulsion(boxes, spacing, v, k)
         == if k <= v then Repulsion(boxes, spacing, v, k) else Repulsion(boxes, spacing, v, |boxes|)
  {
    hide Push, Felt, RowRepulsion, Exerted;
    if k > 0 {
      PairsGiveAllPairs(boxes, spacing, v, k - 1);
      if k - 1 == v {
        OwnRowSeenBy(boxes, spacing, v, |boxes|);
      } else {
        RowSeenBy(boxes, spacing, v, k - 1, |boxes|);
      }
    }
  }

  // ------------------------------------------------------------------------------------------------------
  // Momentum
  // ------------------------------------------------------------------------------------------------------

  ghost function Sum(fs: seq<Force>): Force {
    if fs == [] then NO_FORCE else Plus(Sum(fs[..|fs| - 1]), fs[|fs| - 1])
  }

  lemma {:induction false} SumPlus(fs: seq<Force>, gs: seq<Force>, hs: seq<Force>)
    requires |fs| == |gs| == |hs| && forall v :: 0 <= v < |fs| ==> hs[v] == Plus(fs[v], gs[v])
    ensures Sum(hs) == Plus(Sum(fs), Sum(gs))
  {
    if fs != [] {
      SumPlus(fs[..|fs| - 1], gs[..|gs| - 1], hs[..|hs| - 1]);
    }
  }

  ghost function FeltBy(a: nat, b: nat, f: Force, n: nat): (fs: seq<Force>)
    ensures |fs| == n && forall v :: 0 <= v < n ==> fs[v] == Felt(v, a, b, f)
  {
    seq(n, v requires 0 <= v < n => Felt(v, a, b, f))
  }

  /** What the parts below `n` feel of a pair. */
  ghost function FeltBelow(a: nat, b: nat, f: Force, n: nat): Force {
    Share(b < n, a < n, f)
  }

  lemma ShareSplits(p: bool, p': bool, q: bool, q': bool, f: Force)
    requires !(p && p') && !(q && q')
    ensures Share(p || p', q || q', f) == Plus(Share(p, q, f), Share(p', q', f))
  {
  }

  lemma FeltBelowStep(a: nat, b: nat, f: Force, n: nat)
    ensures FeltBelow(a, b, f, n + 1) == Plus(FeltBelow(a, b, f, n), Felt(n, a, b, f))
  {
    hide Share, Plus;
    ShareSplits(b < n, n == b, a < n, n == a, f);
    assert b < n + 1 <==> b < n || n == b;
    assert a < n + 1 <==> a < n || n == a;
  }

  lemma SumStep(a: nat, b: nat, f: Force, n: nat)
    ensures Sum(FeltBy(a, b, f, n + 1)) == Plus(Sum(FeltBy(a, b, f, n)), Felt(n, a, b, f))
  {
    var fs := FeltBy(a, b, f, n + 1);
    assert fs[..n] == FeltBy(a, b, f, n) && fs[n] == Felt(n, a, b, f);
  }

  lemma {:induction false} PairSum(a: nat, b: nat, f: Force, n: nat)
    ensures Sum(FeltBy(a, b, f, n)) == FeltBelow(a, b, f, n)
  {
    hide FeltBy, Sum, Felt, FeltBelow, Plus;
    if n > 0 {
      PairSum(a, b, f, n - 1);
      SumStep(a, b, f, n - 1);
      FeltBelowStep(a, b, f, n - 1);
    } else {
      NoOneFelt(a, b, f);
    }
  }

  lemma NoOneFelt(a: nat, b: nat, f: Force)
    ensures Sum(FeltBy(a, b, f, 0)) == FeltBelow(a, b, f, 0)
  {
  }

  /** A pair's action and reaction cancel. */
  lemma PairCancels(a: nat, b: nat, f: Force, n: nat)
    requires a < n && b < n
    ensures Sum(FeltBy(a, b, f, n)) == NO_FORCE
  {
    PairSum(a, b, f, n);
  }

  /** A per-part table of forces. */
  ghost function AttractionTable(springs: seq<Spring>, boxes: seq<Box>, k: nat): (fs: seq<Force>)
    requires k <= |springs| && ValidSprings(springs, |boxes|)
    ensures |fs| == |boxes| && forall v :: 0 <= v < |fs| ==> fs[v] == Attraction(springs, boxes, v, k)
  {
    seq(|boxes|, v requires 0 <= v < |boxes| => Attraction(springs, boxes, v, k))
  }

  ghost function RowTable(boxes: seq<Box>, spacing: real, a: nat, upTo: nat): (fs: seq<Force>)
    requires a < |boxes| && upTo <= |boxes|
    ensures |fs| == |boxes| && forall v :: 0 <= v < |fs| ==> fs[v] == RowRepulsion(boxes, spacing, v, a, upTo)
  {
    seq(|boxes|, v requires 0 <= v < |boxes| => RowRepulsion(boxes, spacing, v, a, upTo))
  }

  ghost function PairTable(boxes: seq<Box>, spacing: real, k: nat): (fs: seq<Force>)
    requires k <= |boxes|
    ensures |fs| == |boxes| && forall v :: 0 <= v < |fs| ==> fs[v] == PairRepulsion(boxes, spacing, v, k)
  {
    seq(|boxes|, v requires 0 <= v < |boxes| => PairRepulsion(boxes, spacing, v, k))
  }

  lemma ZeroSum(fs: seq<Force>)
    requires forall v :: 0 <= v < |fs| ==> fs[v] == NO_FORCE
    ensures Sum(fs) == NO_FORCE
  {
  }

  lemma AttractionTableStep(springs: seq<Spring>, boxes: seq<Box>, k: nat)
    requires k < |springs| && ValidSprings(springs, |boxes|)
    ensures var e := springs[k];
            var fs, gs, hs := AttractionTable(springs, boxes, k), FeltBy(e.a, e.b, PullOn(e, boxes), |boxes|),
              AttractionTable(springs, boxes, k + 1);
            |fs| == |gs| == |hs| && forall v :: 0 <= v < |fs| ==> hs[v] == Plus(fs[v], gs[v])
  {
    hide Plus, PullOn, Felt;
  }

  lemma {:induction false} AttractionCancels(springs: seq<Spring>, boxes: seq<Box>, k: nat)
    requires k <= |springs| && ValidSprings(springs, |boxes|)
    ensures Sum(AttractionTable(springs, boxes, k)) == NO_FORCE
  {
    hide AttractionTable, FeltBy, PullOn, Sum, Plus;
    if k == 0 {
      NoAttractionYet(springs, boxes);
    } else {
      var e := springs[k - 1];
      AttractionCancels(springs, boxes, k - 1);
      PairCancels(e.a, e.b, PullOn(e, boxes), |boxes|);
      AttractionTableStep(springs, boxes, k - 1);
      SumPlus(AttractionTable(springs, boxes, k - 1), FeltBy(e.a, e.b, PullOn(e, boxes), |boxes|),
        AttractionTable(springs, boxes, k));
      PlusNothing(NO_FORCE);
    }
  }

  lemma NoAttractionYet(springs: seq<Spring>, boxes: seq<Box>)
    requires ValidSprings(springs, |boxes|)
    ensures Sum(AttractionTable(springs, boxes, 0)) == NO_FORCE
  {
    ZeroSum(AttractionTable(springs, boxes, 0));
  }

  lemma RowTableStep(boxes: seq<Box>, spacing: real, a: nat, b: nat)
    requires a < b < |boxes|
    ensures var fs, hs := RowTable(boxes, spacing, a, b), RowTable(boxes, spacing, a, b + 1);
            var gs := FeltBy(a, b, Push(boxes[a], boxes[b], spacing), |boxes|);
            |fs| == |gs| == |hs| && forall v :: 0 <= v < |fs| ==> hs[v] == Plus(fs[v], gs[v])
  {
    hide Plus, Push, Felt;
  }

  lemma {:induction false} RowCancels(boxes: seq<Box>, spacing: real, a: nat, upTo: nat)
    requires a < |boxes| && upTo <= |boxes|
    ensures Sum(RowTable(boxes, spacing, a, upTo)) == NO_FORCE
  {
    hide RowTable, FeltBy, Push, Sum, Plus;
    if upTo <= a + 1 {
      NoRowYet(boxes, spacing, a, upTo);
    } else {
      var f := Push(boxes[a], boxes[upTo - 1], spacing);
      RowCancels(boxes, spacing, a, upTo - 1);
      PairCancels(a, upTo - 1, f, |boxes|);
      RowTableStep(boxes, spacing, a, upTo - 1);
      SumPlus(RowTable(boxes, spacing, a, upTo - 1), FeltBy(a, upTo - 1, f, |boxes|),
        RowTable(boxes, spacing, a, upTo));
      PlusNothing(NO_FORCE);
    }
  }

  lemma NoRowYet(boxes: seq<Box>, spacing: real, a: nat, upTo: nat)
    requires a < |boxes| && upTo <= |boxes| && upTo <= a + 1
    ensures Sum(RowTable(boxes, spacing, a, upTo)) == NO_FORCE
  {
    ZeroSum(RowTable(boxes, spacing, a, upTo));
  }

  lemma PairTableStep(boxes: seq<Box>, spacing: real, k: nat)
    requires k < |boxes|
    ensures var fs, gs, hs := PairTable(boxes, spacing, k), RowTable(boxes, spacing, k, |boxes|),
              PairTable(boxes, spacing, k + 1);
            |fs| == |gs| == |hs| && forall v :: 0 <= v < |fs| ==> hs[v] == Plus(fs[v], gs[v])
  {
    hide Plus, RowRepulsion;
  }

  lemma {:induction false} PairsCancel(boxes: seq<Box>, spacing: real, k: nat)
    requires k <= |boxes|
    ensures Sum(PairTable(boxes, spacing, k)) == NO_FORCE
  {
    if k == 0 {
      ZeroSum(PairTable(boxes, spacing, 0));
    } else {
      PairsCancel(boxes, spacing, k - 1);
      RowCancels(boxes, spacing, k - 1, |boxes|);
      PairTableStep(boxes, spacing, k - 1);
      PlusNothing(NO_FORCE);
      hide RowTable, PairTable, Sum, Plus;
      SumPlus(PairTable(boxes, spacing, k - 1), RowTable(boxes, spacing, k - 1, |boxes|), PairTable(boxes, spacing, k));
    }
  }

  /** The total force on part `v`, with repulsion taken over all other parts. */
  ghost function TotalForce(springs: seq<Spring>, boxes: seq<Box>, spacing: real, v: nat): Force
    requires v < |boxes| && ValidSprings(springs, |boxes|)
  {
    Plus(Attraction(springs, boxes, v, |springs|), Repulsion(boxes, spacing, v, |boxes|))
  }

  /** Attraction and repulsion together push the layout nowhere: all forces sum to zero. */
  lemma ForcesSumToZero(springs: seq<Spring>, boxes: seq<Box>, spacing: real, fs: seq<Force>)
    requires ValidSprings(springs, |boxes|) && |fs| == |boxes|
    requires forall v :: 0 <= v < |fs| ==> fs[v] == TotalForce(springs, boxes, spacing, v)
    ensures Sum(fs) == NO_FORCE
  {
    AttractionCancels(springs, boxes, |springs|);
    PairsCancel(boxes, spacing, |boxes|);
    forall v | 0 <= v < |fs|
      ensures fs[v] == Plus(AttractionTable(springs, boxes, |springs|)[v], PairTable(boxes, spacing, |boxes|)[v])
    {
      PairsGiveAllPairs(boxes, spacing, v, |boxes|);
    }
    SumPlus(AttractionTable(springs, boxes, |springs|), PairTable(boxes, spacing, |boxes|), fs);
  }

  // ------------------------------------------------------------------------------------------------------
  // The force pass
  // ------------------------------------------------------------------------------------------------------

  ghost predicate Buffers(fx: array<real>, fy: array<real>, n: nat) {
    fx.Length == fy.Length == n && fx != fy
  }

  /** Let a pair act on its two parts. */
  method Apply(a: nat, b: nat, f: Force, fx: array<real>, fy: array<real>)
    requires Buffers(fx, fy, fx.Length) && a < fx.Length && b < fx.Length
    modifies fx, fy
    ensures forall v :: 0 <= v < fx.Length ==> Force(fx[v], fy[v]) == Plus(old(Force(fx[v], fy[v])), Felt(v, a, b, f))
  {
    AddTo(a, Negated(f), fx, fy);
    AddTo(b, f, fx, fy);
    hide Plus;
    forall v | 0 <= v < fx.Length
      ensures Force(fx[v], fy[v]) == Plus(old(Force(fx[v], fy[v])), Felt(v, a, b, f))
    {
      FeltInTurn(old(Force(fx[v], fy[v])), v == b, v == a, f);
    }
  }

  method AddTo(a: nat, f: Force, fx: array<real>, fy: array<real>)
    requires Buffers(fx, fy, fx.Length) && a < fx.Length
    modifies fx, fy
    ensures forall v :: 0 <= v < fx.Length ==>
      Force(fx[v], fy[v]) == if v == a then Plus(old(Force(fx[v], fy[v])), f) else old(Force(fx[v], fy[v]))
  {
    fx[a] := fx[a] + f.x;
    fy[a] := fy[a] + f.y;
  }

  lemma FeltInTurn(was: Force, second: bool, first: bool, f: Force)
    ensures var mid := if first then Plus(was, Negated(f)) else was;
            (if second then Plus(mid, f) else mid) == Plus(was, Share(second, first, f))
  {
  }

  method Attract(springs: seq<Spring>, ghost boxes: seq<Box>, st: State, fx: array<real>, fy: array<real>)
    requires Buffers(fx, fy, |boxes|) && ValidSprings(springs, |boxes|)
    requires st.Valid(|boxes|) && forall i :: 0 <= i < |boxes| ==> boxes[i].x == st.x[i] && boxes[i].y == st.y[i]
    requires st.x != fx && st.x != fy && st.y != fx && st.y != fy
    requires forall v :: 0 <= v < |boxes| ==> Force(fx[v], fy[v]) == NO_FORCE
    modifies fx, fy
    ensures forall v :: 0 <= v < |boxes| ==> Force(fx[v], fy[v]) == Attraction(springs, boxes, v, |springs|)
  {
    hide Pull, Plus, Felt;
    for k := 0 to |springs|
      invariant forall v :: 0 <= v < |boxes| ==> Force(fx[v], fy[v]) == Attraction(springs, boxes, v, k)
    {
      var e := springs[k];
      var f := Pull(e, st.x[e.a], st.y[e.a], st.x[e.b], st.y[e.b]);
      Apply(e.a, e.b, f, fx, fy);
    }
  }

  /** Parts that push each other have meeting inflated rectangles. */
  lemma PushMeansMeet(a: Box, b: Box, spacing: real)
    requires spacing >= 0.0 && a.hw >= 0.0 && a.hh >= 0.0 && b.hw >= 0.0 && b.hh >= 0.0
    ensures Proper(Inflated(a, spacing / 2.0)) && Proper(Inflated(b, spacing / 2.0))
    ensures Push(a, b, spacing) != NO_FORCE ==> Meet(Inflated(b, spacing / 2.0), Inflated(a, spacing / 2.0))
  {
  }

  lemma NothingFelt(v: nat, a: nat, b: nat)
    ensures Felt(v, a, b, NO_FORCE) == NO_FORCE
  {
  }

  /** Rows agree up to any index below which no further part pushes. */
  lemma {:induction false} SkipSilent(boxes: seq<Box>, spacing: real, v: nat, a: nat, lo: nat, hi: nat)
    requires a < lo <= hi <= |boxes|
    requires forall b :: lo <= b < hi ==> Push(boxes[a], boxes[b], spacing) == NO_FORCE
    ensures RowRepulsion(boxes, spacing, v, a, hi) == RowRepulsion(boxes, spacing, v, a, lo)
  {
    hide Push, Plus, Felt;
    if lo < hi {
      SkipSilent(boxes, spacing, v, a, lo, hi - 1);
      NothingFelt(v, a, hi - 1);
      PlusNothing(RowRepulsion(boxes, spacing, v, a, hi - 1));
    }
  }

  ghost predicate Complete(boxes: seq<Box>, spacing: real, i: nat, neigh: seq<nat>)
    requires i < |boxes|
  {
    forall b :: i < b < |boxes| && b !in neigh ==> Push(boxes[i], boxes[b], spacing) == NO_FORCE
  }

  /** The sorted, deduplicated grid neighbours of part `i` include every part it pushes. */
  method NeighborsOf(boxes: seq<Box>, spacing: real, i: nat, grid: Grid) returns (neigh: seq<nat>)
    requires spacing >= 0.0 && i < |boxes| && grid.Valid() && Holds(grid.entries, boxes, spacing)
    ensures StrictlyIncreasing(neigh) && forall m :: 0 <= m < |neigh| ==> neigh[m] < |boxes|
    ensures Complete(boxes, spacing, i, neigh)
  {
    var raw := grid.Neighbors(Inflated(boxes[i], spacing / 2.0), []);
    neigh := SortDedup(raw);
    forall m | 0 <= m < |neigh|
      ensures neigh[m] < |boxes|
    {
      assert neigh[m] in raw[0..];
    }
    forall b | i < b < |boxes| && b !in neigh
      ensures Push(boxes[i], boxes[b], spacing) == NO_FORCE
    {
      assert (b, Inflated(boxes[b], spacing / 2.0)) in grid.entries;
      var k :| 0 <= k < |grid.entries| && grid.entries[k] == (b, Inflated(boxes[b], spacing / 2.0));
      PushMeansMeet(boxes[i], boxes[b], spacing);
      assert b !in raw[0..];
    }
  }

  /** Part `i` and its later neighbours push each other. */
  method RepelRow(boxes: seq<Box>, spacing: real, i: nat, neigh: seq<nat>, fx: array<real>, fy: array<real>)
    requires i < |boxes| && Buffers(fx, fy, |boxes|)
    requires StrictlyIncreasing(neigh) && forall m :: 0 <= m < |neigh| ==> neigh[m] < |boxes|
    requires Complete(boxes, spacing, i, neigh)
    modifies fx, fy
    ensures forall v :: 0 <= v < |boxes| ==>
      Force(fx[v], fy[v]) == Plus(old(Force(fx[v], fy[v])), RowRepulsion(boxes, spacing, v, i, |boxes|))
  {
    hide Push, Plus, Felt;
    ghost var at := i + 1;
    forall v | 0 <= v < |boxes|
      ensures Plus(old(Force(fx[v], fy[v])), NO_FORCE) == old(Force(fx[v], fy[v]))
    {
      PlusNothing(old(Force(fx[v], fy[v])));
    }
    for m := 0 to |neigh|
      invariant i < at <= |boxes| && forall l :: 0 <= l < m ==> neigh[l] < at
      invariant m > 0 && neigh[m - 1] > i ==> at == neigh[m - 1] + 1
      invariant m == 0 || neigh[m - 1] <= i ==> at == i + 1
      invariant forall v :: 0 <= v < |boxes| ==>
        Force(fx[v], fy[v]) == Plus(old(Force(fx[v], fy[v])), RowRepulsion(boxes, spacing, v, i, at))
    {
      var j := neigh[m];
      if j > i {
        assert forall b :: at <= b < j ==> b !in neigh;
        ghost var was := seq(|boxes|, v requires 0 <= v < |boxes| reads fx, fy => Force(fx[v], fy[v]));
        var f := Push(boxes[i], boxes[j], spacing);
        Apply(i, j, f, fx, fy);
        forall v | 0 <= v < |boxes|
          ensures Force(fx[v], fy[v]) == Plus(old(Force(fx[v], fy[v])), RowRepulsion(boxes, spacing, v, i, j + 1))
        {
          SkipSilent(boxes, spacing, v, i, at, j);
          PlusAssociates(old(Force(fx[v], fy[v])), RowRepulsion(boxes, spacing, v, i, j), Felt(v, i, j, f));
          assert was[v] == Plus(old(Force(fx[v], fy[v])), RowRepulsion(boxes, spacing, v, i, at));
        }
        at := j + 1;
      }
    }
    forall v | 0 <= v < |boxes|
      ensures RowRepulsion(boxes, spacing, v, i, |boxes|) == RowRepulsion(boxes, spacing, v, i, at)
    {
      assert forall b :: at <= b < |boxes| ==> b !in neigh;
      SkipSilent(boxes, spacing, v, i, at, |boxes|);
    }
  }

  /** Near-neighbour repulsion over all parts: each part gets exactly the all-pairs repulsion on top of what it had. */
  method Repel(boxes: seq<Box>, spacing: real, grid: Grid, fx: array<real>, fy: array<real>)
    requires spacing >= 0.0 && Buffers(fx, fy, |boxes|) && grid.Valid() && Holds(grid.entries, boxes, spacing)
    requires grid.buckets as object != fx && grid.buckets as object != fy
    modifies fx, fy
    ensures forall v :: 0 <= v < |boxes| ==>
      Force(fx[v], fy[v]) == Plus(old(Force(fx[v], fy[v])), Repulsion(boxes, spacing, v, |boxes|))
    ensures forall v :: 0 <= v < |boxes| ==> Repelled(boxes, spacing, v, Repulsion(boxes, spacing, v, |boxes|))
  {
    hide Push, Plus, RowRepulsion, Repelled;
    forall v | 0 <= v < |boxes|
      ensures Plus(old(Force(fx[v], fy[v])), NO_FORCE) == old(Force(fx[v], fy[v]))
    {
      PlusNothing(old(Force(fx[v], fy[v])));
    }
    for i := 0 to |boxes|
      invariant forall v :: 0 <= v < |boxes| ==>
        Force(fx[v], fy[v]) == Plus(old(Force(fx[v], fy[v])), PairRepulsion(boxes, spacing, v, i))
    {
      ghost var was := seq(|boxes|, v requires 0 <= v < |boxes| reads fx, fy => Force(fx[v], fy[v]));
      var neigh := NeighborsOf(boxes, spacing, i, grid);
      RepelRow(boxes, spacing, i, neigh, fx, fy);
      forall v | 0 <= v < |boxes|
        ensures Force(fx[v], fy[v]) == Plus(old(Force(fx[v], fy[v])), PairRepulsion(boxes, spacing, v, i + 1))
      {
        PlusAssociates(old(Force(fx[v], fy[v])), PairRepulsion(boxes, spacing, v, i),
          RowRepulsion(boxes, spacing, v, i, |boxes|));
        assert was[v] == Plus(old(Force(fx[v], fy[v])), PairRepulsion(boxes, spacing, v, i));
      }
    }
    forall v | 0 <= v < |boxes|
      ensures PairRepulsion(boxes, spacing, v, |boxes|) == Repulsion(boxes, spacing, v, |boxes|)
    {
      PairsGiveAllPairs(boxes, spacing, v, |boxes|);
    }
    forall v | 0 <= v < |boxes|
      ensures Repelled(boxes, spacing, v, Repulsion(boxes, spacing, v, |boxes|))
    {
      RepulsionRepels(boxes, spacing, v);
    }
  }

  method ClearBuffers(fx: array<real>, fy: array<real>)
    requires fx != fy && fx.Length == fy.Length
    modifies fx, fy
    ensures forall v :: 0 <= v < fx.Length ==> Force(fx[v], fy[v]) == NO_FORCE
  {
    forall v | 0 <= v < fx.Length {
      fx[v] := 0.0;
    }
    forall v | 0 <= v < fy.Length {
      fy[v] := 0.0;
    }
  }

  /** One evaluation of the force buffers: zero them, attract, rebuild the grid, repel.  Every part feels exactly
      the attraction of its edges plus the repulsion of all other parts. */
  method Evaluate(parts: seq<Part>, springs: seq<Spring>, st: State, spacing: real, grid: Grid, fx: array<real>,
                  fy: array<real>)
    returns (boxes: array<Box>)
    requires ValidParts(parts) && ValidSprings(springs, |parts|) && st.Valid(|parts|) && spacing >= 0.0
    requires grid.Valid() && Buffers(fx, fy, |parts|)
    requires st.x != fx && st.x != fy && st.y != fx && st.y != fy
    modifies fx, fy, grid, grid.buckets
    ensures grid.Valid() && boxes[..] == st.Boxes(parts)
    ensures forall v :: 0 <= v < |parts| ==> Force(fx[v], fy[v]) == TotalForce(springs, boxes[..], spacing, v)
    ensures forall v :: 0 <= v < |parts| ==> Moved(springs, boxes[..], spacing, v, Force(fx[v], fy[v]))
  {
    ClearBuffers(fx, fy);
    hide Plus, Repulsion, Attraction, Moved;
    Attract(springs, st.Boxes(parts), st, fx, fy);
    boxes := RebuildAndRepel(parts, st, spacing, grid, fx, fy);
    AllMove(springs, boxes[..], spacing);
  }

  /** The grid rebuilt over the courtyards as they stand, and repulsion added over it. */
  method RebuildAndRepel(parts: seq<Part>, st: State, spacing: real, grid: Grid, fx: array<real>, fy: array<real>)
    returns (boxes: array<Box>)
    requires ValidParts(parts) && st.Valid(|parts|) && spacing >= 0.0 && grid.Valid() && Buffers(fx, fy, |parts|)
    requires st.x != fx && st.x != fy && st.y != fx && st.y != fy
    modifies fx, fy, grid, grid.buckets
    ensures grid.Valid() && boxes[..] == st.Boxes(parts)
    ensures forall v :: 0 <= v < |parts| ==>
      Force(fx[v], fy[v]) == Plus(old(Force(fx[v], fy[v])), Repulsion(boxes[..], spacing, v, |parts|))
  {
    hide Plus, Repulsion, Repelled;
    grid.Clear();
    boxes := Fill(parts, st, spacing, grid);
    Repel(boxes[..], spacing, grid, fx, fy);
  }

  lemma AllMove(springs: seq<Spring>, boxes: seq<Box>, spacing: real)
    requires ValidSprings(springs, |boxes|)
    ensures forall v :: 0 <= v < |boxes| ==> Moved(springs, boxes, spacing, v, TotalForce(springs, boxes, spacing, v))
  {
    hide Moved, TotalForce;
    forall v | 0 <= v < |boxes|
      ensures Moved(springs, boxes, spacing, v, TotalForce(springs, boxes, spacing, v))
    {
      TotalMoves(springs, boxes, spacing, v);
    }
  }

  lemma TotalMoves(springs: seq<Spring>, boxes: seq<Box>, spacing: real, v: nat)
    requires ValidSprings(springs, |boxes|) && v < |boxes|
    ensures Moved(springs, boxes, spacing, v, TotalForce(springs, boxes, spacing, v))
  {
    hide Pulled, Repelled;
    AttractionPulls(springs, boxes, v);
    RepulsionRepels(boxes, spacing, v);
  }

  /** The force is what the springs pull and the other parts push, and nothing else. */
  ghost predicate Moved(springs: seq<Spring>, boxes: seq<Box>, spacing: real, v: nat, f: Force)
    requires ValidSprings(springs, |boxes|) && v < |boxes|
  {
    exists pull, push :: Pulled(springs, boxes, v, pull) && Repelled(boxes, spacing, v, push) && f == Plus(pull, push)
  }
}
