/** What a pad cost measures: the weighted distances from a part's pads to the centroids of the other parts' pads on
    their nets, stated from the pads alone. */
module Centroids {
  import opened Reals
  import opened Courtyards
  import opened NetSums

  function SumTo(f: nat -> real, k: nat): real {
    if k == 0 then 0.0 else SumTo(f, k - 1) + f(k - 1)
  }

  /** Where a pad lies on the board when its part stands at (x, y) turned by `r`. */
  function PadX(pad: Pad, x: real, y: real, r: int): real {
    x + Rot(r, pad.x, pad.y).0
  }

  function PadY(pad: Pad, x: real, y: real, r: int): real {
    y + Rot(r, pad.x, pad.y).1
  }

  ghost predicate OnNet(parts: seq<Part>, j: nat, m: nat, net: Net) {
    j < |parts| && m < |parts[j].pads| && parts[j].pads[m].net == net
  }

  /** Some part other than `i` has a pad on `net`. */
  ghost predicate HasCompany(parts: seq<Part>, i: nat, net: Net) {
    exists j: nat, m: nat :: j != i && OnNet(parts, j, m, net)
  }

  /** `of` summed over the first `k` pads of part `j` that are on `net`. */
  ghost function PadSum(parts: seq<Part>, net: Net, of: (nat, nat) -> real, j: nat, k: nat): real {
    if k == 0 then 0.0 else PadSum(parts, net, of, j, k - 1) + if OnNet(parts, j, k - 1, net) then of(j, k - 1) else 0.0
  }

  /** `of` summed over all pads on `net` of the first `k` parts other than `i`. */
  ghost function CompanySum(parts: seq<Part>, net: Net, of: (nat, nat) -> real, i: nat, k: nat): real
    requires k <= |parts|
  {
    if k == 0 then 0.0
    else
      CompanySum(parts, net, of, i, k - 1)
      + if k - 1 == i then 0.0 else PadSum(parts, net, of, k - 1, |parts[k - 1].pads|)
  }

  ghost function Xs(parts: seq<Part>, l: Layout): (nat, nat) -> real
    requires Sized(parts, l)
  {
    (j: nat, m: nat) =>
      if j < |parts| && m < |parts[j].pads| then PadX(parts[j].pads[m], l.x[j], l.y[j], l.r[j]) else 0.0
  }

  ghost function Ys(parts: seq<Part>, l: Layout): (nat, nat) -> real
    requires Sized(parts, l)
  {
    (j: nat, m: nat) =>
      if j < |parts| && m < |parts[j].pads| then PadY(parts[j].pads[m], l.x[j], l.y[j], l.r[j]) else 0.0
  }

  /** (cx, cy) is the mean position of the other parts' pads on `net`. */
  ghost predicate IsCentroid(parts: seq<Part>, l: Layout, i: nat, net: Net, cx: real, cy: real)
    requires Sized(parts, l)
  {
    var pads := CompanySum(parts, net, (j, m) => 1.0, i, |parts|);
    && cx * pads == CompanySum(parts, net, Xs(parts, l), i, |parts|)
    && cy * pads == CompanySum(parts, net, Ys(parts, l), i, |parts|)
  }

  // ------------------------------------------------------------------------------------------------------
  // The sums behind the centroid
  // ------------------------------------------------------------------------------------------------------

  lemma {:induction false} OwnSums(parts: seq<Part>, l: Layout, net: Net, j: nat, k: nat)
    requires Sized(parts, l) && j < |parts| && k <= |parts[j].pads|
    ensures var s := Own(parts[j].pads, l.x[j], l.y[j], l.r[j], net, k);
            && s.x == PadSum(parts, net, Xs(parts, l), j, k)
            && s.y == PadSum(parts, net, Ys(parts, l), j, k)
            && s.n == PadSum(parts, net, (j, m) => 1.0, j, k)
  {
    hide Rot;
    if k > 0 {
      OwnSums(parts, l, net, j, k - 1);
    }
  }

  lemma {:induction false} OthersSums(parts: seq<Part>, l: Layout, i: nat, net: Net, k: nat)
    requires Sized(parts, l) && k <= |parts|
    ensures var s := Others(parts, l, net, i, k);
            && s.x == CompanySum(parts, net, Xs(parts, l), i, k)
            && s.y == CompanySum(parts, net, Ys(parts, l), i, k)
            && s.n == CompanySum(parts, net, (j, m) => 1.0, i, k)
  {
    hide Own, PadSum, Xs, Ys;
    if k > 0 {
      OthersSums(parts, l, i, net, k - 1);
      OwnSums(parts, l, net, k - 1, |parts[k - 1].pads|);
    }
  }

  lemma {:induction false} OwnCounts(parts: seq<Part>, l: Layout, net: Net, j: nat, k: nat)
    requires Sized(parts, l) && j < |parts| && k <= |parts[j].pads|
    ensures var n := Own(parts[j].pads, l.x[j], l.y[j], l.r[j], net, k).n;
            n >= 0.0 && (n == 0.0 <==> forall m: nat :: m < k ==> !OnNet(parts, j, m, net))
  {
    if k > 0 {
      OwnCounts(parts, l, net, j, k - 1);
      OneMorePad(parts[j].pads, l.x[j], l.y[j], l.r[j], net, k);
      hide Own;
      assert OnNet(parts, j, k - 1, net) <==> parts[j].pads[k - 1].net == net;
    }
  }

  lemma OneMorePad(pads: seq<Pad>, x: real, y: real, r: int, net: Net, k: nat)
    requires 0 < k <= |pads|
    ensures Own(pads, x, y, r, net, k).n
         == Own(pads, x, y, r, net, k - 1).n + if pads[k - 1].net == net then 1.0 else 0.0
  {
    hide Rot;
  }

  lemma {:induction false} OthersCounted(parts: seq<Part>, l: Layout, i: nat, net: Net, k: nat)
    requires Sized(parts, l) && k <= |parts|
    ensures var n := Others(parts, l, net, i, k).n;
            n >= 0.0 && (n == 0.0 <==> forall j: nat, m: nat :: j < k && j != i ==> !OnNet(parts, j, m, net))
  {
    hide Own;
    if k > 0 {
      OthersCounted(parts, l, i, net, k - 1);
      OwnCounts(parts, l, net, k - 1, |parts[k - 1].pads|);
    }
  }

  // ------------------------------------------------------------------------------------------------------
  // The cost
  // ------------------------------------------------------------------------------------------------------

  /** The distance between two points: non-negative, with the square Pythagoras asks for. */
  ghost predicate IsDistance(far: real, x: real, y: real, cx: real, cy: real) {
    far >= 0.0 && far * far == Square(x - cx) + Square(y - cy)
  }

  /** `d` is what pad `m` of part `i` costs: its weight times its distance from the centroid of its company, or nothing
      when it has no net, no positive weight or no company. */
  ghost predicate Charged(parts: seq<Part>, l: Layout, i: nat, px: real, py: real, r: int, weights: map<Net, real>,
                          m: nat, d: real)
    requires Sized(parts, l) && i < |parts| && m < |parts[i].pads|
  {
    var pad := parts[i].pads[m];
    var w := if pad.net in weights then weights[pad.net] else 1.0;
    if pad.net == NO_NET || w <= 0.0 || !HasCompany(parts, i, pad.net) then d == 0.0
    else exists cx, cy, far ::
      IsCentroid(parts, l, i, pad.net, cx, cy) && d == w * far
      && IsDistance(far, PadX(pad, px, py, r), PadY(pad, px, py, r), cx, cy)
  }

  lemma PadIsCharged(parts: seq<Part>, l: Layout, i: nat, px: real, py: real, r: int, weights: map<Net, real>,
                     sqrt: real -> real, m: nat)
    requires Sized(parts, l) && i < |parts| && m < |parts[i].pads| && IsSqrt(sqrt)
    ensures var pad := parts[i].pads[m];
            Charged(parts, l, i, px, py, r, weights, m,
                    PadCost(pad, Others(parts, l, pad.net, i, |parts|), px, py, r, weights, sqrt))
  {
    hide IsCentroid, Others, PadX, PadY, IsDistance, IsSqrt, Rot, Length;
    var pad := parts[i].pads[m];
    var s := Others(parts, l, pad.net, i, |parts|);
    CompanyCounts(parts, l, i, pad.net);
    if s.n > 0.0 {
      MeanIsCentroid(parts, l, i, pad.net);
      var far := PadIsAway(pad, s, px, py, r, weights, sqrt);
    }
  }

  lemma CompanyCounts(parts: seq<Part>, l: Layout, i: nat, net: Net)
    requires Sized(parts, l)
    ensures Others(parts, l, net, i, |parts|).n > 0.0 <==> HasCompany(parts, i, net)
  {
    OthersCounted(parts, l, i, net, |parts|);
  }

  lemma MeanIsCentroid(parts: seq<Part>, l: Layout, i: nat, net: Net)
    requires Sized(parts, l) && Others(parts, l, net, i, |parts|).n > 0.0
    ensures var s := Others(parts, l, net, i, |parts|); IsCentroid(parts, l, i, net, s.x / s.n, s.y / s.n)
  {
    hide Others, CompanySum, Xs, Ys;
    var s := Others(parts, l, net, i, |parts|);
    QuotientTimes(s.x, s.n);
    QuotientTimes(s.y, s.n);
    OthersSums(parts, l, i, net, |parts|);
  }

  lemma PadIsAway(pad: Pad, s: Sum, px: real, py: real, r: int, weights: map<Net, real>, sqrt: real -> real)
    returns (far: real)
    requires IsSqrt(sqrt) && s.n > 0.0
    ensures IsDistance(far, PadX(pad, px, py, r), PadY(pad, px, py, r), s.x / s.n, s.y / s.n)
    ensures var w := if pad.net in weights then weights[pad.net] else 1.0;
            PadCost(pad, s, px, py, r, weights, sqrt) == if pad.net == NO_NET || w <= 0.0 then 0.0 else w * far
  {
    var cx, cy := s.x / s.n, s.y / s.n;
    var dx, dy := PadX(pad, px, py, r) - cx, PadY(pad, px, py, r) - cy;
    assert dx * dx + dy * dy >= 0.0;
    far := Length(dx, dy, sqrt);
  }

  /** The cost of a pose is the sum of what its pads are charged. */
  lemma CostIsCharged(parts: seq<Part>, l: Layout, i: nat, px: real, py: real, r: int, weights: map<Net, real>,
                      sqrt: real -> real) returns (charge: nat -> real)
    requires Sized(parts, l) && i < |parts| && IsSqrt(sqrt)
    ensures forall m :: 0 <= m < |parts[i].pads| ==> Charged(parts, l, i, px, py, r, weights, m, charge(m))
    ensures Cost(parts, l, i, px, py, r, weights, sqrt, |parts[i].pads|) == SumTo(charge, |parts[i].pads|)
  {
    hide PadCost, Others, Charged;
    charge := (m: nat) =>
      if m < |parts[i].pads| then
        PadCost(parts[i].pads[m], Others(parts, l, parts[i].pads[m].net, i, |parts|), px, py, r, weights, sqrt)
      else 0.0;
    forall m | 0 <= m < |parts[i].pads|
      ensures Charged(parts, l, i, px, py, r, weights, m, charge(m))
    {
      PadIsCharged(parts, l, i, px, py, r, weights, sqrt, m);
    }
    CostAddsUp(parts, l, i, px, py, r, weights, sqrt, charge, |parts[i].pads|);
  }

  lemma {:induction false} CostAddsUp(parts: seq<Part>, l: Layout, i: nat, px: real, py: real, r: int,
                                      weights: map<Net, real>, sqrt: real -> real, charge: nat -> real, k: nat)
    requires Sized(parts, l) && i < |parts| && k <= |parts[i].pads|
    requires forall m :: 0 <= m < |parts[i].pads| ==>
               charge(m) == PadCost(parts[i].pads[m], Others(parts, l, parts[i].pads[m].net, i, |parts|), px, py, r,
                                    weights, sqrt)
    ensures Cost(parts, l, i, px, py, r, weights, sqrt, k) == SumTo(charge, k)
  {
    hide PadCost, Others;
    if k > 0 {
      CostAddsUp(parts, l, i, px, py, r, weights, sqrt, charge, k - 1);
    }
  }

  /** Pads turn with their part: unturned they lie as drawn, and each further quarter turn takes them counter-clockwise
      about its centre. */
  lemma PadsTurnWithPart(pad: Pad, x: real, y: real)
    ensures PadX(pad, x, y, 0) == x + pad.x && PadY(pad, x, y, 0) == y + pad.y
    ensures forall r, s | (r, s) in {(0, 90), (90, 180), (180, 270), (270, 0)} ::
              PadX(pad, x, y, s) - x == -(PadY(pad, x, y, r) - y) && PadY(pad, x, y, s) - y == PadX(pad, x, y, r) - x
  {
  }
}
