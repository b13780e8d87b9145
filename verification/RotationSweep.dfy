/** The rotation sweep: each part turns to the pose closest to its nets, scored from incrementally updated sums.
    The specification scores every pose from scratch, against all other parts as they stand at that moment.  */
module RotationSweep {
  import opened Courtyards
  import opened NetSums

  /** The best pose so far; `None` stands for an infinite score. */
  datatype Best = None | Best(r: int, score: real)

  ghost function CostAt(parts: seq<Part>, l: Layout, i: nat, r: int, weights: map<Net, real>, sqrt: real -> real): real
    requires Sized(parts, l) && i < |parts|
  {
    Cost(parts, l, i, l.x[i], l.y[i], r, weights, sqrt, |parts[i].pads|)
  }

  function Better(best: Best, r: int, score: real): Best {
    if best.None? || score < best.score - EPS then Best(r, score) else best
  }

  const POSES: seq<int> := [0, 90, 180, 270]

  /** The best of the first `k` poses. */
  ghost function BestOf(parts: seq<Part>, l: Layout, i: nat, weights: map<Net, real>, sqrt: real -> real, k: nat): Best
    requires Sized(parts, l) && i < |parts| && k <= 4
  {
    if k == 0 then None
    else Better(BestOf(parts, l, i, weights, sqrt, k - 1), POSES[k - 1],
                CostAt(parts, l, i, POSES[k - 1], weights, sqrt))
  }

  /** Turning one part to its best pose. */
  ghost function Turned(parts: seq<Part>, l: Layout, i: nat, weights: map<Net, real>, sqrt: real -> real): (l': Layout)
    requires Sized(parts, l) && i < |parts|
    ensures Sized(parts, l') && l'.x == l.x && l'.y == l.y
  {
    if |parts[i].pads| < 2 then l
    else l.(r := l.r[i := BestOf(parts, l, i, weights, sqrt, 4).r])
  }

  /** The whole sweep, in the given order. */
  ghost function Swept(parts: seq<Part>, l: Layout, order: seq<nat>, weights: map<Net, real>,
                       sqrt: real -> real): (l': Layout)
    requires Sized(parts, l) && forall k :: 0 <= k < |order| ==> order[k] < |parts|
    ensures Sized(parts, l') && l'.x == l.x && l'.y == l.y
    decreases |order|
  {
    if order == [] then l
    else Swept(parts, Turned(parts, l, order[0], weights, sqrt), order[1..], weights, sqrt)
  }

  /** The poses are the four quarter turns, in turning order. */
  lemma PosesAreQuarterTurns(r: int)
    ensures r in POSES <==> 0 <= r < 360 && r % 90 == 0
    ensures forall j, k :: 0 <= j < k < |POSES| ==> POSES[j] < POSES[k]
  {
    if 0 <= r < 360 && r % 90 == 0 {
      assert r == r / 90 * 90 && (r / 90 == 0 || r / 90 == 1 || r / 90 == 2 || r / 90 == 3);
      assert POSES[r / 90] == r;
    }
  }

  /** No pose beats the chosen one by more than the tolerance, and it is one of the four. */
  lemma {:induction false} BestOfIsBest(parts: seq<Part>, l: Layout, i: nat, weights: map<Net, real>,
                                        sqrt: real -> real, k: nat)
    requires Sized(parts, l) && i < |parts| && 0 < k <= 4
    ensures var best := BestOf(parts, l, i, weights, sqrt, k);
            && best.Best? && best.r in POSES && best.score == CostAt(parts, l, i, best.r, weights, sqrt)
            && (forall j :: 0 <= j < k ==> best.score <= CostAt(parts, l, i, POSES[j], weights, sqrt) + EPS)
            && (k == 4 ==> forall r :: 0 <= r < 360 && r % 90 == 0 ==>
                  best.score <= CostAt(parts, l, i, r, weights, sqrt) + EPS)
  {
    hide CostAt;
    if k > 1 {
      BestOfIsBest(parts, l, i, weights, sqrt, k - 1);
    }
    assert POSES[k - 1] in POSES;
    forall r | 0 <= r < 360 && r % 90 == 0
      ensures r in POSES
    {
      PosesAreQuarterTurns(r);
    }
  }

  /** The part is left unturned exactly when no other pose beats that one by more than the tolerance. */
  lemma {:induction false} UnturnedExactlyWhen(parts: seq<Part>, l: Layout, i: nat, weights: map<Net, real>,
                                               sqrt: real -> real, k: nat)
    requires Sized(parts, l) && i < |parts| && 0 < k <= 4
    ensures var best := BestOf(parts, l, i, weights, sqrt, k);
            && best.Best?
            && (best.r == 0 <==>
                forall j :: 0 < j < k ==>
                  CostAt(parts, l, i, POSES[j], weights, sqrt) >= CostAt(parts, l, i, 0, weights, sqrt) - EPS)
            && (best.r == 0 ==> best.score == CostAt(parts, l, i, 0, weights, sqrt))
  {
    hide CostAt;
    if k > 1 {
      UnturnedExactlyWhen(parts, l, i, weights, sqrt, k - 1);
      BestOfIsBest(parts, l, i, weights, sqrt, k - 1);
    }
  }

  /** Turning part `i` changes the totals by its new sums less its old ones. */
  lemma TotalAfterTurn(parts: seq<Part>, l: Layout, net: Net, i: nat, r: int)
    requires Sized(parts, l) && i < |parts|
    ensures var l' := l.(r := l.r[i := r]);
            var was, now := OwnOf(parts, l, i, net), OwnOf(parts, l', i, net);
            var t := Total(parts, l, net, |parts|);
            Total(parts, l', net, |parts|) == Sum(t.x - was.x + now.x, t.y - was.y + now.y, t.n)
  {
    var l' := l.(r := l.r[i := r]);
    TotalSplits(parts, l, net, i, |parts|);
    TotalSplits(parts, l', net, i, |parts|);
    TurnKeepsOthers(parts, l, net, i, r, |parts|);
    OwnCountIgnoresRotation(parts[i].pads, l.x[i], l.y[i], l.r[i], l.x[i], l.y[i], r, net, |parts[i].pads|);
  }

  function Shifted(s: Sum, own: Sum, sign: real): Sum {
    Sum(s.x + sign * own.x, s.y + sign * own.y, s.n)
  }

  /** Shift the cached sums of every net in `own` by `sign` times that part's sums; counts stay. */
  method Shift(sums: Sums, own: Sums, sign: real) returns (sums': Sums)
    ensures sums'.Keys == sums.Keys
    ensures forall net :: net in sums ==>
              sums'[net] == if net in own then Shifted(sums[net], own[net], sign) else sums[net]
  {
    sums' := sums;
    var todo := own.Keys;
    while todo != {}
      invariant todo <= own.Keys && sums'.Keys == sums.Keys
      invariant forall net :: net in sums ==>
        sums'[net] == if net in own && net !in todo then Shifted(sums[net], own[net], sign) else sums[net]
      decreases todo
    {
      var net :| net in todo;
      if net in sums' {
        sums' := sums'[net := Shifted(sums'[net], own[net], sign)];
      }
      todo := todo - {net};
    }
  }

  lemma OwnCount(pads: seq<Pad>, x: real, y: real, r: int, net: Net, k: nat)
    requires k <= |pads|
    ensures Own(pads, x, y, r, net, k).n >= if UsesNet(pads, net, k) then 1.0 else 0.0
  {
    if k > 0 {
      OwnCount(pads, x, y, r, net, k - 1);
      if UsesNet(pads, net, k) && pads[k - 1].net != net {
        var j :| 0 <= j < k && pads[j].net == net;
        assert UsesNet(pads, net, k - 1);
      }
    }
  }

  lemma OthersCount(parts: seq<Part>, l: Layout, net: Net, i: nat, k: nat)
    requires Sized(parts, l) && k <= |parts|
    ensures Others(parts, l, net, i, k).n >= 0.0
  {
    if k > 0 {
      OthersCount(parts, l, net, i, k - 1);
      OwnCount(parts[k - 1].pads, l.x[k - 1], l.y[k - 1], l.r[k - 1], net, |parts[k - 1].pads|);
    }
  }

  /** Every net a part uses has a cached sum. */
  lemma UsedNetIsCached(sums: Sums, parts: seq<Part>, l: Layout, i: nat, net: Net)
    requires Sized(parts, l) && i < |parts| && HoldsTotals(sums, parts, l, |parts|)
    requires UsesNet(parts[i].pads, net, |parts[i].pads|)
    ensures net in sums
  {
    TotalSplits(parts, l, net, i, |parts|);
    OthersCount(parts, l, net, i, |parts|);
    OwnCount(parts[i].pads, l.x[i], l.y[i], l.r[i], net, |parts[i].pads|);
    assert Get(sums, net).n > 0.0;
  }

  /** Replacing a part's old sums by its new ones keeps the caches equal to sums taken from scratch. */
  method Recache(sums: Sums, parts: seq<Part>, ghost l: Layout, i: nat, r: int, own: Sums, newOwn: Sums)
    returns (sums': Sums)
    requires Sized(parts, l) && i < |parts| && HoldsTotals(sums, parts, l, |parts|)
    requires HoldsOwn(own, parts[i].pads, l.x[i], l.y[i], l.r[i], |parts[i].pads|)
    requires HoldsOwn(newOwn, parts[i].pads, l.x[i], l.y[i], r, |parts[i].pads|)
    ensures HoldsTotals(sums', parts, l.(r := l.r[i := r]), |parts|)
  {
    var less := Shift(sums, own, -1.0);
    sums' := Shift(less, newOwn, 1.0);
    forall net | net != NO_NET
      ensures Get(sums', net) == Total(parts, l.(r := l.r[i := r]), net, |parts|)
    {
      RecacheNet(sums, less, sums', parts, l, i, r, own, newOwn, net);
    }
  }

  lemma RecacheNet(sums: Sums, less: Sums, sums': Sums, parts: seq<Part>, l: Layout, i: nat, r: int, own: Sums,
                   newOwn: Sums, net: Net)
    requires Sized(parts, l) && i < |parts| && HoldsTotals(sums, parts, l, |parts|) && net != NO_NET
    requires HoldsOwn(own, parts[i].pads, l.x[i], l.y[i], l.r[i], |parts[i].pads|)
    requires HoldsOwn(newOwn, parts[i].pads, l.x[i], l.y[i], r, |parts[i].pads|)
    requires sums.Keys == less.Keys == sums'.Keys
    requires net in sums ==> less[net] == if net in own then Shifted(sums[net], own[net], -1.0) else sums[net]
    requires net in less ==> sums'[net] == if net in newOwn then Shifted(less[net], newOwn[net], 1.0) else less[net]
    ensures Get(sums', net) == Total(parts, l.(r := l.r[i := r]), net, |parts|)
  {
    hide Own, Total, UsesNet, HoldsOwn, HoldsTotals, Get;
    TotalAfterTurn(parts, l, net, i, r);
    OwnGet(own, parts[i].pads, l.x[i], l.y[i], l.r[i], net);
    OwnGet(newOwn, parts[i].pads, l.x[i], l.y[i], r, net);
    TotalsGet(sums, parts, l, i, net);
    ShiftedGet(sums, own, less, -1.0, net);
    ShiftedGet(less, newOwn, sums', 1.0, net);
  }

  lemma TotalsGet(sums: Sums, parts: seq<Part>, l: Layout, i: nat, net: Net)
    requires Sized(parts, l) && i < |parts| && HoldsTotals(sums, parts, l, |parts|) && net != NO_NET
    ensures Get(sums, net) == Total(parts, l, net, |parts|)
    ensures UsesNet(parts[i].pads, net, |parts[i].pads|) ==> net in sums
  {
    if UsesNet(parts[i].pads, net, |parts[i].pads|) {
      UsedNetIsCached(sums, parts, l, i, net);
    }
  }

  lemma OwnGet(own: Sums, pads: seq<Pad>, x: real, y: real, r: int, net: Net)
    requires HoldsOwn(own, pads, x, y, r, |pads|) && net != NO_NET
    ensures Get(own, net) == Own(pads, x, y, r, net, |pads|)
    ensures net in own <==> UsesNet(pads, net, |pads|)
  {
    UnusedNet(pads, x, y, r, net, |pads|);
  }

  lemma ShiftedGet(sums: Sums, own: Sums, sums': Sums, sign: real, net: Net)
    requires sums'.Keys == sums.Keys && (net in own ==> net in sums)
    requires net in sums ==> sums'[net] == if net in own then Shifted(sums[net], own[net], sign) else sums[net]
    ensures Get(sums', net) == Shifted(Get(sums, net), Get(own, net), sign)
  {
  }

  /** Score the four poses of one part from the caches. */
  method ChoosePose(parts: seq<Part>, ghost l: Layout, i: nat, x: real, y: real, weights: map<Net, real>,
                    sqrt: real -> real,
                    sums: Sums, own: Sums) returns (r: int)
    requires Sized(parts, l) && i < |parts| && x == l.x[i] && y == l.y[i]
    requires HoldsTotals(sums, parts, l, |parts|)
    requires HoldsOwn(own, parts[i].pads, l.x[i], l.y[i], l.r[i], |parts[i].pads|)
    ensures Best(r, CostAt(parts, l, i, r, weights, sqrt)) == BestOf(parts, l, i, weights, sqrt, 4)
  {
    var best := None;
    for k := 0 to 4
      invariant best == BestOf(parts, l, i, weights, sqrt, k)
    {
      var score := CachedCost(parts, l, i, x, y, POSES[k], weights, sqrt, sums, own);
      best := Better(best, POSES[k], score);
    }
    BestOfIsBest(parts, l, i, weights, sqrt, 4);
    r := best.r;
  }

  /** Sweep all parts in order.  The result is the sweep that scores every pose against live, recomputed sums. */
  method Sweep(parts: seq<Part>, st: State, order: seq<nat>, weights: map<Net, real>, sqrt: real -> real)
    requires st.Valid(|parts|) && forall k :: 0 <= k < |order| ==> order[k] < |parts|
    modifies st.r
    ensures LayoutOf(st) == Swept(parts, old(LayoutOf(st)), order, weights, sqrt)
  {
    var sums := NetTotals(parts, LayoutOf(st));
    for k := 0 to |order|
      invariant Swept(parts, LayoutOf(st), order[k..], weights, sqrt)
             == Swept(parts, old(LayoutOf(st)), order, weights, sqrt)
      invariant HoldsTotals(sums, parts, LayoutOf(st), |parts|)
    {
      var i := order[k];
      ghost var l := LayoutOf(st);
      assert order[k..][0] == i && order[k..][1..] == order[k + 1..];
      if |parts[i].pads| >= 2 {
        var own := OwnNetSums(parts[i], st.x[i], st.y[i], st.r[i]);
        var r := ChoosePose(parts, l, i, st.x[i], st.y[i], weights, sqrt, sums, own);
        if r != st.r[i] {
          var newOwn := OwnNetSums(parts[i], st.x[i], st.y[i], r);
          sums := Recache(sums, parts, l, i, r, own, newOwn);
          st.r[i] := r;
        }
        assert LayoutOf(st) == Turned(parts, l, i, weights, sqrt);
      }
    }
  }
}
