/** Per-net pad sums of the placer: the cached sums of the rotation sweep against sums recomputed from scratch. */
module NetSums {
  import opened Courtyards

  /** Summed pad coordinates of a net, and how many pads went in. */
  datatype Sum = Sum(x: real, y: real, n: real)

  const NOTHING := Sum(0.0, 0.0, 0.0)

  function Add(a: Sum, b: Sum): Sum {
    Sum(a.x + b.x, a.y + b.y, a.n + b.n)
  }

  // ------------------------------------------------------------------------------------------------------
  // Reference sums
  // ------------------------------------------------------------------------------------------------------

  /** What one pad adds to `net`. */
  ghost function Share(pad: Pad, x: real, y: real, r: int, net: Net): Sum {
    if pad.net == net then World(pad, x, y, r) else NOTHING
  }

  /** A pad's position on the board, counted once. */
  function World(pad: Pad, x: real, y: real, r: int): Sum {
    var (rx, ry) := Rot(r, pad.x, pad.y);
    Sum(x + rx, y + ry, 1.0)
  }

  /** One part's pads on `net`, over its first `k` pads. */
  ghost function Own(pads: seq<Pad>, x: real, y: real, r: int, net: Net, k: nat): Sum
    requires k <= |pads|
  {
    if k == 0 then NOTHING else Add(Own(pads, x, y, r, net, k - 1), Share(pads[k - 1], x, y, r, net))
  }

  ghost function OwnOf(parts: seq<Part>, l: Layout, i: nat, net: Net): Sum
    requires Sized(parts, l) && i < |parts|
  {
    Own(parts[i].pads, l.x[i], l.y[i], l.r[i], net, |parts[i].pads|)
  }

  /** All pads on `net` of the first `k` parts. */
  ghost function Total(parts: seq<Part>, l: Layout, net: Net, k: nat): Sum
    requires Sized(parts, l) && k <= |parts|
  {
    if k == 0 then NOTHING else Add(Total(parts, l, net, k - 1), OwnOf(parts, l, k - 1, net))
  }

  /** All pads on `net` of the first `k` parts other than `i`. */
  ghost function Others(parts: seq<Part>, l: Layout, net: Net, i: nat, k: nat): Sum
    requires Sized(parts, l) && k <= |parts|
  {
    if k == 0 then NOTHING
    else if k - 1 == i then Others(parts, l, net, i, k - 1)
    else Add(Others(parts, l, net, i, k - 1), OwnOf(parts, l, k - 1, net))
  }

  lemma {:induction false} TotalSplits(parts: seq<Part>, l: Layout, net: Net, i: nat, k: nat)
    requires Sized(parts, l) && i < |parts| && k <= |parts|
    ensures Total(parts, l, net, k)
         == if i < k then Add(Others(parts, l, net, i, k), OwnOf(parts, l, i, net)) else Others(parts, l, net, i, k)
  {
    if k > 0 {
      TotalSplits(parts, l, net, i, k - 1);
    }
  }

  /** Turning part `i` does not change what the others contribute. */
  lemma TurnKeepsOthers(parts: seq<Part>, l: Layout, net: Net, i: nat, r: int, k: nat)
    requires Sized(parts, l) && i < |parts| && k <= |parts|
    ensures Others(parts, l.(r := l.r[i := r]), net, i, k) == Others(parts, l, net, i, k)
  {
    if k > 0 {
      TurnKeepsOthers(parts, l, net, i, r, k - 1);
    }
  }

  lemma OwnCountIgnoresRotation(pads: seq<Pad>, x: real, y: real, r: int, x': real, y': real, r': int, net: Net, k: nat)
    requires k <= |pads|
    ensures Own(pads, x, y, r, net, k).n == Own(pads, x', y', r', net, k).n
  {
    if k > 0 {
      OwnCountIgnoresRotation(pads, x, y, r, x', y', r', net, k - 1);
    }
  }

  /** Cost of pads of part `i` if it stood at (px, py) turned by `r`: weighted distance of each of its first `k` pads to
      the centroid of all other parts' pads on the same net. */
  ghost function Cost(parts: seq<Part>, l: Layout, i: nat, px: real, py: real, r: int, weights: map<Net, real>,
                      sqrt: real -> real, k: nat): real
    requires Sized(parts, l) && i < |parts| && k <= |parts[i].pads|
  {
    if k == 0 then 0.0
    else
      var pad := parts[i].pads[k - 1];
      Cost(parts, l, i, px, py, r, weights, sqrt, k - 1)
      + PadCost(pad, Others(parts, l, pad.net, i, |parts|), px, py, r, weights, sqrt)
  }

  function Weight(weights: map<Net, real>, net: Net): real {
    if net in weights then weights[net] else 1.0
  }

  /** Distance of one pad to the centroid of `others`; nothing when the pad has no net, no weight or no company. */
  function PadCost(pad: Pad, others: Sum, px: real, py: real, r: int, weights: map<Net, real>,
                   sqrt: real -> real): real {
    if pad.net == NO_NET || Weight(weights, pad.net) <= 0.0 || others.n <= 0.0 then 0.0
    else
      var (rx, ry) := Rot(r, pad.x, pad.y);
      var dx := px + rx - others.x / others.n;
      var dy := py + ry - others.y / others.n;
      Weight(weights, pad.net) * Length(dx, dy, sqrt)
  }

  function Length(dx: real, dy: real, sqrt: real -> real): real {
    sqrt(dx * dx + dy * dy)
  }

  // ------------------------------------------------------------------------------------------------------
  // The caches
  // ------------------------------------------------------------------------------------------------------

  type Sums = map<Net, Sum>

  ghost predicate UsesNet(pads: seq<Pad>, net: Net, k: nat)
    requires k <= |pads|
  {
    net != NO_NET && exists j :: 0 <= j < k && pads[j].net == net
  }

  /** `own` holds exactly the sums of the part's first `k` pads, per net. */
  ghost predicate HoldsOwn(own: Sums, pads: seq<Pad>, x: real, y: real, r: int, k: nat)
    requires k <= |pads|
  {
    && (forall net :: net in own <==> UsesNet(pads, net, k))
    && (forall net :: net in own ==> own[net] == Own(pads, x, y, r, net, k))
  }

  function Get(sums: Sums, net: Net): Sum {
    if net in sums then sums[net] else NOTHING
  }

  /** Count one more pad; a pad without a net is left out. */
  function WithPad(sums: Sums, pad: Pad, x: real, y: real, r: int): Sums {
    if pad.net == NO_NET then sums else sums[pad.net := Add(Get(sums, pad.net), World(pad, x, y, r))]
  }

  lemma WithPadCounts(sums: Sums, pad: Pad, x: real, y: real, r: int, net: Net)
    ensures net != NO_NET ==> Get(WithPad(sums, pad, x, y, r), net) == Add(Get(sums, net), Share(pad, x, y, r, net))
    ensures net in WithPad(sums, pad, x, y, r) <==> net in sums || (net == pad.net && net != NO_NET)
  {
    hide World;
  }

  method OwnNetSums(p: Part, x: real, y: real, r: int) returns (own: Sums)
    ensures HoldsOwn(own, p.pads, x, y, r, |p.pads|)
  {
    own := map[];
    for k := 0 to |p.pads|
      invariant HoldsOwn(own, p.pads, x, y, r, k)
    {
      own := AddPad(own, p.pads, x, y, r, k);
    }
  }

  /** One more pad into a sum table. */
  method AddPad(own: Sums, pads: seq<Pad>, x: real, y: real, r: int, k: nat) returns (own': Sums)
    requires k < |pads| && HoldsOwn(own, pads, x, y, r, k)
    ensures HoldsOwn(own', pads, x, y, r, k + 1)
  {
    var pad := pads[k];
    own' := WithPad(own, pad, x, y, r);
    forall net
      ensures UsesNet(pads, net, k + 1) <==> UsesNet(pads, net, k) || (net == pad.net && net != NO_NET)
    {
      if UsesNet(pads, net, k + 1) {
        var j :| 0 <= j < k + 1 && pads[j].net == net;
        assert j < k ==> UsesNet(pads, net, k);
      }
      if net == pad.net && net != NO_NET {
        assert pads[k].net == net;
      }
    }
    hide UsesNet, World, WithPad, Share, Add;
    forall net
      ensures net in own' <==> net in own || (net == pad.net && net != NO_NET)
      ensures net in own' ==> own'[net] == Own(pads, x, y, r, net, k + 1)
    {
      WithPadCounts(own, pad, x, y, r, net);
      UnusedNet(pads, x, y, r, net, k);
    }
  }

  lemma UnusedNet(pads: seq<Pad>, x: real, y: real, r: int, net: Net, k: nat)
    requires k <= |pads|
    ensures !UsesNet(pads, net, k) && net != NO_NET ==> Own(pads, x, y, r, net, k) == NOTHING
  {
    if k > 0 && net != NO_NET && !UsesNet(pads, net, k) {
      assert pads[k - 1].net != net;
      assert !UsesNet(pads, net, k - 1);
      UnusedNet(pads, x, y, r, net, k - 1);
    }
  }

  /** `sums` holds, for every net, the sum over the pads of all parts. */
  ghost predicate HoldsTotals(sums: Sums, parts: seq<Part>, l: Layout, k: nat)
    requires Sized(parts, l) && k <= |parts|
  {
    forall net :: net != NO_NET ==> Get(sums, net) == Total(parts, l, net, k)
  }

  /** Sum every pad of every part, net by net. */
  method NetTotals(parts: seq<Part>, l: Layout) returns (sums: Sums)
    requires Sized(parts, l)
    ensures HoldsTotals(sums, parts, l, |parts|)
  {
    sums := map[];
    for i := 0 to |parts|
      invariant HoldsTotals(sums, parts, l, i)
    {
      ghost var was := sums;
      sums := AddPart(sums, parts[i].pads, l.x[i], l.y[i], l.r[i]);
      assert Gained(was, sums, parts[i].pads, l.x[i], l.y[i], l.r[i], |parts[i].pads|);
    }
  }

  /** `sums` is `before` plus the first `k` of the pads. */
  ghost predicate Gained(before: Sums, sums: Sums, pads: seq<Pad>, x: real, y: real, r: int, k: nat)
    requires k <= |pads|
  {
    forall net :: net != NO_NET ==> Get(sums, net) == Add(Get(before, net), Own(pads, x, y, r, net, k))
  }

  /** Add the pads of one part to the sums. */
  method AddPart(before: Sums, pads: seq<Pad>, x: real, y: real, r: int) returns (sums: Sums)
    ensures Gained(before, sums, pads, x, y, r, |pads|)
  {
    sums := before;
    assert Gained(before, sums, pads, x, y, r, 0);
    for k := 0 to |pads|
      invariant Gained(before, sums, pads, x, y, r, k)
    {
      GainOne(before, sums, pads, x, y, r, k);
      sums := WithPad(sums, pads[k], x, y, r);
    }
  }

  lemma {:induction false} GainOne(before: Sums, sums: Sums, pads: seq<Pad>, x: real, y: real, r: int, k: nat)
    requires k < |pads| && Gained(before, sums, pads, x, y, r, k)
    ensures Gained(before, WithPad(sums, pads[k], x, y, r), pads, x, y, r, k + 1)
  {
    var sums' := WithPad(sums, pads[k], x, y, r);
    forall net | net != NO_NET
      ensures Get(sums', net) == Add(Get(before, net), Own(pads, x, y, r, net, k + 1))
    {
      AddAssociates(Get(before, net), Own(pads, x, y, r, net, k), Share(pads[k], x, y, r, net));
      WithPadCounts(sums, pads[k], x, y, r, net);
      hide WithPad, Get, Share, Add;
    }
  }

  lemma AddAssociates(a: Sum, b: Sum, c: Sum)
    ensures Add(Add(a, b), c) == Add(a, Add(b, c))
  {
  }

  /** The cost of one pose from the caches: cached totals less the part's own sums. */
  method CachedCost(parts: seq<Part>, ghost l: Layout, i: nat, px: real, py: real, r: int, weights: map<Net, real>,
                    sqrt: real -> real, sums: Sums, own: Sums) returns (cost: real)
    requires Sized(parts, l) && i < |parts|
    requires HoldsTotals(sums, parts, l, |parts|)
    requires HoldsOwn(own, parts[i].pads, l.x[i], l.y[i], l.r[i], |parts[i].pads|)
    ensures cost == Cost(parts, l, i, px, py, r, weights, sqrt, |parts[i].pads|)
  {
    cost := 0.0;
    var pads := parts[i].pads;
    for k := 0 to |pads|
      invariant cost == Cost(parts, l, i, px, py, r, weights, sqrt, k)
    {
      var pad := pads[k];
      if pad.net != NO_NET {
        var all, mine := Get(sums, pad.net), Get(own, pad.net);
        assert UsesNet(pads, pad.net, |pads|);
        TotalSplits(parts, l, pad.net, i, |parts|);
        var others := Sum(all.x - mine.x, all.y - mine.y, all.n - mine.n);
        assert others == Others(parts, l, pad.net, i, |parts|);
        cost := cost + PadCost(pad, others, px, py, r, weights, sqrt);
      }
    }
  }
}
