/** What every pad of the board puts into the copper at its point. */
module PadSeries {
  import opened Optional
  import opened Series
  import opened Quads

  datatype Pad = Pad(componentId: string, net: string, at: Point, sourcePin: Option<string>)

  /** Which series holds a device's current, and the pins its positive direction enters and leaves by. */
  datatype BranchCurrent = BranchCurrent(series: string, intoPin: string, outOfPin: string)

  /** What the simulator and the schematic know.  The empty designator stands for none. */
  datatype Readings = Readings(designators: map<string, string>, branches: map<string, BranchCurrent>,
      seriesAt: string -> Option<Series>)

  ghost predicate FullSeries(known: Readings, frames: nat) {
    forall s :: known.seriesAt(s).Some? ==> |known.seriesAt(s).value| == frames
  }

  /** At the pin it enters by, a device takes its current out of the copper; at the other it puts it back. */
  function PadSign(pad: Pad, branch: BranchCurrent): Option<real> {
    if pad.sourcePin == None then None
    else if pad.sourcePin.value == branch.intoPin then Some(-1.0)
    else if pad.sourcePin.value == branch.outOfPin then Some(1.0)
    else None
  }

  function Designator(pad: Pad, known: Readings): string {
    if pad.componentId in known.designators then known.designators[pad.componentId] else ""
  }

  /** The signed current a pad injects, when it can be known. */
  function Reading(pad: Pad, known: Readings): (r: Option<Series>) {
    var d := Designator(pad, known);
    if d == "" || d !in known.branches then None
    else
      var data, sign := known.seriesAt(known.branches[d].series), PadSign(pad, known.branches[d]);
      if data == None || sign == None then None else Some(Scaled(sign.value, data.value))
  }

  /** A pad reads `r`: its component has a designator, that device's current is known, and the pad is one of the two
      pins the current runs between. Where it enters the device the copper loses it, where it leaves the copper gains
      it. */
  ghost predicate Reads(pad: Pad, known: Readings, r: Series) {
    && pad.componentId in known.designators
    && var d := known.designators[pad.componentId];
       && d != "" && d in known.branches && pad.sourcePin.Some?
       && var branch, pin := known.branches[d], pad.sourcePin.value;
          && known.seriesAt(branch.series).Some? && pin in {branch.intoPin, branch.outOfPin}
          && var current := known.seriesAt(branch.series).value;
             |r| == |current|
             && forall f :: 0 <= f < |r| ==> r[f] == if pin == branch.intoPin then -current[f] else current[f]
  }

  lemma ReadingMeans(pad: Pad, known: Readings, r: Series)
    ensures Reading(pad, known) == Some(r) <==> Reads(pad, known, r)
  {
    if Reads(pad, known, r) {
      assert Reading(pad, known).value == r;
    }
  }

  /** What a device takes out of the copper at one pin it puts back at the other. */
  lemma DeviceAddsNothing(p: Pad, q: Pad, known: Readings, f: nat)
    requires p.componentId == q.componentId && Reading(p, known).Some? && Reading(q, known).Some?
    requires p.sourcePin != q.sourcePin
    ensures |Reading(p, known).value| == |Reading(q, known).value|
    ensures f < |Reading(p, known).value| ==> Reading(p, known).value[f] + Reading(q, known).value[f] == 0.0
  {
  }

  /** Some pad at `node` cannot be read. */
  ghost predicate Poisoned(pads: seq<Pad>, k: nat, known: Readings, key: Point -> Key, node: Key)
    requires k <= |pads|
  {
    exists i :: 0 <= i < k && key(pads[i].at) == node && Reading(pads[i], known).None?
  }

  ghost predicate HasPad(pads: seq<Pad>, k: nat, key: Point -> Key, node: Key)
    requires k <= |pads|
  {
    exists i :: 0 <= i < k && key(pads[i].at) == node
  }

  /** Sum over the readable pads at `node`, at frame `f`. */
  ghost function Injected(pads: seq<Pad>, k: nat, known: Readings, key: Point -> Key, node: Key, f: nat): real
    requires k <= |pads|
  {
    if k == 0 then 0.0
    else
      Injected(pads, k - 1, known, key, node, f) + InjectedBy(pads[k - 1], known, key, node, f)
  }

  ghost function InjectedBy(pad: Pad, known: Readings, key: Point -> Key, node: Key, f: nat): real {
    var r := Reading(pad, known);
    if key(pad.at) == node && r.Some? && f < |r.value| then r.value[f] else 0.0
  }

  ghost predicate Entry(pads: seq<Pad>, k: nat, known: Readings, key: Point -> Key, frames: nat, node: Key,
                        s: Option<Series>)
    requires k <= |pads|
  {
    && (s.None? <==> Poisoned(pads, k, known, key, node))
    && (s.Some? ==> |s.value| == frames && forall f :: 0 <= f < frames ==>
        s.value[f] == Injected(pads, k, known, key, node, f))
  }

  /** Each node with a pad holds the sum of what its pads inject, or nothing when one of them is unknown. */
  ghost predicate Summed(pads: seq<Pad>, k: nat, known: Readings, key: Point -> Key, frames: nat,
                         m: map<Key, Option<Series>>)
    requires k <= |pads|
  {
    && (forall node :: node in m <==> HasPad(pads, k, key, node))
    && (forall node :: node in m ==> Entry(pads, k, known, key, frames, node, m[node]))
  }

  /** What the pad loop does with one pad. */
  function AddPad(m: map<Key, Option<Series>>, node: Key, r: Option<Series>, frames: nat): map<Key, Option<Series>>
    requires r.Some? ==> |r.value| == frames
    requires node in m && m[node].Some? ==> |m[node].value| == frames
  {
    if r == None then m[node := None]
    else if node in m && m[node] == None then m
    else m[node := Some(Plus(if node in m then m[node].value else Zero(frames), r.value))]
  }

  lemma NoPadNothingInjected(pads: seq<Pad>, k: nat, known: Readings, key: Point -> Key, node: Key, f: nat)
    requires k <= |pads| && !HasPad(pads, k, key, node)
    ensures Injected(pads, k, known, key, node, f) == 0.0 && !Poisoned(pads, k, known, key, node)
  {
    if k > 0 {
      assert !HasPad(pads, k - 1, key, node);
      NoPadNothingInjected(pads, k - 1, known, key, node, f);
    }
  }

  lemma PadStep(pads: seq<Pad>, k: nat, next: nat, known: Readings, key: Point -> Key, node: Key)
    requires k < |pads| && next == k + 1
    ensures HasPad(pads, next, key, node) <==> HasPad(pads, k, key, node) || key(pads[k].at) == node
    ensures Poisoned(pads, next, known, key, node) <==>
            Poisoned(pads, k, known, key, node) || (key(pads[k].at) == node && Reading(pads[k], known).None?)
  {
    hide Reading;
    if HasPad(pads, next, key, node) && key(pads[k].at) != node {
      var i :| 0 <= i < next && key(pads[i].at) == node;
      assert i < k;
    }
    if Poisoned(pads, next, known, key, node) && !(key(pads[k].at) == node && Reading(pads[k], known).None?) {
      var i :| 0 <= i < next && key(pads[i].at) == node && Reading(pads[i], known).None?;
      assert i < k;
    }
  }

  lemma AddPadSums(pads: seq<Pad>, k: nat, next: nat, known: Readings, key: Point -> Key, frames: nat,
                   m: map<Key, Option<Series>>)
    requires k < |pads| && next == k + 1 && FullSeries(known, frames) && Summed(pads, k, known, key, frames, m)
    ensures var r := Reading(pads[k], known); r.Some? ==> |r.value| == frames
    ensures key(pads[k].at) in m && m[key(pads[k].at)].Some? ==> |m[key(pads[k].at)].value| == frames
    ensures Summed(pads, next, known, key, frames, AddPad(m, key(pads[k].at), Reading(pads[k], known), frames))
  {
    var at, r := key(pads[k].at), Reading(pads[k], known);
    assert r.Some? ==> |r.value| == frames;
    hide Reading, FullSeries, HasPad, Poisoned;
    var m' := AddPad(m, at, r, frames);
    forall node
      ensures node in m' <==> HasPad(pads, next, key, node)
      ensures node in m' ==> Entry(pads, next, known, key, frames, node, m'[node])
    {
      PadStep(pads, k, next, known, key, node);
      if node in m' {
        EntryStep(pads, k, next, known, key, frames, m, node);
      }
    }
  }

  lemma EntryStep(pads: seq<Pad>, k: nat, next: nat, known: Readings, key: Point -> Key, frames: nat,
                  m: map<Key, Option<Series>>, node: Key)
    requires k < |pads| && next == k + 1 && Summed(pads, k, known, key, frames, m)
    requires var r := Reading(pads[k], known); r.Some? ==> |r.value| == frames
    requires node in AddPad(m, key(pads[k].at), Reading(pads[k], known), frames)
    ensures Entry(pads, next, known, key, frames, node,
              AddPad(m, key(pads[k].at), Reading(pads[k], known), frames)[node])
  {
    var at, r := key(pads[k].at), Reading(pads[k], known);
    PadStep(pads, k, next, known, key, node);
    hide Reading, HasPad, Poisoned, Injected;
    forall f: nat
      ensures Injected(pads, next, known, key, node, f)
           == Injected(pads, k, known, key, node, f)
              + if at == node && r.Some? && f < |r.value| then r.value[f] else 0.0
      ensures node !in m ==> Injected(pads, k, known, key, node, f) == 0.0 && !Poisoned(pads, k, known, key, node)
    {
      InjectedStep(pads, k, next, known, key, node, f);
      if node !in m {
        NoPadNothingInjected(pads, k, known, key, node, f);
      }
    }
  }

  lemma InjectedStep(pads: seq<Pad>, k: nat, next: nat, known: Readings, key: Point -> Key, node: Key, f: nat)
    requires k < |pads| && next == k + 1
    ensures var r := Reading(pads[k], known);
            Injected(pads, next, known, key, node, f)
            == Injected(pads, k, known, key, node, f)
               + if key(pads[k].at) == node && r.Some? && f < |r.value| then r.value[f] else 0.0
  {
    hide Reading;
  }

  lemma NothingSummed(pads: seq<Pad>, known: Readings, key: Point -> Key, frames: nat)
    ensures Summed(pads, 0, known, key, frames, map[])
  {
  }

  /** Sums the pads node by node and names the devices whose current is not known. */
  method SumPads(pads: seq<Pad>, known: Readings, key: Point -> Key, frames: nat)
    returns (m: map<Key, Option<Series>>, unresolvedBy: set<string>)
    requires FullSeries(known, frames)
    ensures Summed(pads, |pads|, known, key, frames, m)
    ensures forall d :: d in unresolvedBy <==>
              d != "" && exists i :: 0 <= i < |pads| && Designator(pads[i], known) == d && Reading(pads[i], known).None?
  {
    m, unresolvedBy := map[], {};
    hide Reading, FullSeries, Designator, Summed;
    NothingSummed(pads, known, key, frames);
    for k := 0 to |pads|
      invariant Summed(pads, k, known, key, frames, m)
      invariant forall d :: d in unresolvedBy <==>
                  d != "" && exists i :: 0 <= i < k && Designator(pads[i], known) == d && Reading(pads[i], known).None?
    {
      AddPadSums(pads, k, k + 1, known, key, frames, m);
      var d, r := Designator(pads[k], known), Reading(pads[k], known);
      m := AddPad(m, key(pads[k].at), r, frames);
      if r == None && d != "" {
        unresolvedBy := unresolvedBy + {d};
        assert Designator(pads[k], known) == d && Reading(pads[k], known).None?;
      }
    }
  }

  // ------------------------------------------------------------------------------------------------------
  // Pads of other nets
  // ------------------------------------------------------------------------------------------------------

  /** Of the first `k` pads, those of a net, or those of all others. */
  ghost function Select(pads: seq<Pad>, k: nat, net: string, own: bool): (s: seq<Pad>)
    requires k <= |pads|
    ensures forall p :: p in s <==> p in pads[..k] && (p.net == net <==> own)
  {
    if k == 0 then []
    else
      assert pads[..k] == pads[..k - 1] + [pads[k - 1]];
      var rest := Select(pads, k - 1, net, own);
      if (pads[k - 1].net == net) == own then rest + [pads[k - 1]] else rest
  }

  ghost function Own(pads: seq<Pad>, net: string): seq<Pad> {
    Select(pads, |pads|, net, true)
  }

  ghost function Foreign(pads: seq<Pad>, net: string): seq<Pad> {
    Select(pads, |pads|, net, false)
  }

  lemma {:induction false} InjectedPrefix(pads: seq<Pad>, more: seq<Pad>, k: nat, known: Readings, key: Point -> Key,
                                          node: Key, f: nat)
    requires k <= |pads|
    ensures Injected(pads + more, k, known, key, node, f) == Injected(pads, k, known, key, node, f)
  {
    if k > 0 {
      InjectedPrefix(pads, more, k - 1, known, key, node, f);
    }
  }

  lemma InjectedOneMore(pads: seq<Pad>, pad: Pad, known: Readings, key: Point -> Key, node: Key, f: nat)
    ensures Injected(pads + [pad], |pads| + 1, known, key, node, f)
         == Injected(pads, |pads|, known, key, node, f) + InjectedBy(pad, known, key, node, f)
  {
    hide InjectedBy;
    InjectedPrefix(pads, [pad], |pads|, known, key, node, f);
  }

  /** What is injected at a point is what the net's own pads inject there and what the others do. */
  lemma {:induction false} InjectedSplits(pads: seq<Pad>, k: nat, net: string, known: Readings, key: Point -> Key,
                                          node: Key, f: nat)
    requires k <= |pads|
    ensures var own, foreign := Select(pads, k, net, true), Select(pads, k, net, false);
            Injected(pads, k, known, key, node, f)
            == Injected(own, |own|, known, key, node, f) + Injected(foreign, |foreign|, known, key, node, f)
  {
    hide InjectedBy;
    if k > 0 {
      InjectedSplits(pads, k - 1, net, known, key, node, f);
      InjectedOneMore(Select(pads, k - 1, net, pads[k - 1].net == net), pads[k - 1], known, key, node, f);
    }
  }

  ghost predicate SomePad(pads: seq<Pad>, key: Point -> Key, node: Key) {
    exists p :: p in pads && key(p.at) == node
  }

  ghost predicate SomeUnread(pads: seq<Pad>, known: Readings, key: Point -> Key, node: Key) {
    exists p :: p in pads && key(p.at) == node && Reading(p, known).None?
  }

  lemma PadsByMembership(pads: seq<Pad>, known: Readings, key: Point -> Key, node: Key)
    ensures HasPad(pads, |pads|, key, node) <==> SomePad(pads, key, node)
    ensures Poisoned(pads, |pads|, known, key, node) <==> SomeUnread(pads, known, key, node)
  {
    hide Reading;
    if SomePad(pads, key, node) {
      var p :| p in pads && key(p.at) == node;
      var i :| 0 <= i < |pads| && pads[i] == p;
    }
    if SomeUnread(pads, known, key, node) {
      var p :| p in pads && key(p.at) == node && Reading(p, known).None?;
      var i :| 0 <= i < |pads| && pads[i] == p;
    }
  }

  lemma PadsSplit(pads: seq<Pad>, net: string, known: Readings, key: Point -> Key, node: Key)
    ensures SomePad(pads, key, node) <==> SomePad(Own(pads, net), key, node) || SomePad(Foreign(pads, net), key, node)
    ensures SomeUnread(pads, known, key, node) <==>
            SomeUnread(Own(pads, net), known, key, node) || SomeUnread(Foreign(pads, net), known, key, node)
  {
    hide Reading;
    assert pads[..|pads|] == pads;
    assert forall p :: p in pads <==> p in Own(pads, net) || p in Foreign(pads, net);
  }

  /** Pads of other nets at this point do not count: there are none without a pad of the net's own, none that cannot be
      read where the net's own can, and together they inject nothing. */
  ghost predicate ForeignHarmless(pads: seq<Pad>, net: string, known: Readings, key: Point -> Key, frames: nat,
                                  node: Key) {
    var own, foreign := Own(pads, net), Foreign(pads, net);
    && (SomePad(foreign, key, node) ==> SomePad(own, key, node))
    && (SomeUnread(foreign, known, key, node) ==> SomeUnread(own, known, key, node))
    && (!SomeUnread(own, known, key, node) ==> NothingInjected(foreign, known, key, frames, node))
  }

  ghost predicate NothingInjected(pads: seq<Pad>, known: Readings, key: Point -> Key, frames: nat, node: Key) {
    forall f :: 0 <= f < frames ==> Injected(pads, |pads|, known, key, node, f) == 0.0
  }

  /** The two tables say the same of a point. */
  ghost predicate SameAt(m: map<Key, Option<Series>>, m': map<Key, Option<Series>>, node: Key) {
    (node in m <==> node in m') && (node in m ==> m[node] == m'[node])
  }

  lemma EntryIs(pads: seq<Pad>, known: Readings, key: Point -> Key, frames: nat, m: map<Key, Option<Series>>, node: Key)
    requires Summed(pads, |pads|, known, key, frames, m)
    ensures node in m <==> SomePad(pads, key, node)
    ensures node in m ==> (m[node].None? <==> SomeUnread(pads, known, key, node))
    ensures node in m && m[node].Some? ==> |m[node].value| == frames
    ensures node in m && m[node].Some? ==>
      forall f :: 0 <= f < frames ==> m[node].value[f] == Injected(pads, |pads|, known, key, node, f)
  {
    PadsByMembership(pads, known, key, node);
    hide Reading, SomePad, SomeUnread;
    assert node in m ==> Entry(pads, |pads|, known, key, frames, node, m[node]);
  }

  /** A point is given exactly its net's own pad currents when, and only when, the pads of other nets there are
      harmless. */
  lemma OwnCurrentsExactlyWhen(pads: seq<Pad>, net: string, known: Readings, key: Point -> Key, frames: nat, node: Key,
                               m: map<Key, Option<Series>>, m': map<Key, Option<Series>>)
    requires Summed(pads, |pads|, known, key, frames, m)
    requires Summed(Own(pads, net), |Own(pads, net)|, known, key, frames, m')
    ensures SameAt(m, m', node) <==> ForeignHarmless(pads, net, known, key, frames, node)
  {
    hide Summed, SomePad, SomeUnread, Own, Foreign, NothingInjected, Injected;
    var own, foreign := Own(pads, net), Foreign(pads, net);
    EntryIs(pads, known, key, frames, m, node);
    EntryIs(own, known, key, frames, m', node);
    PadsSplit(pads, net, known, key, node);
    UnreadIsPad(own, known, key, node);
    NoPadNothing(foreign, known, key, frames, node);
    if node in m && node in m' && m[node].Some? && m'[node].Some? {
      SumsAgree(pads, net, known, key, frames, node, m[node].value, m'[node].value);
    }
  }

  /** Two sums at a point agree exactly when the other nets' pads add nothing. */
  lemma SumsAgree(pads: seq<Pad>, net: string, known: Readings, key: Point -> Key, frames: nat, node: Key, all: Series,
                  ownSum: Series)
    requires |all| == |ownSum| == frames
    requires forall f :: 0 <= f < frames ==> all[f] == Injected(pads, |pads|, known, key, node, f)
    requires forall f :: 0 <= f < frames ==>
               ownSum[f] == Injected(Own(pads, net), |Own(pads, net)|, known, key, node, f)
    ensures all == ownSum <==> NothingInjected(Foreign(pads, net), known, key, frames, node)
  {
    forall f | 0 <= f < frames
      ensures all[f] == ownSum[f] + Injected(Foreign(pads, net), |Foreign(pads, net)|, known, key, node, f)
    {
      InjectedSplits(pads, |pads|, net, known, key, node, f);
    }
    hide Injected, Own, Foreign;
    if NothingInjected(Foreign(pads, net), known, key, frames, node) {
      assert forall f :: 0 <= f < frames ==> all[f] == ownSum[f];
    }
  }

  lemma UnreadIsPad(pads: seq<Pad>, known: Readings, key: Point -> Key, node: Key)
    ensures SomeUnread(pads, known, key, node) ==> SomePad(pads, key, node)
  {
    hide Reading;
  }

  lemma NoPadNothing(pads: seq<Pad>, known: Readings, key: Point -> Key, frames: nat, node: Key)
    ensures !SomePad(pads, key, node) ==>
              !SomeUnread(pads, known, key, node) && NothingInjected(pads, known, key, frames, node)
  {
    if !SomePad(pads, key, node) {
      PadsByMembership(pads, known, key, node);
      forall f | 0 <= f < frames
        ensures Injected(pads, |pads|, known, key, node, f) == 0.0
      {
        NoPadNothingInjected(pads, |pads|, known, key, node, f);
      }
    }
  }
}
