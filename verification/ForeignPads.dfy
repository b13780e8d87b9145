/** A surface pad of one net above a bend in another net's trace on the layer below: a legal board on which the trace is
    solved with a current that is not its own. */
module ForeignPads {
  import opened Optional
  import opened Graph
  import opened Kirchhoff
  import opened Series
  import opened SpanningTree
  import opened SolveNet
  import opened Quads
  import opened PadSeries
  import opened BuildFlow

  /** The trace of net A, from its pad at `START` to its pad at `END`; net B has a pad where it bends. */
  const START := Point(0.0, 0.0)
  const BEND := Point(1.0, 0.0)
  const END := Point(1.0, 1.0)

  const PADS := [Pad("c1", "A", START, Some("2")), Pad("c2", "A", END, Some("1")), Pad("c3", "B", BEND, Some("2"))]

  /** The trace's two quads, its points numbered as they are met. */
  const TRACE := [Edge(0, 1), Edge(1, 2)]

  /** One ampere goes in at the start and out at the end; at the bend net B's device returns `x`, if that is known. */
  function Known(x: Option<real>): Readings {
    Readings(map["c1" := "R1", "c2" := "R2", "c3" := "R3"],
             map["R1" := BranchCurrent("i1", "1", "2"), "R2" := BranchCurrent("i1", "1", "2"),
                 "R3" := BranchCurrent("i3", "1", "2")],
             s => if s == "i1" then Some([1.0]) else if s == "i3" && x.Some? then Some([x.value]) else None)
  }

  predicate Apart(key: Point -> Key) {
    key(START) != key(BEND) && key(BEND) != key(END) && key(START) != key(END)
  }

  function Nodes(key: Point -> Key): seq<Key> {
    [key(START), key(BEND), key(END)]
  }

  lemma PadReadings(x: Option<real>)
    ensures FullSeries(Known(x), 1)
    ensures Reading(PADS[0], Known(x)) == Some([1.0]) && Reading(PADS[1], Known(x)) == Some([-1.0])
    ensures Reading(PADS[2], Known(x)) == if x.Some? then Some([x.value]) else None
  {
    assert Scaled(1.0, [1.0]) == [1.0] && Scaled(-1.0, [1.0]) == [-1.0];
    if x.Some? {
      assert Scaled(1.0, [x.value]) == [x.value];
    }
  }

  /** Only pad `i` lies at its point. */
  ghost predicate Alone(pads: seq<Pad>, key: Point -> Key, i: nat) {
    i < |pads| && forall j :: 0 <= j < |pads| && j != i ==> key(pads[j].at) != key(pads[i].at)
  }

  lemma {:induction false} InjectedAlone(pads: seq<Pad>, k: nat, known: Readings, key: Point -> Key, i: nat, f: nat)
    requires k <= |pads| && Alone(pads, key, i)
    ensures Injected(pads, k, known, key, key(pads[i].at), f)
         == if i < k then InjectedBy(pads[i], known, key, key(pads[i].at), f) else 0.0
  {
    hide Reading;
    if k > 0 {
      InjectedAlone(pads, k - 1, known, key, i, f);
    }
  }

  /** A pad alone at its point is what is injected there. */
  lemma SumAlone(pads: seq<Pad>, known: Readings, key: Point -> Key, frames: nat, m: map<Key, Option<Series>>, i: nat)
    requires Summed(pads, |pads|, known, key, frames, m) && Alone(pads, key, i)
    requires Reading(pads[i], known).Some? ==> |Reading(pads[i], known).value| == frames
    ensures key(pads[i].at) in m && m[key(pads[i].at)] == Reading(pads[i], known)
  {
    hide Reading;
    var node := key(pads[i].at);
    assert HasPad(pads, |pads|, key, node);
    assert Entry(pads, |pads|, known, key, frames, node, m[node]);
    forall f | 0 <= f < frames
      ensures Injected(pads, |pads|, known, key, node, f) == InjectedBy(pads[i], known, key, node, f)
    {
      InjectedAlone(pads, |pads|, known, key, i, f);
    }
    assert m[node].Some? ==> Reading(pads[i], known).Some? && m[node].value == Reading(pads[i], known).value;
  }

  /** Without any pad a point has no entry. */
  lemma NoPadNoEntry(pads: seq<Pad>, known: Readings, key: Point -> Key, frames: nat, m: map<Key, Option<Series>>,
                     node: Key)
    requires Summed(pads, |pads|, known, key, frames, m) && forall i :: 0 <= i < |pads| ==> key(pads[i].at) != node
    ensures node !in m
  {
  }

  /** What is injected at the three points, all pads counted. */
  lemma LocalCurrents(x: Option<real>, key: Point -> Key, sums: map<Key, Option<Series>>)
    requires Apart(key) && Summed(PADS, 3, Known(x), key, 1, sums)
    ensures LocalPads(Nodes(key), sums)
         == map[0 := Some([1.0]), 1 := if x.Some? then Some([x.value]) else None, 2 := Some([-1.0])]
  {
    PadReadings(x);
    hide Reading, Known, Summed;
    SumAlone(PADS, Known(x), key, 1, sums, 0);
    SumAlone(PADS, Known(x), key, 1, sums, 1);
    SumAlone(PADS, Known(x), key, 1, sums, 2);
  }

  /** And with net A's own pads alone. */
  lemma OwnCurrents(x: Option<real>, key: Point -> Key, sums: map<Key, Option<Series>>)
    requires Apart(key) && Summed(PADS[..2], 2, Known(x), key, 1, sums)
    ensures LocalPads(Nodes(key), sums) == map[0 := Some([1.0]), 2 := Some([-1.0])]
  {
    PadReadings(x);
    NoPadNoEntry(PADS[..2], Known(x), key, 1, sums, key(BEND));
    hide Reading, Known, Summed;
    SumAlone(PADS[..2], Known(x), key, 1, sums, 0);
    SumAlone(PADS[..2], Known(x), key, 1, sums, 1);
  }

  lemma OwnPads()
    ensures Own(PADS, "A") == PADS[..2]
  {
    assert Select(PADS, 0, "A", true) == [];
    assert Select(PADS, 1, "A", true) == [PADS[0]];
    assert Select(PADS, 2, "A", true) == [PADS[0], PADS[1]];
    assert PADS[2].net != "A";
  }

  lemma TraceIsOpen()
    ensures WellFormed(3, TRACE) && !HasCycle(TRACE) && !IsRoot(3, TRACE, 1) && !IsRoot(3, TRACE, 2)
  {
    assert Labels(3, TRACE, 0, -1) == [0, 1, 2];
    assert Labels(3, TRACE, 1, -1) == [1, 1, 2];
    var L := Labels(3, TRACE, 2, -1);
    assert L == [2, 2, 2];
    assert LabelSet(L) == {2};
    CycleIffTooManyEdges(3, TRACE);
  }

  /** The two currents of the trace, given what goes in at its bend and its end. */
  lemma TraceValues(pads: PadCurrents, rows: seq<Option<Series>>, bend: real)
    requires WellFormed(3, TRACE) && !HasCycle(TRACE) && !IsRoot(3, TRACE, 1) && !IsRoot(3, TRACE, 2)
    requires |rows| == 2 && ValidRows(rows, 1) && rows[0].Some? && rows[1].Some?
    requires PadAt(pads, 1, 0) == bend && PadAt(pads, 2, 0) == -1.0
    requires Conserves(3, TRACE, FlowAt(rows, 0), Accounted(3, TRACE, PadsOf(pads, 3, 0)))
    ensures rows == [Some([1.0 - bend]), Some([1.0])]
  {
    var phi, h := FlowAt(rows, 0), Accounted(3, TRACE, PadsOf(pads, 3, 0));
    assert h[1] == bend && h[2] == -1.0;
    hide Accounted, PadsOf, IsRoot, HasCycle;
    assert Net(TRACE, phi, 1, 1) == -phi[0] && Net(TRACE, phi, 1, 2) == phi[1] - phi[0];
    assert Net(TRACE, phi, 2, 1) == 0.0 && Net(TRACE, phi, 2, 2) == -phi[1];
    assert rows[0].value == [phi[0]] && rows[1].value == [phi[1]];
  }

  /** The pad at the bend is not harmless to net A. */
  lemma BendIsForeign(x: Option<real>, key: Point -> Key, sums: map<Key, Option<Series>>,
                      ownSums: map<Key, Option<Series>>)
    requires Apart(key) && Summed(PADS, 3, Known(x), key, 1, sums) && Summed(PADS[..2], 2, Known(x), key, 1, ownSums)
    ensures !ForeignHarmless(PADS, "A", Known(x), key, 1, key(BEND))
    ensures LocalPads(Nodes(key), sums) != LocalPads(Nodes(key), ownSums)
  {
    OwnPads();
    LocalCurrents(x, key, sums);
    OwnCurrents(x, key, ownSums);
    assert 1 in LocalPads(Nodes(key), sums) && 1 !in LocalPads(Nodes(key), ownSums);
    hide Own, Known, Summed, ForeignHarmless;
    OwnCurrentsExactlyWhen(PADS, "A", Known(x), key, 1, key(BEND), sums, ownSums);
  }

  /** Solve the trace with `bend` injected at its bend, unknown for `None`, nothing without an entry. */
  method SolveTrace(local: PadCurrents, ghost bend: Option<real>)
    returns (rows: seq<Option<Series>>, reason: Option<Reason>)
    requires local.Keys <= {0, 1, 2} && 0 in local && 2 in local
    requires local[0] == Some([1.0]) && local[2] == Some([-1.0])
    requires if 1 in local then local[1] == (if bend.Some? then Some([bend.value]) else None) else bend == Some(0.0)
    ensures bend.Some? ==> reason == None && rows == [Some([1.0 - bend.value]), Some([1.0])]
    ensures bend.None? ==> reason == Some(UnknownPadCurrent) && rows == [None, None]
  {
    TraceIsOpen();
    hide HasCycle, Conserves, Accounted, IsRoot, Spans, PadsOf, FlowAt;
    rows, reason := Solve(3, TRACE, local, 1);
    if bend.Some? {
      assert !Unknown(local);
      NoReason(reason);
      TraceValues(local, rows, bend.value);
    } else {
      assert local[1].None?;
      assert rows == [None, None];
    }
  }

  /** The trace carries one ampere.  Counted in with net B's pad above its bend, the solve gives its first half one
      ampere less `x`; and if `x` is unknown, as it is for a transistor, no current at all. */
  method PadAboveBend(x: Option<real>, key: Point -> Key)
    returns (rows: seq<Option<Series>>, reason: Option<Reason>, own: seq<Option<Series>>, ownReason: Option<Reason>)
    requires Apart(key)
    ensures !ForeignHarmless(PADS, "A", Known(x), key, 1, key(BEND))
    ensures ownReason == None && own == [Some([1.0]), Some([1.0])]
    ensures x.Some? ==> reason == None && rows == [Some([1.0 - x.value]), Some([1.0])]
    ensures x.None? ==> reason == Some(UnknownPadCurrent) && rows == [None, None]
  {
    PadReadings(x);
    hide Summed, ForeignHarmless, Known, FullSeries;
    var sums, blamed := SumPads(PADS, Known(x), key, 1);
    var ownSums, ownBlamed := SumPads(PADS[..2], Known(x), key, 1);
    BendIsForeign(x, key, sums, ownSums);
    LocalCurrents(x, key, sums);
    OwnCurrents(x, key, ownSums);
    var local, ownLocal := LocalPads(Nodes(key), sums), LocalPads(Nodes(key), ownSums);
    hide LocalPads;
    rows, reason := SolveTrace(local, x);
    own, ownReason := SolveTrace(ownLocal, Some(0.0));
  }
}
