/** Ranking screened candidates, and choosing the few that go on to the full design loop. */
module Finalists {
  import opened Optional
  import opened Reals
  import opened Sorting
  import opened DesignLoop

  /** How far one criterion was missed: the signed distance from its target, when it could be measured. */
  datatype Miss = Miss(op: string, target: real, tol: Option<real>, distance: Option<real>)

  datatype Closeness = Infinite | Finite(miss: real)

  datatype Screened = Screened(circuit: Circuit, misses: seq<Miss>, simHealthy: bool, specsMet: bool,
      closeness: Closeness)

  // ------------------------------------------------------------------------------------------------------
  // Scores
  // ------------------------------------------------------------------------------------------------------

  function Scale(m: Miss): (d: real)
    ensures d > 0.0
  {
    if Abs(m.target) > 0.000000000001 then Abs(m.target)
    else if m.tol.Some? && m.tol.value > 0.000000000001 then m.tol.value
    else 1.0
  }

  /** Headroom of one criterion in units of its target; negative when it is missed. */
  function SlackOf(m: Miss): real {
    if m.distance.None? then 0.0
    else if m.op == "gt" || m.op == "gte" then m.distance.value / Scale(m)
    else if m.op == "lt" || m.op == "lte" then -m.distance.value / Scale(m)
    else if m.op == "approx" then
      var tol := if m.tol.Some? && m.tol.value > 0.000000000001 then m.tol.value
                 else Max(Abs(m.target) * 0.05, 0.000000001);
      (tol - Abs(m.distance.value)) / Scale(m)
    else 0.0
  }

  /** One criterion's headroom: nothing when it was not measured, else the distance on the good side of the target, or
      what an approximate match leaves of its tolerance, in units of the target where it is not practically zero. */
  lemma HeadroomOf(m: Miss)
    ensures var hasTol := m.tol.Some? && m.tol.value > 0.000000000001;
            var unit := if Abs(m.target) > 0.000000000001 then Abs(m.target) else if hasTol then m.tol.value else 1.0;
            var tol := if hasTol then m.tol.value else Max(Abs(m.target) * 0.05, 0.000000001);
            SlackOf(m) * unit
            == if m.distance.None? then 0.0
               else if m.op in {"gt", "gte"} then m.distance.value
               else if m.op in {"lt", "lte"} then -m.distance.value
               else if m.op == "approx" then tol - Abs(m.distance.value)
               else 0.0
  {
    var d := Scale(m);
    if m.distance.Some? {
      hide Scale;
      QuotientTimes(m.distance.value, d);
      QuotientTimes(-m.distance.value, d);
      var tol := if m.tol.Some? && m.tol.value > 0.000000000001 then m.tol.value
                 else Max(Abs(m.target) * 0.05, 0.000000001);
      QuotientTimes(tol - Abs(m.distance.value), d);
    }
  }

  /** A criterion has headroom, or sits right on its limit, exactly when it is met. */
  lemma HeadroomMeansMet(m: Miss)
    requires m.distance.Some?
    ensures m.op in {"gt", "gte"} ==> (SlackOf(m) >= 0.0 <==> m.distance.value >= 0.0)
    ensures m.op in {"lt", "lte"} ==> (SlackOf(m) >= 0.0 <==> m.distance.value <= 0.0)
    ensures m.op == "approx" && m.tol.Some? && m.tol.value > 0.000000000001 ==>
              (SlackOf(m) >= 0.0 <==> Abs(m.distance.value) <= m.tol.value)
  {
    hide SlackOf;
    HeadroomOf(m);
    ScalePositive(Scale(m), SlackOf(m));
  }

  /** The tightest criterion's headroom; a design without criteria is neutral. */
  function Slack(misses: seq<Miss>): real {
    if misses == [] then 0.0
    else if |misses| == 1 then SlackOf(misses[0])
    else Min(Slack(misses[..|misses| - 1]), SlackOf(misses[|misses| - 1]))
  }

  lemma {:induction false} SlackIsTheTightest(misses: seq<Miss>)
    requires misses != []
    ensures forall i :: 0 <= i < |misses| ==> Slack(misses) <= SlackOf(misses[i])
    ensures exists i :: 0 <= i < |misses| && Slack(misses) == SlackOf(misses[i])
  {
    if |misses| > 1 {
      var init := misses[..|misses| - 1];
      SlackIsTheTightest(init);
      var i :| 0 <= i < |init| && Slack(init) == SlackOf(init[i]);
      assert misses[i] == init[i];
      assert forall j :: 0 <= j < |init| ==> misses[j] == init[j];
      assert Slack(misses) == SlackOf(misses[i]) || Slack(misses) == SlackOf(misses[|misses| - 1]);
    }
  }

  method RobustnessSlack(misses: seq<Miss>) returns (min: real)
    ensures min == Slack(misses) && (misses == [] ==> min == 0.0)
  {
    var least: Option<real> := None;
    for i := 0 to |misses|
      invariant least == if i == 0 then None else Some(Slack(misses[..i]))
    {
      var slack := SlackOf(misses[i]);
      assert misses[..i + 1][..i] == misses[..i];
      least := Some(if least.None? then slack else Min(least.value, slack));
    }
    assert misses[..|misses|] == misses;
    return if least.Some? then least.value else 0.0;
  }

  function PartsAmong(components: seq<Component>): nat {
    if components == [] then 0
    else PartsAmong(components[..|components| - 1]) + if components[|components| - 1].kind != "ground" then 1 else 0
  }

  function PartCount(c: Circuit): nat {
    PartsAmong(c.components)
  }

  function NotGround(components: seq<Component>): set<nat> {
    set i: nat | i < |components| && components[i].kind != "ground"
  }

  /** Every component but the ground symbols counts as a part. */
  lemma {:induction false} PartsAreNotGround(components: seq<Component>)
    ensures PartsAmong(components) == |NotGround(components)|
  {
    if components != [] {
      var init, last := components[..|components| - 1], |components| - 1;
      PartsAreNotGround(init);
      assert NotGround(components)
          == if components[last].kind != "ground" then NotGround(init) + {last} else NotGround(init);
    }
  }

  /** Two circuits of the same parts and as many nets count as one topology. */
  datatype Topology = Topology(kinds: multiset<string>, nets: nat)

  function TopologyOf(c: Circuit): Topology {
    Topology(multiset(Kinds(c.components)), |c.nets|)
  }

  function Kinds(components: seq<Component>): (kinds: seq<string>)
    ensures |kinds| == |components| && forall i :: 0 <= i < |components| ==> kinds[i] == components[i].kind
  {
    seq(|components|, i requires 0 <= i < |components| => components[i].kind)
  }

  function OfKind(components: seq<Component>, kind: string): set<nat> {
    set i: nat | i < |components| && components[i].kind == kind
  }

  /** Circuits share a topology exactly when they have as many nets, and as many components of every kind. */
  lemma TopologyMeans(a: Circuit, b: Circuit)
    ensures TopologyOf(a) == TopologyOf(b) <==>
            |a.nets| == |b.nets| && forall kind :: |OfKind(a.components, kind)| == |OfKind(b.components, kind)|
  {
    forall kind
      ensures TopologyOf(a).kinds[kind] == |OfKind(a.components, kind)|
      ensures TopologyOf(b).kinds[kind] == |OfKind(b.components, kind)|
    {
      KindsCounted(a.components, kind);
      KindsCounted(b.components, kind);
    }
  }

  lemma {:induction false} KindsCounted(components: seq<Component>, kind: string)
    ensures multiset(Kinds(components))[kind] == |OfKind(components, kind)|
  {
    if components != [] {
      var init, last := components[..|components| - 1], |components| - 1;
      KindsCounted(init, kind);
      LastKind(components);
      LastOfKind(components, kind);
      hide OfKind, Kinds;
    }
  }

  lemma LastKind(components: seq<Component>)
    requires components != []
    ensures var init, last := components[..|components| - 1], components[|components| - 1];
            multiset(Kinds(components)) == multiset(Kinds(init)) + multiset{last.kind}
  {
    var init, last := components[..|components| - 1], components[|components| - 1];
    assert Kinds(components) == Kinds(init) + [last.kind];
  }

  lemma LastOfKind(components: seq<Component>, kind: string)
    requires components != []
    ensures var init, last := components[..|components| - 1], components[|components| - 1];
            |OfKind(components, kind)| == |OfKind(init, kind)| + if last.kind == kind then 1 else 0
  {
    var init, last := components[..|components| - 1], |components| - 1;
    var fewer := OfKind(init, kind);
    assert OfKind(components, kind) == if components[last].kind == kind then fewer + {last} else fewer;
  }

  // ------------------------------------------------------------------------------------------------------
  // The comparator
  // ------------------------------------------------------------------------------------------------------

  function Sign(d: real): int {
    if d < 0.0 then -1 else if d > 0.0 then 1 else 0
  }

  /** Sign of the first score less the second; the same infinity compares equal before this is asked. */
  function Nearer(a: Closeness, b: Closeness): int {
    match (a, b)
    case (Finite(x), Finite(y)) => Sign(x - y)
    case (Finite(_), Infinite) => -1
    case (Infinite, Finite(_)) => 1
    case (Infinite, Infinite) => 0
  }

  /** Negative when `a` is the better candidate. */
  function Compare(a: Screened, b: Screened): int {
    if a.simHealthy != b.simHealthy then (if a.simHealthy then -1 else 1)
    else if a.specsMet != b.specsMet then (if a.specsMet then -1 else 1)
    else
      var parts := PartCount(a.circuit) - PartCount(b.circuit);
      if a.specsMet && b.specsMet then
        var bySlack := Slack(b.misses) - Slack(a.misses);
        if bySlack != 0.0 then Sign(bySlack) else parts
      else if a.closeness != b.closeness then Nearer(a.closeness, b.closeness)
      else parts
  }

  predicate Better(a: Screened, b: Screened) {
    Compare(a, b) < 0
  }

  predicate AsGood(a: Screened, b: Screened) {
    Compare(a, b) <= 0
  }

  ghost predicate CloserThan(a: Closeness, b: Closeness) {
    a.Finite? && (b.Infinite? || a.miss < b.miss)
  }

  /** One candidate is the better exactly when it simulates and the other does not; or, that equal, meets its criteria
      and the other does not; or, both meeting them, has more headroom, and both missing them, came closer; or, that too
      equal, has fewer parts. */
  lemma BetterMeans(a: Screened, b: Screened)
    ensures Better(a, b) <==>
            || (a.simHealthy && !b.simHealthy)
            || (a.simHealthy == b.simHealthy
                && (|| (a.specsMet && !b.specsMet)
                    || (a.specsMet && b.specsMet && Slack(a.misses) > Slack(b.misses))
                    || (!a.specsMet && !b.specsMet && CloserThan(a.closeness, b.closeness))
                    || ((if a.specsMet then b.specsMet && Slack(a.misses) == Slack(b.misses)
                         else !b.specsMet && a.closeness == b.closeness)
                        && |NotGround(a.circuit.components)| < |NotGround(b.circuit.components)|)))
  {
    PartsAreNotGround(a.circuit.components);
    PartsAreNotGround(b.circuit.components);
    hide Slack, PartsAmong;
  }

  /** Swapping the arguments swaps the verdict, so of two candidates one is as good as the other. */
  lemma CompareIsTotal(a: Screened, b: Screened)
    ensures AsGood(a, b) || AsGood(b, a)
    ensures Better(a, b) <==> !AsGood(b, a)
    ensures Compare(a, a) == 0
  {
    hide Slack, PartCount;
  }

  lemma CompareIsTransitive(a: Screened, b: Screened, c: Screened)
    requires AsGood(a, b) && AsGood(b, c)
    ensures AsGood(a, c)
    ensures Better(a, b) || Better(b, c) ==> Better(a, c)
  {
    hide Slack, PartCount;
  }

  // ------------------------------------------------------------------------------------------------------
  // Sorting by it
  // ------------------------------------------------------------------------------------------------------

  ghost predicate Ranked(s: seq<Screened>) {
    forall i, j :: 0 <= i < j < |s| ==> AsGood(s[i], s[j])
  }

  ghost predicate OneOfAKind(s: seq<Screened>) {
    forall i, j :: 0 <= i < j < |s| ==> TopologyOf(s[i].circuit) != TopologyOf(s[j].circuit)
  }

  lemma {:induction false} InsertRanks(x: Screened, s: seq<Screened>)
    requires Ranked(s) && OneOfAKind(s)
    requires forall i :: 0 <= i < |s| ==> TopologyOf(s[i].circuit) != TopologyOf(x.circuit)
    ensures var t := InsertBy(x, s, Better); Ranked(t) && OneOfAKind(t) && forall y :: y in t <==> y == x || y in s
  {
    hide Better, AsGood, TopologyOf, Compare;
    var t := InsertBy(x, s, Better);
    if s == [] || Better(x, s[0]) {
      forall j | 0 <= j < |s|
        ensures AsGood(x, s[j])
      {
        CompareIsTotal(x, s[0]);
        CompareIsTotal(s[0], s[j]);
        BetterIsAsGood(x, s[0]);
        CompareIsTransitive(x, s[0], s[j]);
      }
    } else {
      InsertRanks(x, s[1..]);
      var rest := InsertBy(x, s[1..], Better);
      CompareIsTotal(x, s[0]);
      forall j | 0 <= j < |rest|
        ensures AsGood(s[0], rest[j]) && TopologyOf(s[0].circuit) != TopologyOf(rest[j].circuit)
      {
        assert rest[j] in rest;
      }
    }
  }

  lemma BetterIsAsGood(a: Screened, b: Screened)
    ensures Better(a, b) ==> AsGood(a, b)
    ensures AsGood(a, a)
  {
    CompareIsTotal(a, a);
  }

  lemma {:induction false} SortRanks(s: seq<Screened>)
    requires OneOfAKind(s)
    ensures var t := SortBy(s, Better); Ranked(t) && OneOfAKind(t) && forall y :: y in t <==> y in s
  {
    if s != [] {
      var init, x := s[..|s| - 1], s[|s| - 1];
      assert s == init + [x];
      assert OneOfAKind(init);
      hide Better, AsGood, TopologyOf, InsertBy, Compare, OneOfAKind, Ranked;
      SortRanks(init);
      var t := SortBy(init, Better);
      assert forall i :: 0 <= i < |t| ==> TopologyOf(t[i].circuit) != TopologyOf(x.circuit) by {
        ApartFromLast(s);
        assert forall i :: 0 <= i < |t| ==> t[i] in t;
      }
      InsertRanks(x, t);
      assert SortBy(s, Better) == InsertBy(x, t, Better);
    }
  }

  lemma ApartFromLast(s: seq<Screened>)
    requires s != [] && OneOfAKind(s)
    ensures forall y :: y in s[..|s| - 1] ==> TopologyOf(y.circuit) != TopologyOf(s[|s| - 1].circuit)
  {
    hide TopologyOf;
  }

  // ------------------------------------------------------------------------------------------------------
  // Choosing
  // ------------------------------------------------------------------------------------------------------

  /** `kept` holds one candidate per topology among the first `k`: the first of its best. */
  ghost predicate BestOfEach(screened: seq<Screened>, k: nat, kept: seq<Screened>, at: seq<nat>)
    requires k <= |screened|
  {
    && |at| == |kept|
    && (forall i :: 0 <= i < |kept| ==> at[i] < k && kept[i] == screened[at[i]])
    && OneOfAKind(kept)
    && (forall j :: 0 <= j < k ==> Represented(screened, j, kept, at))
  }

  ghost predicate Represented(screened: seq<Screened>, j: nat, kept: seq<Screened>, at: seq<nat>)
    requires j < |screened| && |at| == |kept|
  {
    exists i :: 0 <= i < |kept| && TopologyOf(kept[i].circuit) == TopologyOf(screened[j].circuit)
      && Beats(screened, kept[i], at[i], j)
  }

  /** The candidate kept from position `p` is as good as the one at `j`, and better when that one came first. */
  ghost predicate Beats(screened: seq<Screened>, kept: Screened, p: nat, j: nat)
    requires j < |screened|
  {
    AsGood(kept, screened[j]) && (j < p ==> Better(kept, screened[j]))
  }

  /** What the dedup loop does with one candidate: keep it, let it replace a worse one in place, or drop it. */
  method Consider(screened: seq<Screened>, j: nat, kept0: seq<Screened>, ghost at0: seq<nat>)
    returns (kept: seq<Screened>, ghost at: seq<nat>)
    requires j < |screened| && BestOfEach(screened, j, kept0, at0)
    ensures BestOfEach(screened, j + 1, kept, at)
  {
    hide AsGood, Better, TopologyOf;
    var cand := screened[j];
    var p := 0;
    while p < |kept0| && TopologyOf(kept0[p].circuit) != TopologyOf(cand.circuit)
      invariant p <= |kept0|
      invariant forall i :: 0 <= i < p ==> TopologyOf(kept0[i].circuit) != TopologyOf(cand.circuit)
    {
      p := p + 1;
    }
    kept, at := kept0, at0;
    BetterIsAsGood(cand, cand);
    if p == |kept0| {
      kept, at := kept0 + [cand], at0 + [j];
      Appended(screened, j, kept0, at0);
    } else if Better(cand, kept0[p]) {
      kept, at := kept0[p := cand], at0[p := j];
      Replaced(screened, j, kept0, at0, p);
    } else {
      CompareIsTotal(cand, kept0[p]);
      Dropped(screened, j, kept0, at0, p);
    }
  }

  lemma Appended(screened: seq<Screened>, j: nat, kept: seq<Screened>, at: seq<nat>)
    requires j < |screened| && BestOfEach(screened, j, kept, at) && AsGood(screened[j], screened[j])
    requires forall i :: 0 <= i < |kept| ==> TopologyOf(kept[i].circuit) != TopologyOf(screened[j].circuit)
    ensures BestOfEach(screened, j + 1, kept + [screened[j]], at + [j])
  {
    hide AsGood, Better, TopologyOf;
    var kept', at' := kept + [screened[j]], at + [j];
    forall x | 0 <= x < j + 1
      ensures Represented(screened, x, kept', at')
    {
      if x < j {
        assert Represented(screened, x, kept, at);
        var i :| 0 <= i < |kept| && TopologyOf(kept[i].circuit) == TopologyOf(screened[x].circuit)
          && Beats(screened, kept[i], at[i], x);
        assert Beats(screened, kept'[i], at'[i], x);
      } else {
        assert Beats(screened, kept'[|kept|], at'[|kept|], x);
      }
    }
  }

  lemma Replaced(screened: seq<Screened>, j: nat, kept: seq<Screened>, at: seq<nat>, p: nat)
    requires j < |screened| && BestOfEach(screened, j, kept, at) && p < |kept| && AsGood(screened[j], screened[j])
    requires TopologyOf(kept[p].circuit) == TopologyOf(screened[j].circuit) && Better(screened[j], kept[p])
    ensures BestOfEach(screened, j + 1, kept[p := screened[j]], at[p := j])
  {
    hide AsGood, Better, TopologyOf;
    var kept', at' := kept[p := screened[j]], at[p := j];
    forall x | 0 <= x < j + 1
      ensures Represented(screened, x, kept', at')
    {
      if x < j {
        assert Represented(screened, x, kept, at);
        var i :| 0 <= i < |kept| && TopologyOf(kept[i].circuit) == TopologyOf(screened[x].circuit)
          && Beats(screened, kept[i], at[i], x);
        if i == p {
          BetterIsAsGood(screened[j], kept[p]);
          CompareIsTransitive(screened[j], kept[p], screened[x]);
        }
        BetterIsAsGood(kept'[i], screened[x]);
        assert Beats(screened, kept'[i], at'[i], x);
      } else {
        assert Beats(screened, kept'[p], at'[p], x);
      }
    }
  }

  lemma Dropped(screened: seq<Screened>, j: nat, kept: seq<Screened>, at: seq<nat>, p: nat)
    requires j < |screened| && BestOfEach(screened, j, kept, at) && p < |kept|
    requires TopologyOf(kept[p].circuit) == TopologyOf(screened[j].circuit) && AsGood(kept[p], screened[j])
    ensures BestOfEach(screened, j + 1, kept, at)
  {
    hide AsGood, Better, TopologyOf;
    assert Beats(screened, kept[p], at[p], j);
    forall x | 0 <= x < j + 1
      ensures Represented(screened, x, kept, at)
    {
      assert x < j ==> Represented(screened, x, kept, at);
    }
  }

  /** A candidate left out is no better than the chosen one of its topology, or than every one chosen. */
  ghost predicate Passed(out: seq<Screened>, c: Screened) {
    || (exists i :: 0 <= i < |out| && TopologyOf(out[i].circuit) == TopologyOf(c.circuit) && AsGood(out[i], c))
    || (forall i :: 0 <= i < |out| ==> AsGood(out[i], c))
  }

  method SelectFinalists(screened: seq<Screened>, k: int)
    returns (out: seq<Screened>, ghost kept: seq<Screened>, ghost at: seq<nat>)
    ensures BestOfEach(screened, |screened|, kept, at)
    ensures Ranked(out) && OneOfAKind(out) && (forall c :: c in out ==> c in kept)
    ensures |out| == (if |kept| <= (if k > 1 then k else 1) then |kept| else if k > 1 then k else 1)
    ensures forall j :: 0 <= j < |screened| ==> Passed(out, screened[j])
  {
    hide AsGood, Better, TopologyOf, Represented, InsertBy;
    var best: seq<Screened> := [];
    at := [];
    for j := 0 to |screened|
      invariant BestOfEach(screened, j, best, at)
    {
      best, at := Consider(screened, j, best, at);
    }
    kept := best;
    SortRanks(best);
    var sorted := SortBy(best, Better);
    var n := if k > 1 then k else 1;
    out := if |sorted| <= n then sorted else sorted[..n];
    forall j | 0 <= j < |screened|
      ensures Passed(out, screened[j])
    {
      LeftOut(screened, j, best, at, sorted, out);
    }
  }

  lemma LeftOut(screened: seq<Screened>, j: nat, kept: seq<Screened>, at: seq<nat>, sorted: seq<Screened>,
                out: seq<Screened>)
    requires j < |screened| && |at| == |kept| && Represented(screened, j, kept, at)
    requires Ranked(sorted) && (forall y :: y in sorted <==> y in kept) && out <= sorted
    ensures Passed(out, screened[j])
  {
    hide AsGood, Better, TopologyOf, Compare;
    var i :| 0 <= i < |kept| && TopologyOf(kept[i].circuit) == TopologyOf(screened[j].circuit)
      && Beats(screened, kept[i], at[i], j);
    assert kept[i] in sorted;
    var q :| 0 <= q < |sorted| && sorted[q] == kept[i];
    if q < |out| {
      assert out[q] == kept[i];
    } else {
      forall x | 0 <= x < |out|
        ensures AsGood(out[x], screened[j])
      {
        assert AsGood(sorted[x], sorted[q]);
        CompareIsTransitive(out[x], kept[i], screened[j]);
      }
    }
  }
}
