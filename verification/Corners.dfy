/** Worst-case corners: every cornered component at the low or the high end of its tolerance, in every combination.
    Combinations are counted by a 32-bit shift, which is where the enumeration stops being complete. */
module Corners {
  import opened Optional
  import opened Picking
  import opened Sorting

  datatype Part = Part(designator: string, value: string, tolerance: real)

  /** A parsed value and how to write another magnitude in its form. */
  datatype Magnitude = Magnitude(nominal: real, rebuild: real -> string)

  datatype Side = Lo | Hi

  /** A component that can be cornered, by its position in the circuit. */
  datatype Toleranced = Toleranced(at: nat, nominal: real, rebuild: real -> string, tol: real)

  datatype Variant = Variant(corner: map<string, Side>, parts: seq<Part>)

  // ------------------------------------------------------------------------------------------------------
  // Shifts
  // ------------------------------------------------------------------------------------------------------

  function Pow2(k: nat): (p: nat)
    ensures p >= 1
  {
    if k == 0 then 1 else 2 * Pow2(k - 1)
  }

  function Bit(m: nat, i: nat): bool {
    if i == 0 then m % 2 == 1 else Bit(m / 2, i - 1)
  }

  /** `1 << k` on 32-bit signed integers: the distance is taken modulo 32, and bit 31 is the sign. */
  function ShiftedOne(k: nat): int {
    if k % 32 == 31 then -2147483648 else Pow2(k % 32)
  }

  /** Bit `i` of `m` as `(m & (1 << i)) != 0` sees it. */
  function SeesBit(m: nat, i: nat): bool {
    Bit(m, i % 32)
  }

  function SideOf(m: nat, i: nat): Side {
    if SeesBit(m, i) then Hi else Lo
  }

  /** The number whose low bits are `hi`. */
  function MaskOf(hi: seq<bool>): (m: nat)
    ensures m < Pow2(|hi|)
  {
    if hi == [] then 0 else (if hi[0] then 1 else 0) + 2 * MaskOf(hi[1..])
  }

  lemma {:induction false} MaskBits(hi: seq<bool>, i: nat)
    requires i < |hi|
    ensures Bit(MaskOf(hi), i) == hi[i]
  {
    if i > 0 {
      MaskBits(hi[1..], i - 1);
    }
  }

  /** A number below 2^k is fixed by its first k bits. */
  lemma {:induction false} BitsFixMask(m: nat, m': nat, k: nat)
    requires m < Pow2(k) && m' < Pow2(k) && forall i :: 0 <= i < k ==> Bit(m, i) == Bit(m', i)
    ensures m == m'
  {
    if k > 0 {
      assert Bit(m, 0) == Bit(m', 0);
      forall i | 0 <= i < k - 1
        ensures Bit(m / 2, i) == Bit(m' / 2, i)
      {
        assert Bit(m, i + 1) == Bit(m', i + 1);
      }
      BitsFixMask(m / 2, m' / 2, k - 1);
    }
  }

  lemma {:induction false} HighBitsClear(m: nat, k: nat, i: nat)
    requires m < Pow2(k) && i >= k
    ensures !Bit(m, i)
  {
    if i > 0 && k > 0 {
      HighBitsClear(m / 2, k - 1, i - 1);
    } else if i > 0 {
      HighBitsClear(m / 2, 0, i - 1);
    }
  }

  // ------------------------------------------------------------------------------------------------------
  // Choosing the components
  // ------------------------------------------------------------------------------------------------------

  /** Component `i` can be cornered, and how. */
  ghost predicate Qualifies(parts: seq<Part>, parse: string -> Option<Magnitude>, wanted: Part -> bool, t: Toleranced) {
    && t.at < |parts|
    && var p := parts[t.at];
       && p.tolerance > 0.0 && p.value != "" && wanted(p) && parse(p.value).Some?
       && t.nominal == parse(p.value).value.nominal && t.rebuild == parse(p.value).value.rebuild && t.tol == p.tolerance
  }

  ghost predicate IsCandidate(parts: seq<Part>, parse: string -> Option<Magnitude>, wanted: Part -> bool, i: nat)
    requires i < |parts|
  {
    parts[i].tolerance > 0.0 && parts[i].value != "" && wanted(parts[i]) && parse(parts[i].value).Some?
  }

  /** Exactly the components that can be cornered, in circuit order. */
  ghost predicate Chosen(parts: seq<Part>, parse: string -> Option<Magnitude>, wanted: Part -> bool,
                         all: seq<Toleranced>) {
    && (forall j :: 0 <= j < |all| ==> Qualifies(parts, parse, wanted, all[j]))
    && (forall j, l :: 0 <= j < l < |all| ==> all[j].at < all[l].at)
    && (forall i :: 0 <= i < |parts| && IsCandidate(parts, parse, wanted, i) ==>
          exists j :: 0 <= j < |all| && all[j].at == i)
  }

  method TolerancedComponents(parts: seq<Part>, parse: string -> Option<Magnitude>, wanted: Part -> bool)
    returns (all: seq<Toleranced>)
    ensures Chosen(parts, parse, wanted, all)
  {
    all := [];
    for i := 0 to |parts|
      invariant forall j :: 0 <= j < |all| ==> Qualifies(parts, parse, wanted, all[j]) && all[j].at < i
      invariant forall j, l :: 0 <= j < l < |all| ==> all[j].at < all[l].at
      invariant forall x :: 0 <= x < i && IsCandidate(parts, parse, wanted, x) ==>
                  exists j :: 0 <= j < |all| && all[j].at == x
    {
      var c := parts[i];
      if c.tolerance <= 0.0 || c.value == "" || !wanted(c) {
        continue;
      }
      var mag := parse(c.value);
      if mag.None? {
        continue;
      }
      ghost var before := all;
      all := all + [Toleranced(i, mag.value.nominal, mag.value.rebuild, c.tolerance)];
      assert all[|before|].at == i;
      assert forall j :: 0 <= j < |before| ==> all[j] == before[j];
    }
  }

  // ------------------------------------------------------------------------------------------------------
  // The corners
  // ------------------------------------------------------------------------------------------------------

  function EndOf(t: Toleranced, s: Side): string {
    t.rebuild(MagnitudeAt(t, s))
  }

  function MagnitudeAt(t: Toleranced, s: Side): real {
    t.nominal * (if s == Hi then 1.0 + t.tol else 1.0 - t.tol)
  }

  /** The ends are written from the magnitudes that lie the tolerance's share above and below the nominal one. */
  lemma EndIsOff(t: Toleranced, s: Side) returns (m: real)
    ensures EndOf(t, s) == t.rebuild(m)
    ensures m - t.nominal == if s == Hi then t.nominal * t.tol else -(t.nominal * t.tol)
  {
    m := MagnitudeAt(t, s);
  }

  ghost predicate Selection(parts: seq<Part>, cornered: seq<Toleranced>) {
    && (forall j :: 0 <= j < |cornered| ==> cornered[j].at < |parts|)
    && (forall j, l :: 0 <= j < l < |cornered| ==> cornered[j].at < cornered[l].at)
  }

  /** A cornered component sits at its side's end in the variant. */
  ghost predicate SetAt(parts: seq<Part>, t: Toleranced, s: Side, v: Variant)
    requires t.at < |parts|
  {
    t.at < |v.parts| && v.parts[t.at] == parts[t.at].(value := EndOf(t, s))
  }

  /** The variant's record has the component at this side. */
  ghost predicate RecordedAt(parts: seq<Part>, t: Toleranced, s: Side, v: Variant)
    requires t.at < |parts|
  {
    parts[t.at].designator in v.corner && v.corner[parts[t.at].designator] == s
  }

  ghost predicate Named(parts: seq<Part>, cornered: seq<Toleranced>)
    requires Selection(parts, cornered)
  {
    forall j, l :: 0 <= j < l < |cornered| ==> parts[cornered[j].at].designator != parts[cornered[l].at].designator
  }

  /** Everything not cornered is as in the circuit. */
  ghost predicate RestUnchanged(parts: seq<Part>, cornered: seq<Toleranced>, v: Variant) {
    && |v.parts| == |parts|
    && forall i :: 0 <= i < |parts| && (forall j :: 0 <= j < |cornered| ==> cornered[j].at != i) ==>
        v.parts[i] == parts[i]
  }

  /** The variant puts every cornered component at the side `sides` gives it, and leaves the rest. */
  ghost predicate Realises(parts: seq<Part>, cornered: seq<Toleranced>, sides: seq<Side>, v: Variant)
    requires Selection(parts, cornered)
  {
    && |sides| == |cornered|
    && RestUnchanged(parts, cornered, v)
    && forall j :: 0 <= j < |cornered| ==> SetAt(parts, cornered[j], sides[j], v)
  }

  /** Its record says so; components that share a designator share an entry. */
  ghost predicate Recorded(parts: seq<Part>, cornered: seq<Toleranced>, sides: seq<Side>, v: Variant)
    requires Selection(parts, cornered)
  {
    |sides| == |cornered| && forall j :: 0 <= j < |cornered| ==> RecordedAt(parts, cornered[j], sides[j], v)
  }

  function SidesOf(m: nat, k: nat): (s: seq<Side>)
    ensures |s| == k && forall i :: 0 <= i < k ==> s[i] == SideOf(m, i)
  {
    seq(k, i requires 0 <= i < k => SideOf(m, i))
  }

  /** The first `i` cornered components are recorded at their mask's sides. */
  ghost predicate RecordedSoFar(parts: seq<Part>, cornered: seq<Toleranced>, mask: nat, i: nat,
                                corner: map<string, Side>)
    requires Selection(parts, cornered) && i <= |cornered|
  {
    forall j :: 0 <= j < i ==>
      var name := parts[cornered[j].at].designator;
      name in corner && corner[name] == SideOf(mask, j)
  }

  lemma RecordNext(parts: seq<Part>, cornered: seq<Toleranced>, mask: nat, i: nat, next: nat, corner: map<string, Side>)
    requires Selection(parts, cornered) && Named(parts, cornered) && i < |cornered| && next == i + 1
    requires RecordedSoFar(parts, cornered, mask, i, corner)
    ensures RecordedSoFar(parts, cornered, mask, next, corner[parts[cornered[i].at].designator := SideOf(mask, i)])
  {
  }

  method CornerVariant(parts: seq<Part>, cornered: seq<Toleranced>, mask: nat) returns (v: Variant)
    requires Selection(parts, cornered)
    ensures Realises(parts, cornered, SidesOf(mask, |cornered|), v)
    ensures Named(parts, cornered) ==> Recorded(parts, cornered, SidesOf(mask, |cornered|), v)
  {
    hide RecordedSoFar, Named;
    var corner: map<string, Side> := map[];
    var out := parts;
    NothingRecorded(parts, cornered, mask);
    for i := 0 to |cornered|
      invariant RestUnchanged(parts, cornered, Variant(corner, out))
      invariant forall j :: i <= j < |cornered| ==> out[cornered[j].at] == parts[cornered[j].at]
      invariant forall j :: 0 <= j < i ==> SetAt(parts, cornered[j], SideOf(mask, j), Variant(corner, out))
      invariant Named(parts, cornered) ==> RecordedSoFar(parts, cornered, mask, i, corner)
    {
      var t := cornered[i];
      var side := SideOf(mask, i);
      if Named(parts, cornered) {
        RecordNext(parts, cornered, mask, i, i + 1, corner);
      }
      corner := corner[parts[t.at].designator := side];
      out := out[t.at := parts[t.at].(value := EndOf(t, side))];
    }
    v := Variant(corner, out);
    if Named(parts, cornered) {
      AllRecorded(parts, cornered, mask, v);
    }
  }

  lemma NothingRecorded(parts: seq<Part>, cornered: seq<Toleranced>, mask: nat)
    requires Selection(parts, cornered)
    ensures RecordedSoFar(parts, cornered, mask, 0, map[])
  {
  }

  lemma AllRecorded(parts: seq<Part>, cornered: seq<Toleranced>, mask: nat, v: Variant)
    requires Selection(parts, cornered) && RecordedSoFar(parts, cornered, mask, |cornered|, v.corner)
    ensures Recorded(parts, cornered, SidesOf(mask, |cornered|), v)
  {
  }

  function Cap(maxComponents: Option<int>): int {
    if maxComponents.None? then 8 else if maxComponents.value < 1 then 1 else maxComponents.value
  }

  function Kept(all: seq<Toleranced>, maxComponents: Option<int>): (kept: seq<Toleranced>)
    ensures kept <= all && |kept| <= Cap(maxComponents)
  {
    if |all| <= Cap(maxComponents) then all else all[..Cap(maxComponents)]
  }

  function NamesOf(parts: seq<Part>, ts: seq<Toleranced>): (names: seq<string>)
    requires forall j :: 0 <= j < |ts| ==> ts[j].at < |parts|
    ensures names == [] <==> forall j :: 0 <= j < |ts| ==> parts[ts[j].at].designator == ""
  {
    if ts == [] then []
    else
      var name := parts[ts[|ts| - 1].at].designator;
      NamesOf(parts, ts[..|ts| - 1]) + if name == "" then [] else [name]
  }

  ghost function NameOf(parts: seq<Part>): Toleranced -> string {
    (t: Toleranced) => if t.at < |parts| then parts[t.at].designator else ""
  }

  /** The names reported are those there are, in circuit order. */
  lemma {:induction false} NamesPicked(parts: seq<Part>, ts: seq<Toleranced>)
    requires forall j :: 0 <= j < |ts| ==> ts[j].at < |parts|
    ensures Picked(ts, (t: Toleranced) => NameOf(parts)(t) != "", NameOf(parts), NamesOf(parts, ts))
  {
    hide Picked;
    var named, name := (t: Toleranced) => NameOf(parts)(t) != "", NameOf(parts);
    if ts == [] {
      PickedFromNone(named, name);
    } else {
      var init := ts[..|ts| - 1];
      NamesPicked(parts, init);
      PickedWithOneMore(init, named, name, NamesOf(parts, init), ts[|ts| - 1]);
      var last := ts[|ts| - 1];
      assert ts == init + [last];
      assert NamesOf(parts, ts)
          == if named(last) then NamesOf(parts, init) + [name(last)] else NamesOf(parts, init);
    }
  }

  /** The first components in circuit order, as many as the cap allows: eight unless the caller sets it, at least one.
      */
  lemma KeptMeans(all: seq<Toleranced>, maxComponents: Option<int>)
    ensures var cap := if maxComponents == None then 8 else if maxComponents.value >= 1 then maxComponents.value else 1;
            var kept := Kept(all, maxComponents);
            kept <= all && (|kept| == |all| <= cap || |kept| == cap < |all|)
  {
  }

  lemma Prefixes(parts: seq<Part>, all: seq<Toleranced>)
    requires Selection(parts, all)
    ensures forall k :: 0 <= k <= |all| ==> Selection(parts, all[..k])
    ensures forall j :: 0 <= j < |all| ==> all[j].at < |parts|
  {
  }

  /** One variant for each mask the shift counts to, each at its mask's sides and otherwise as the circuit. */
  ghost predicate Enumerated(parts: seq<Part>, cornered: seq<Toleranced>, variants: seq<Variant>)
    requires Selection(parts, cornered)
  {
    && |variants| == (if |cornered| == 0 || ShiftedOne(|cornered|) < 0 then 0 else ShiftedOne(|cornered|))
    && (forall m :: 0 <= m < |variants| ==> Realises(parts, cornered, SidesOf(m, |cornered|), variants[m]))
    && (Named(parts, cornered) ==>
          forall m :: 0 <= m < |variants| ==> Recorded(parts, cornered, SidesOf(m, |cornered|), variants[m]))
  }

  /** Variants in counting order; a designator list of what the cap left out. */
  method CornerVariants(parts: seq<Part>, all: seq<Toleranced>, maxComponents: Option<int>)
    returns (variants: seq<Variant>, cornered: seq<Toleranced>, omitted: seq<string>)
    requires Selection(parts, all)
    ensures cornered == Kept(all, maxComponents) && Selection(parts, cornered)
    ensures omitted == NamesOf(parts, all[|cornered|..])
    ensures Enumerated(parts, cornered, variants)
  {
    hide Realises, Recorded, RestUnchanged, Named, SidesOf, ShiftedOne, NamesOf;
    Prefixes(parts, all);
    hide Selection;
    var cap := Cap(maxComponents);
    cornered := if |all| <= cap then all else all[..cap];
    omitted := NamesOf(parts, all[|cornered|..]);
    variants := [];
    if |cornered| == 0 {
      return;
    }
    var mask := 0;
    while mask < ShiftedOne(|cornered|)
      invariant |variants| == mask && (mask == 0 || mask <= ShiftedOne(|cornered|))
      invariant forall m :: 0 <= m < mask ==> Realises(parts, cornered, SidesOf(m, |cornered|), variants[m])
      invariant Named(parts, cornered) ==> forall m :: 0 <= m < mask ==>
                  Recorded(parts, cornered, SidesOf(m, |cornered|), variants[m])
      decreases ShiftedOne(|cornered|) - mask
    {
      var v := CornerVariant(parts, cornered, mask);
      variants := variants + [v];
      mask := mask + 1;
    }
  }

  // ------------------------------------------------------------------------------------------------------
  // Completeness
  // ------------------------------------------------------------------------------------------------------

  /** Some mask of the enumeration gives these sides. */
  ghost predicate Counted(k: nat, sides: seq<Side>) {
    exists m: nat :: m < ShiftedOne(k) && SidesOf(m, k) == sides
  }

  /** The assignment at which everything is high. */
  function AllHigh(k: nat): (s: seq<Side>)
    ensures |s| == k && forall i :: 0 <= i < k ==> s[i] == Hi
  {
    seq(k, _ => Hi)
  }

  /** Up to 30 components every assignment has its mask; from 31 on the assignment with everything high has none. */
  lemma EveryAssignmentCountedExactlyWhen(k: nat)
    ensures (forall sides: seq<Side> | |sides| == k :: Counted(k, sides)) <==> k <= 30
  {
    if k <= 30 {
      forall sides: seq<Side> | |sides| == k
        ensures Counted(k, sides)
      {
        AssignmentHasMask(k, sides);
      }
    } else {
      AllHighIsMissed(k);
      assert |AllHigh(k)| == k;
    }
  }

  lemma AssignmentHasMask(k: nat, sides: seq<Side>)
    requires k <= 30 && |sides| == k
    ensures Counted(k, sides)
  {
    var hi := seq(k, i requires 0 <= i < k => sides[i] == Hi);
    var m := MaskOf(hi);
    forall i | 0 <= i < k
      ensures SideOf(m, i) == sides[i]
    {
      MaskBits(hi, i);
      SmallShift(i);
    }
    SmallShift(k);
    hide MaskOf, Pow2, Bit, ShiftedOne;
    assert m < ShiftedOne(k);
    assert SidesOf(m, k) == sides;
  }

  lemma SmallShift(i: nat)
    requires i <= 30
    ensures i % 32 == i && ShiftedOne(i) == Pow2(i)
  {
  }

  lemma AllHighIsMissed(k: nat)
    requires k > 30
    ensures !Counted(k, AllHigh(k))
  {
    if m: nat :| m < ShiftedOne(k) && SidesOf(m, k) == AllHigh(k) {
      assert k != 31 && SideOf(m, 31) == AllHigh(k)[31] == Hi;
      HighBitsClear(m, k % 32, 31);
      assert false;
    }
  }

  /** Beyond 32 components no assignment is free: two of them 32 places apart always sit at the same side. */
  lemma SidesRepeat(m: nat, i: nat)
    ensures SideOf(m, i + 32) == SideOf(m, i)
  {
  }

  /** No assignment is run twice. */
  lemma AssignmentsDiffer(k: nat, m: nat, m': nat)
    requires m < ShiftedOne(k) && m' < ShiftedOne(k) && SidesOf(m, k) == SidesOf(m', k)
    ensures m == m'
  {
    var r := k % 32;
    forall i | 0 <= i < r
      ensures Bit(m, i) == Bit(m', i)
    {
      assert SideOf(m, i) == SidesOf(m, k)[i] && SideOf(m', i) == SidesOf(m', k)[i];
    }
    BitsFixMask(m, m', r);
  }

  // ------------------------------------------------------------------------------------------------------
  // The verdict
  // ------------------------------------------------------------------------------------------------------

  datatype CornerOutcome = Passed | Failed | Errored

  datatype CornerPoint = CornerPoint(corner: map<string, Side>, outcome: CornerOutcome)

  datatype WorstCase = WorstCase(points: seq<CornerPoint>, evaluated: nat, passed: nat, failed: nat, errored: nat,
      omitted: seq<string>,
                                 passAllCorners: bool, worstCorners: seq<map<string, Side>>)

  /** A corner could not be run, or it ran and each criterion held or not. */
  type Runner = (Variant, nat) -> Option<seq<bool>>

  /** What running one corner came to: not run, or each criterion held or not. */
  function OutcomeOf(results: Option<seq<bool>>): CornerOutcome {
    match results
    case None => Errored
    case Some(held) => if |held| > 0 && false !in held then Passed else Failed
  }

  function Tally(points: seq<CornerPoint>, o: CornerOutcome): (n: nat)
    ensures n <= |points|
    ensures n == 0 <==> forall i :: 0 <= i < |points| ==> points[i].outcome != o
  {
    if points == [] then 0
    else Tally(points[..|points| - 1], o) + if points[|points| - 1].outcome == o then 1 else 0
  }

  function FailedCorners(points: seq<CornerPoint>): (cs: seq<map<string, Side>>) {
    if points == [] then []
    else
      FailedCorners(points[..|points| - 1])
      + if points[|points| - 1].outcome == Failed then [points[|points| - 1].corner] else []
  }

  lemma {:induction false} TalliesAddUp(points: seq<CornerPoint>)
    ensures Tally(points, Passed) + Tally(points, Failed) + Tally(points, Errored) == |points|
  {
    if points != [] {
      TalliesAddUp(points[..|points| - 1]);
    }
  }

  function With(points: seq<CornerPoint>, o: CornerOutcome): set<nat> {
    set i: nat | i < |points| && points[i].outcome == o
  }

  lemma {:induction false} TallyCounts(points: seq<CornerPoint>, o: CornerOutcome)
    ensures Tally(points, o) == |With(points, o)|
  {
    if points != [] {
      var init, last := points[..|points| - 1], |points| - 1;
      TallyCounts(init, o);
      assert With(points, o) == if points[last].outcome == o then With(init, o) + {last} else With(init, o);
    }
  }

  /** The corner was answered, there were criteria, and every one held. */
  ghost predicate AllHeld(results: Option<seq<bool>>) {
    results.Some? && results.value != [] && forall k :: 0 <= k < |results.value| ==> results.value[k]
  }

  /** Each point shows its variant's corner and what its run came to. */
  ghost predicate Shows(points: seq<CornerPoint>, variants: seq<Variant>, run: Runner) {
    && |points| == |variants|
    && forall i :: 0 <= i < |variants| ==>
        && points[i].corner == variants[i].corner
        && (points[i].outcome == Passed <==> AllHeld(run(variants[i], i)))
        && (points[i].outcome == Errored <==> run(variants[i], i) == None)
  }

  /** The tallies count the runs, and the worst corners are those of the runs whose criteria did not all hold, in
      order. */
  ghost predicate Summed(r: WorstCase, variants: seq<Variant>, run: Runner) {
    && r.passed == |set i: nat | i < |variants| && AllHeld(run(variants[i], i))|
    && r.errored == |set i: nat | i < |variants| && run(variants[i], i) == None|
    && r.evaluated + r.errored == |variants| && r.passed + r.failed == r.evaluated
    && Picked(Range(|variants|), Short(variants, run), CornerAt(variants), r.worstCorners)
  }

  ghost function Short(variants: seq<Variant>, run: Runner): nat -> bool {
    (i: nat) => i < |variants| && FellShort(run(variants[i], i))
  }

  ghost function CornerAt(variants: seq<Variant>): nat -> map<string, Side> {
    (i: nat) => if i < |variants| then variants[i].corner else map[]
  }

  ghost predicate FellShort(results: Option<seq<bool>>) {
    results.Some? && !AllHeld(results)
  }

  /** Run the criteria at each variant and tally. */
  method RunVariants(variants: seq<Variant>, omitted: seq<string>, run: Runner) returns (r: WorstCase)
    ensures Shows(r.points, variants, run) && Summed(r, variants, run) && r.omitted == omitted
    ensures r.passAllCorners <==>
            variants != [] && omitted == [] && forall i :: 0 <= i < |variants| ==> AllHeld(run(variants[i], i))
  {
    var points := [];
    for i := 0 to |variants|
      invariant |points| == i
      invariant forall j :: 0 <= j < i ==> points[j] == CornerPoint(variants[j].corner, OutcomeOf(run(variants[j], j)))
    {
      points := points + [CornerPoint(variants[i].corner, OutcomeOf(run(variants[i], i)))];
    }
    TalliesAddUp(points);
    var passed, failed, errored := Tally(points, Passed), Tally(points, Failed), Tally(points, Errored);
    var evaluated := |points| - errored;
    r := WorstCase(points, evaluated, passed, failed, errored, omitted,
                   evaluated > 0 && failed == 0 && errored == 0 && omitted == [], FailedCorners(points));
    OutcomesShown(points, variants, run);
    TalliesCountRuns(points, variants, run);
    FailuresPicked(points, variants, run, |points|);
    assert points[..|points|] == points;
  }

  lemma OutcomesShown(points: seq<CornerPoint>, variants: seq<Variant>, run: Runner)
    requires |points| == |variants|
    requires forall j :: 0 <= j < |variants| ==>
               points[j] == CornerPoint(variants[j].corner, OutcomeOf(run(variants[j], j)))
    ensures Shows(points, variants, run)
  {
    forall i | 0 <= i < |variants|
      ensures points[i].outcome == Passed <==> AllHeld(run(variants[i], i))
    {
      HeldMeansPassed(run(variants[i], i));
    }
    hide AllHeld;
  }

  lemma HeldMeansPassed(results: Option<seq<bool>>)
    ensures OutcomeOf(results) == Passed <==> AllHeld(results)
    ensures OutcomeOf(results) == Errored <==> results == None
  {
  }

  lemma TalliesCountRuns(points: seq<CornerPoint>, variants: seq<Variant>, run: Runner)
    requires Shows(points, variants, run)
    ensures Tally(points, Passed) == |set i: nat | i < |variants| && AllHeld(run(variants[i], i))|
    ensures Tally(points, Errored) == |set i: nat | i < |variants| && run(variants[i], i) == None|
  {
    hide AllHeld;
    TallyCounts(points, Passed);
    TallyCounts(points, Errored);
    assert With(points, Passed) == set i: nat | i < |variants| && AllHeld(run(variants[i], i));
    assert With(points, Errored) == set i: nat | i < |variants| && run(variants[i], i) == None;
  }

  lemma {:induction false} FailuresPicked(points: seq<CornerPoint>, variants: seq<Variant>, run: Runner, k: nat)
    requires Shows(points, variants, run) && k <= |points|
    ensures Picked(Range(k), Short(variants, run), CornerAt(variants), FailedCorners(points[..k]))
  {
    hide AllHeld, Picked;
    if k == 0 {
      assert Range(0) == [];
      PickedFromNone(Short(variants, run), CornerAt(variants));
    } else {
      FailuresPicked(points, variants, run, k - 1);
      PickedWithOneMore<nat, map<string, Side>>(Range(k - 1), Short(variants, run), CornerAt(variants),
                                                FailedCorners(points[..k - 1]), k - 1);
      assert points[..k][..k - 1] == points[..k - 1] && points[..k][k - 1] == points[k - 1];
      assert Range(k) == Range(k - 1) + [k - 1];
      var short, corner := Short(variants, run), CornerAt(variants);
      assert short(k - 1) <==> points[k - 1].outcome == Failed;
      assert FailedCorners(points[..k])
          == if short(k - 1) then FailedCorners(points[..k - 1]) + [corner(k - 1)] else FailedCorners(points[..k - 1]);
    }
  }

  /** The variant of this very assignment was run, and the criteria held. */
  ghost predicate PassesAt(parts: seq<Part>, cornered: seq<Toleranced>, variants: seq<Variant>, run: Runner,
                           sides: seq<Side>)
    requires Selection(parts, cornered)
  {
    exists m: nat :: m < |variants| && SidesOf(m, |cornered|) == sides
      && Realises(parts, cornered, sides, variants[m]) && AllHeld(run(variants[m], m))
  }

  ghost predicate EveryCornerPasses(parts: seq<Part>, cornered: seq<Toleranced>, variants: seq<Variant>, run: Runner)
    requires Selection(parts, cornered)
  {
    forall sides: seq<Side> | |sides| == |cornered| :: PassesAt(parts, cornered, variants, run, sides)
  }

  /** No component beyond the kept ones has a name to report. */
  ghost predicate OnlyUnnamedLeftOut(parts: seq<Part>, all: seq<Toleranced>, kept: nat)
    requires Selection(parts, all)
  {
    forall j :: kept <= j < |all| ==> parts[all[j].at].designator == ""
  }

  /** Every component has a name. */
  ghost predicate AllNamed(parts: seq<Part>) {
    forall i :: 0 <= i < |parts| ==> parts[i].designator != ""
  }

  /** The worst case of a circuit.  Up to 30 components it passes exactly when some component was cornered, the criteria
      held at every assignment of ends, and every component left out by the cap is nameless.  In a circuit without
      nameless components, cornered under a cap of at most 30, none at all was left out. */
  method RunWorstCase(parts: seq<Part>, parse: string -> Option<Magnitude>, wanted: Part -> bool,
                      maxComponents: Option<int>, run: Runner)
    returns (r: WorstCase, all: seq<Toleranced>, cornered: seq<Toleranced>, variants: seq<Variant>)
    ensures Chosen(parts, parse, wanted, all) && cornered == Kept(all, maxComponents)
    ensures Selection(parts, all) && Selection(parts, cornered) && r.omitted == NamesOf(parts, all[|cornered|..])
    ensures Enumerated(parts, cornered, variants)
    ensures Shows(r.points, variants, run) && Summed(r, variants, run)
    ensures |cornered| <= 30 ==>
              (r.passAllCorners <==>
               cornered != [] && OnlyUnnamedLeftOut(parts, all, |cornered|)
               && EveryCornerPasses(parts, cornered, variants, run))
    ensures AllNamed(parts) && Cap(maxComponents) <= 30 ==>
              (r.passAllCorners <==> all != [] && cornered == all && EveryCornerPasses(parts, cornered, variants, run))
  {
    hide IsCandidate, Realises, Recorded, RestUnchanged, SidesOf, ShiftedOne, NamesOf;
    all := TolerancedComponents(parts, parse, wanted);
    ChosenIsSelection(parts, parse, wanted, all);
    var omitted;
    hide Chosen;
    variants, cornered, omitted := CornerVariants(parts, all, maxComponents);
    hide Named, Kept, PassesAt, Shows, Summed;
    r := RunVariants(variants, omitted, run);
    LeftOutNames(parts, all, |cornered|);
    if |cornered| <= 30 {
      SomeVariants(|cornered|);
      EveryCornerRan(parts, cornered, variants, run);
      NamedMeansKept(parts, all, cornered);
    }
  }

  lemma NamedMeansKept(parts: seq<Part>, all: seq<Toleranced>, cornered: seq<Toleranced>)
    requires Selection(parts, all) && cornered <= all
    ensures AllNamed(parts) ==> (OnlyUnnamedLeftOut(parts, all, |cornered|) <==> cornered == all)
  {
    if |cornered| < |all| {
      assert all[|cornered|].at < |parts|;
    }
  }

  lemma ChosenIsSelection(parts: seq<Part>, parse: string -> Option<Magnitude>, wanted: Part -> bool,
                          all: seq<Toleranced>)
    requires Chosen(parts, parse, wanted, all)
    ensures Selection(parts, all)
  {
    hide IsCandidate;
  }

  lemma LeftOutNames(parts: seq<Part>, all: seq<Toleranced>, kept: nat)
    requires Selection(parts, all) && kept <= |all|
    ensures NamesOf(parts, all[kept..]) == [] <==> OnlyUnnamedLeftOut(parts, all, kept)
  {
    hide NamesOf;
    forall j | kept <= j < |all|
      ensures all[kept..][j - kept] == all[j]
    {
    }
  }

  lemma SomeVariants(k: nat)
    requires k <= 30
    ensures ShiftedOne(k) >= 1
  {
    SmallShift(k);
  }

  /** All variants passed exactly when every assignment did. */
  lemma EveryCornerRan(parts: seq<Part>, cornered: seq<Toleranced>, variants: seq<Variant>, run: Runner)
    requires Selection(parts, cornered) && |cornered| <= 30
    requires Enumerated(parts, cornered, variants)
    ensures cornered != [] ==>
              (EveryCornerPasses(parts, cornered, variants, run) <==>
               forall m :: 0 <= m < |variants| ==> AllHeld(run(variants[m], m)))
  {
    hide Realises, Recorded, SidesOf, ShiftedOne, AllHeld, Selection, Named, RestUnchanged;
    SomeVariants(|cornered|);
    if cornered != [] {
      if forall m :: 0 <= m < |variants| ==> AllHeld(run(variants[m], m)) {
        forall sides: seq<Side> | |sides| == |cornered|
          ensures PassesAt(parts, cornered, variants, run, sides)
        {
          AssignmentHasMask(|cornered|, sides);
          var m: nat :| m < ShiftedOne(|cornered|) && SidesOf(m, |cornered|) == sides;
        }
      }
      if EveryCornerPasses(parts, cornered, variants, run) {
        forall m | 0 <= m < |variants|
          ensures AllHeld(run(variants[m], m))
        {
          var sides := SidesOf(m, |cornered|);
          assert PassesAt(parts, cornered, variants, run, sides);
          var l: nat :| l < |variants| && SidesOf(l, |cornered|) == sides
            && Realises(parts, cornered, sides, variants[l]) && AllHeld(run(variants[l], l));
          AssignmentsDiffer(|cornered|, m, l);
        }
      }
    }
  }

  /** A component left out by the cap but without a name is not reported, and the verdict is a pass all the same. */
  method UnnamedOmissionIsHidden(rebuild: real -> string) returns (r: WorstCase, all: seq<Toleranced>)
    ensures r.passAllCorners && r.omitted == [] && |r.points| == 2
    ensures |all| == 2 && all[1].at == 1
    ensures Chosen([Part("R1", "1k", 0.05), Part("", "2k", 0.05)], value => Some(Magnitude(1000.0, rebuild)),
              p => true, all)
  {
    var parts := [Part("R1", "1k", 0.05), Part("", "2k", 0.05)];
    var parse := value => Some(Magnitude(1000.0, rebuild));
    var cornered, variants;
    r, all, cornered, variants := RunWorstCase(parts, parse, p => true, Some(1), (v, i) => Some([true]));
    BothChosen(parts, parse, p => true, all);
    AlwaysPasses(parts, all, cornered, variants, (v, i) => Some([true]));
    hide EveryCornerPasses, Enumerated, OnlyUnnamedLeftOut;
  }

  lemma AlwaysPasses(parts: seq<Part>, all: seq<Toleranced>, cornered: seq<Toleranced>, variants: seq<Variant>,
                     run: Runner)
    requires Selection(parts, all) && |all| == 2 && all[1].at == 1 && parts[1].designator == "" && cornered == all[..1]
    requires Selection(parts, cornered) && Enumerated(parts, cornered, variants)
    requires forall v, i :: AllHeld(run(v, i))
    ensures |variants| == 2
    ensures EveryCornerPasses(parts, cornered, variants, run) && OnlyUnnamedLeftOut(parts, all, 1)
  {
    assert ShiftedOne(1) == 2;
    hide Realises, Recorded, SidesOf, ShiftedOne, RestUnchanged, AllHeld;
    EveryCornerRan(parts, cornered, variants, run);
  }

  lemma BothChosen(parts: seq<Part>, parse: string -> Option<Magnitude>, wanted: Part -> bool, all: seq<Toleranced>)
    requires |parts| == 2 && Chosen(parts, parse, wanted, all)
    requires IsCandidate(parts, parse, wanted, 0) && IsCandidate(parts, parse, wanted, 1)
    ensures |all| == 2 && all[0].at == 0 && all[1].at == 1
  {
    var j :| 0 <= j < |all| && all[j].at == 0;
    var l :| 0 <= l < |all| && all[l].at == 1;
    hide IsCandidate;
    assert all[|all| - 1].at < 2;
    AscendsByOne(all, |all| - 1);
  }

  lemma {:induction false} AscendsByOne(all: seq<Toleranced>, k: nat)
    requires k < |all| && forall j, l :: 0 <= j < l < |all| ==> all[j].at < all[l].at
    ensures all[k].at >= k
  {
    if k > 0 {
      AscendsByOne(all, k - 1);
    }
  }
}
