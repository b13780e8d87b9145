/** Acceptance criteria, the quantities they measure, and how a fix may extend them. */
module Criteria {

  datatype Dimension = Voltage | Current | Frequency | Thd

  datatype Criterion = Criterion(probe: string, metric: string, op: string, target: real)

  /** Probe syntax is left to two functions: whether a probe measures a current, and what makes two criteria the
      same. */
  datatype Reading = Reading(isCurrent: string -> bool, key: Criterion -> string)

  function DimensionOf(c: Criterion, read: Reading): Dimension {
    if c.metric == "cutoff" then Frequency
    else if c.metric == "thd" then Thd
    else if read.isCurrent(c.probe) then Current
    else Voltage
  }

  function Covered(cs: seq<Criterion>, read: Reading): set<Dimension> {
    set i | 0 <= i < |cs| :: DimensionOf(cs[i], read)
  }

  /** Quantities the prompt puts a number on that no criterion measures. */
  function Uncovered(required: set<Dimension>, cs: seq<Criterion>, read: Reading): set<Dimension> {
    (set d | d in {Current, Frequency, Thd} && d in required) - Covered(cs, read)
  }

  /** A cutoff puts a number on frequency, a distortion on itself, anything else on what its probe reads. */
  ghost predicate ReadsQuantity(c: Criterion, read: Reading, d: Dimension) {
    match d
    case Frequency => c.metric == "cutoff"
    case Thd => c.metric == "thd"
    case Current => c.metric !in {"cutoff", "thd"} && read.isCurrent(c.probe)
    case Voltage => c.metric !in {"cutoff", "thd"} && !read.isCurrent(c.probe)
  }

  ghost predicate MeasuresQuantity(cs: seq<Criterion>, read: Reading, d: Dimension) {
    exists i :: 0 <= i < |cs| && ReadsQuantity(cs[i], read, d)
  }

  /** What is missing is exactly what the prompt asks for, a voltage apart, and no criterion measures. */
  lemma MissingMeans(required: set<Dimension>, cs: seq<Criterion>, read: Reading, d: Dimension)
    ensures d in Covered(cs, read) <==> MeasuresQuantity(cs, read, d)
    ensures d in Uncovered(required, cs, read) <==>
            d != Voltage && d in required && !MeasuresQuantity(cs, read, d)
  {
    if d in Covered(cs, read) {
      var i :| 0 <= i < |cs| && DimensionOf(cs[i], read) == d;
      assert MeasuresQuantity(cs, read, d);
    }
    if MeasuresQuantity(cs, read, d) {
      var i :| 0 <= i < |cs| && DimensionOf(cs[i], read) == d;
    }
  }

  ghost predicate HasKey(cs: seq<Criterion>, k: nat, read: Reading, key: string)
    requires k <= |cs|
  {
    exists i :: 0 <= i < k && read.key(cs[i]) == key
  }

  /** `cs` keeps every original criterion and adds only criteria of the wanted quantities, none of them twice. */
  ghost predicate Extends(cs: seq<Criterion>, original: seq<Criterion>, returned: seq<Criterion>,
                          wanted: set<Dimension>, read: Reading) {
    && original <= cs
    && (forall i :: |original| <= i < |cs| ==>
        cs[i] in returned && DimensionOf(cs[i], read) in wanted && !HasKey(cs, i, read, read.key(cs[i])))
  }

  /** A merge: what was there, plus from the fix each criterion of a required quantity that nothing measured. */
  ghost predicate Merged(cs: seq<Criterion>, original: seq<Criterion>, returned: seq<Criterion>,
                         required: set<Dimension>, read: Reading) {
    && Extends(cs, original, returned, required - Covered(original, read), read)
    && forall c :: c in returned && DimensionOf(c, read) in required - Covered(original, read) ==>
        HasKey(cs, |cs|, read, read.key(c))
  }

  /** Criteria after a fix: those of the design, and from the fix only what measures a required quantity none of them
      measured. */
  method MergeCriteria(original: seq<Criterion>, returned: seq<Criterion>, required: set<Dimension>, read: Reading)
    returns (merged: seq<Criterion>)
    ensures Merged(merged, original, returned, required, read)
  {
    var wanted := required - Covered(original, read);
    if returned == [] || wanted == {} {
      return original;
    }
    var seen := set i | 0 <= i < |original| :: read.key(original[i]);
    merged := original;
    for j := 0 to |returned|
      invariant Extends(merged, original, returned, wanted, read)
      invariant forall key :: key in seen <==> HasKey(merged, |merged|, read, key)
      invariant forall i :: 0 <= i < j && DimensionOf(returned[i], read) in wanted ==>
                  HasKey(merged, |merged|, read, read.key(returned[i]))
    {
      var c := returned[j];
      if DimensionOf(c, read) !in wanted {
        continue;
      }
      if read.key(c) in seen {
        continue;
      }
      AppendKeeps(merged, original, returned, wanted, read, c);
      seen := seen + {read.key(c)};
      merged := merged + [c];
    }
  }

  lemma AppendKeeps(cs: seq<Criterion>, original: seq<Criterion>, returned: seq<Criterion>, wanted: set<Dimension>,
                    read: Reading, c: Criterion)
    requires Extends(cs, original, returned, wanted, read) && c in returned && DimensionOf(c, read) in wanted
    requires !HasKey(cs, |cs|, read, read.key(c))
    ensures Extends(cs + [c], original, returned, wanted, read)
    ensures forall key :: HasKey(cs + [c], |cs| + 1, read, key) <==> HasKey(cs, |cs|, read, key) || key == read.key(c)
  {
    var more := cs + [c];
    forall i, key | 0 <= i <= |cs|
      ensures HasKey(more, i, read, key) <==> HasKey(cs, i, read, key)
    {
      if HasKey(cs, i, read, key) {
        var k :| 0 <= k < i && read.key(cs[k]) == key;
        assert read.key(more[k]) == key;
      }
      if HasKey(more, i, read, key) {
        var k :| 0 <= k < i && read.key(more[k]) == key;
        assert read.key(cs[k]) == key;
      }
    }
    assert more[|cs|] == c;
    forall key
      ensures HasKey(more, |cs| + 1, read, key) <==> HasKey(cs, |cs|, read, key) || key == read.key(c)
    {
      if HasKey(more, |cs| + 1, read, key) && key != read.key(c) {
        var k :| 0 <= k < |cs| + 1 && read.key(more[k]) == key;
        assert k < |cs| && read.key(cs[k]) == key;
      }
      if HasKey(cs, |cs|, read, key) {
        assert HasKey(more, |cs|, read, key);
      }
    }
  }

  /** A merge never uncovers a quantity, so a later round asks for no more than an earlier one. */
  lemma ExtendingCovers(cs: seq<Criterion>, original: seq<Criterion>, required: set<Dimension>, read: Reading)
    requires original <= cs
    ensures Covered(original, read) <= Covered(cs, read)
    ensures Uncovered(required, cs, read) <= Uncovered(required, original, read)
  {
    forall d | d in Covered(original, read)
      ensures d in Covered(cs, read)
    {
      var i :| 0 <= i < |original| && DimensionOf(original[i], read) == d;
      assert cs[i] == original[i];
    }
  }

  /** Criteria that count as the same measure the same quantity. */
  ghost predicate KeyFixesDimension(read: Reading) {
    forall c, c' :: read.key(c) == read.key(c') ==> DimensionOf(c, read) == DimensionOf(c', read)
  }

  /** A fix that offers a criterion for a required quantity settles that quantity. */
  lemma OfferedIsCovered(merged: seq<Criterion>, original: seq<Criterion>, returned: seq<Criterion>,
                         required: set<Dimension>, read: Reading, c: Criterion)
    requires KeyFixesDimension(read) && Merged(merged, original, returned, required, read)
    requires c in returned && DimensionOf(c, read) in required
    ensures DimensionOf(c, read) !in Uncovered(required, merged, read)
  {
    if DimensionOf(c, read) in Covered(original, read) {
      ExtendingCovers(merged, original, required, read);
    } else {
      var i :| 0 <= i < |merged| && read.key(merged[i]) == read.key(c);
      assert DimensionOf(merged[i], read) in Covered(merged, read);
    }
  }

  /** Without that, exactly: a fix that offers one criterion for a quantity nothing measures settles it unless a held
      criterion, of another quantity, already counts as the same. */
  lemma OfferIsTakenExactlyWhen(merged: seq<Criterion>, original: seq<Criterion>, c: Criterion,
                                required: set<Dimension>, read: Reading)
    requires Merged(merged, original, [c], required, read)
    requires DimensionOf(c, read) in required - Covered(original, read)
    ensures DimensionOf(c, read) in Covered(merged, read) <==> !HasKey(original, |original|, read, read.key(c))
  {
    assert forall x :: x in [c] ==> x == c;
    assert forall j :: |original| <= j < |merged| ==> merged[j] == c && !HasKey(merged, j, read, read.key(c));
    if HasKey(original, |original|, read, read.key(c)) {
      forall j | |original| <= j <= |merged|
        ensures HasKey(merged, j, read, read.key(c))
      {
        KeyStays(original, merged, j, read, read.key(c));
      }
      assert HasKey(merged, |original|, read, read.key(c));
      assert merged == original;
    } else {
      assert forall k :: 0 <= k < |original| ==> read.key(merged[k]) != read.key(c);
      var i :| 0 <= i < |merged| && read.key(merged[i]) == read.key(c);
      assert i >= |original|;
    }
  }

  lemma KeyStays(original: seq<Criterion>, cs: seq<Criterion>, j: nat, read: Reading, key: string)
    requires original <= cs && |original| <= j <= |cs| && HasKey(original, |original|, read, key)
    ensures HasKey(cs, j, read, key)
  {
    var k :| 0 <= k < |original| && read.key(original[k]) == key;
    assert cs[k] == original[k];
  }
}
