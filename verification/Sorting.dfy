/** Sorting as the kernels use it: stable insertion by a comparator, and sort-then-deduplicate of indices. */
module Sorting {

  ghost predicate StrictlyIncreasing(s: seq<nat>) {
    forall i, j :: 0 <= i < j < |s| ==> s[i] < s[j]
  }

  function InsertOnce(x: nat, s: seq<nat>): (t: seq<nat>)
    requires StrictlyIncreasing(s)
    ensures StrictlyIncreasing(t) && forall v :: v in t <==> v == x || v in s
  {
    if s == [] then [x]
    else if x < s[0] then [x] + s
    else if x == s[0] then s
    else
      var t := InsertOnce(x, s[1..]);
      assert forall v :: v in t ==> v > s[0];
      assert forall i :: 0 <= i < |t| ==> t[i] in t;
      [s[0]] + t
  }

  /** Sorted ascending, duplicates dropped. */
  function SortDedup(s: seq<nat>): (t: seq<nat>)
    ensures StrictlyIncreasing(t) && forall v :: v in t <==> v in s
  {
    if s == [] then [] else InsertOnce(s[0], SortDedup(s[1..]))
  }

  /** `x` goes after everything it does not come strictly before. */
  function InsertBy<T>(x: T, s: seq<T>, before: (T, T) -> bool): (t: seq<T>)
    ensures multiset(t) == multiset(s) + multiset{x} && |t| == |s| + 1
  {
    if s == [] || before(x, s[0]) then [x] + s
    else
      assert s == [s[0]] + s[1..];
      [s[0]] + InsertBy(x, s[1..], before)
  }

  /** Stable insertion sort. */
  function SortBy<T>(s: seq<T>, before: (T, T) -> bool): (t: seq<T>)
    ensures multiset(t) == multiset(s) && |t| == |s|
  {
    if s == [] then []
    else
      assert s == s[..|s| - 1] + [s[|s| - 1]];
      InsertBy(s[|s| - 1], SortBy(s[..|s| - 1], before), before)
  }

  /** `before` never holds both ways, chains, and puts a third value after the first or before the second. */
  ghost predicate StrictOrder<T(!new)>(before: (T, T) -> bool) {
    && (forall x, y :: before(x, y) ==> !before(y, x))
    && (forall x, y, z :: before(x, y) && before(y, z) ==> before(x, z))
    && (forall x, y, z :: before(x, z) ==> before(x, y) || before(y, z))
  }

  /** Nothing comes before what stands ahead of it. */
  ghost predicate Sorted<T(!new)>(s: seq<T>, before: (T, T) -> bool) {
    forall i, j :: 0 <= i < j < |s| ==> !before(s[j], s[i])
  }

  lemma {:induction false} InsertKeepsSorted<T(!new)>(x: T, s: seq<T>, before: (T, T) -> bool)
    requires StrictOrder(before) && Sorted(s, before)
    ensures Sorted(InsertBy(x, s, before), before)
  {
    if s != [] && before(x, s[0]) {
      forall j | 0 <= j < |s|
        ensures !before(s[j], x)
      {
        assert j > 0 ==> !before(s[j], s[0]);
      }
    } else if s != [] {
      InsertKeepsSorted(x, s[1..], before);
      var rest := InsertBy(x, s[1..], before);
      forall j | 0 <= j < |rest|
        ensures !before(rest[j], s[0])
      {
        assert rest[j] in multiset(rest);
        assert rest[j] == x || rest[j] in s[1..];
      }
    }
  }

  lemma {:induction false} SortBySorts<T(!new)>(s: seq<T>, before: (T, T) -> bool)
    requires StrictOrder(before)
    ensures Sorted(SortBy(s, before), before)
  {
    if s != [] {
      SortBySorts(s[..|s| - 1], before);
      InsertKeepsSorted(s[|s| - 1], SortBy(s[..|s| - 1], before), before);
    }
  }

  /** `before`, and among equals the smaller index. */
  ghost function Stably(before: (nat, nat) -> bool): (nat, nat) -> bool {
    (i: nat, j: nat) => before(i, j) || (!before(j, i) && i < j)
  }

  lemma {:induction false} InsertIsStable(x: nat, s: seq<nat>, before: (nat, nat) -> bool)
    requires forall k :: 0 <= k < |s| ==> s[k] < x
    ensures InsertBy(x, s, before) == InsertBy(x, s, Stably(before))
  {
    if s != [] && !before(x, s[0]) {
      InsertIsStable(x, s[1..], before);
    }
  }

  lemma {:induction false} SortIsStable(s: seq<nat>, before: (nat, nat) -> bool)
    requires StrictlyIncreasing(s)
    ensures SortBy(s, before) == SortBy(s, Stably(before))
  {
    if s != [] {
      var init := s[..|s| - 1];
      SortIsStable(init, before);
      forall k | 0 <= k < |init|
        ensures SortBy(init, before)[k] < s[|s| - 1]
      {
        assert SortBy(init, before)[k] in multiset(init);
      }
      InsertIsStable(s[|s| - 1], SortBy(init, before), before);
    }
  }

  /** A sort of ascending indices leaves nothing out of order, and equals as they were. */
  lemma IndicesSorted(s: seq<nat>, before: (nat, nat) -> bool)
    requires StrictOrder(before) && StrictlyIncreasing(s)
    ensures Sorted(SortBy(s, before), Stably(before))
  {
    assert StrictOrder(Stably(before));
    SortIsStable(s, before);
    SortBySorts(s, Stably(before));
  }

  predicate StringLess(s: string, t: string) {
    if t == "" then false
    else if s == "" then true
    else s[0] < t[0] || (s[0] == t[0] && StringLess(s[1..], t[1..]))
  }

  /** Dictionary order: at the first place where they differ `s` has the smaller letter, or it has already ended. */
  lemma {:induction false} StringLessIsLexical(s: string, t: string)
    ensures StringLess(s, t) <==>
            exists k :: 0 <= k <= |s| && k < |t| && s[..k] == t[..k] && (k == |s| || s[k] < t[k])
  {
    if s != "" && t != "" {
      StringLessIsLexical(s[1..], t[1..]);
      if k :| 0 <= k <= |s| && k < |t| && s[..k] == t[..k] && (k == |s| || s[k] < t[k]) {
        if k > 0 {
          assert s[0] == s[..k][0] == t[..k][0] == t[0];
          assert s[1..][..k - 1] == s[..k][1..] && t[1..][..k - 1] == t[..k][1..];
        }
      }
      if StringLess(s, t) && s[0] == t[0] {
        var k :| 0 <= k <= |s[1..]| && k < |t[1..]| && s[1..][..k] == t[1..][..k]
          && (k == |s[1..]| || s[1..][k] < t[1..][k]);
        assert s[..k + 1] == [s[0]] + s[1..][..k] && t[..k + 1] == [t[0]] + t[1..][..k];
      }
    } else if t != "" {
      assert s[..0] == t[..0];
    }
  }

  lemma {:induction false} StringsOrdered(s: string, t: string, u: string)
    ensures StringLess(s, t) ==> !StringLess(t, s)
    ensures StringLess(s, t) && StringLess(t, u) ==> StringLess(s, u)
    ensures StringLess(s, u) ==> StringLess(s, t) || StringLess(t, u)
    ensures StringLess(s, t) || StringLess(t, s) || s == t
  {
    if s != "" && t != "" {
      StringsOrdered(s[1..], t[1..], if u == "" then "" else u[1..]);
      assert s == [s[0]] + s[1..] && t == [t[0]] + t[1..];
    }
  }

  function Range(n: nat): (s: seq<nat>)
    ensures |s| == n && forall i :: 0 <= i < n ==> s[i] == i
  {
    seq(n, i => i)
  }

  /** A sort of 0..n-1 visits every index once. */
  ghost predicate Visits(order: seq<nat>, n: nat) {
    && (forall k :: 0 <= k < |order| ==> order[k] < n)
    && (forall i :: 0 <= i < n ==> i in order)
    && (forall k, l :: 0 <= k < l < |order| ==> order[k] != order[l])
  }

  lemma {:induction false} SortedRangeVisits(n: nat, order: seq<nat>)
    requires multiset(order) == multiset(Range(n))
    ensures Visits(order, n)
  {
    RangeOnce(n);
    forall k | 0 <= k < |order|
      ensures order[k] < n
    {
      assert order[k] in multiset(order);
      assert order[k] in Range(n);
    }
    forall i | 0 <= i < n
      ensures i in order
    {
      assert i in multiset(Range(n));
    }
    forall k, l | 0 <= k < l < |order|
      ensures order[k] != order[l]
    {
      TwoOccurrences(order, k, l);
    }
  }

  lemma TwoOccurrences(s: seq<nat>, k: nat, l: nat)
    requires k < l < |s|
    ensures s[k] == s[l] ==> multiset(s)[s[k]] >= 2
  {
    assert s == s[..l] + [s[l]] + s[l + 1..];
    assert s[..l] == s[..k] + [s[k]] + s[k + 1..l];
  }

  lemma {:induction false} RangeOnce(n: nat)
    ensures forall i :: multiset(Range(n))[i] == if 0 <= i < n then 1 else 0
  {
    if n > 0 {
      RangeOnce(n - 1);
      assert Range(n) == Range(n - 1) + [n - 1];
    }
  }
}
