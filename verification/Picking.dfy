/** Lists made by keeping some elements of another list and showing a part of each. */
module Picking {

  /** `out` shows exactly the kept elements of `from`, which stand at these positions, in order. */
  ghost predicate PickedAt<T(!new), U>(from: seq<T>, keep: T -> bool, show: T -> U, out: seq<U>, at: seq<nat>) {
    && |at| == |out|
    && (forall k :: 0 <= k < |at| ==> at[k] < |from| && keep(from[at[k]]) && out[k] == show(from[at[k]]))
    && (forall k, l :: 0 <= k < l < |at| ==> at[k] < at[l])
    && (forall i :: 0 <= i < |from| && keep(from[i]) ==> i in at)
  }

  ghost predicate Picked<T(!new), U>(from: seq<T>, keep: T -> bool, show: T -> U, out: seq<U>) {
    exists at :: PickedAt(from, keep, show, out, at)
  }

  lemma PickedFromNone<T(!new), U>(keep: T -> bool, show: T -> U)
    ensures Picked([], keep, show, [])
  {
    var at: seq<nat> := [];
    assert PickedAt([], keep, show, [], at);
  }

  /** One element more is shown at the end, if it is kept. */
  lemma {:induction false} PickedWithOneMore<T(!new), U>(from: seq<T>, keep: T -> bool, show: T -> U, out: seq<U>, x: T)
    requires Picked(from, keep, show, out)
    ensures Picked(from + [x], keep, show, if keep(x) then out + [show(x)] else out)
  {
    var at :| PickedAt(from, keep, show, out, at);
    if keep(x) {
      KeptLast(from, keep, show, out, x, at);
    } else {
      assert PickedAt(from + [x], keep, show, out, at);
    }
  }

  lemma {:induction false} KeptLast<T(!new), U>(from: seq<T>, keep: T -> bool, show: T -> U, out: seq<U>, x: T,
                                               at: seq<nat>)
    requires PickedAt(from, keep, show, out, at) && keep(x)
    ensures PickedAt(from + [x], keep, show, out + [show(x)], at + [|from|])
  {
    var more, at' := from + [x], at + [|from|];
    forall i | 0 <= i < |more| && keep(more[i])
      ensures i in at'
    {
      if i < |from| {
        assert more[i] == from[i] && i in at;
      } else {
        assert at'[|at|] == i;
      }
    }
    forall k | 0 <= k < |at'|
      ensures at'[k] < |more| && keep(more[at'[k]]) && (out + [show(x)])[k] == show(more[at'[k]])
    {
      assert k < |at| ==> at'[k] == at[k] && more[at[k]] == from[at[k]];
    }
  }
}
