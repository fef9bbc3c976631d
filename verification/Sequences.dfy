/** Picking values out of a sequence, as the loops over logs do. */
module Sequences {
  import opened Wrappers

  /** What `pick` makes of one element: a value, or nothing. */
  function Picked<T, U>(pick: T -> Option<U>, x: T): seq<U> {
    if pick(x).Some? then [pick(x).value] else []
  }

  /** The picked values, in order. */
  function Collect<T, U>(pick: T -> Option<U>, s: seq<T>): seq<U> {
    if s == [] then [] else Collect(pick, s[..|s| - 1]) + Picked(pick, s[|s| - 1])
  }

  lemma CollectSnoc<T, U>(pick: T -> Option<U>, s: seq<T>, x: T)
    ensures Collect(pick, s + [x]) == Collect(pick, s) + Picked(pick, x)
  {
    assert (s + [x])[..|s|] == s;
  }

  lemma CollectNext<T, U>(pick: T -> Option<U>, s: seq<T>, i: nat)
    requires i < |s|
    ensures Collect(pick, s[..i + 1]) == Collect(pick, s[..i]) + Picked(pick, s[i])
  {
    assert s[..i + 1] == s[..i] + [s[i]];
    CollectSnoc(pick, s[..i], s[i]);
  }

  /** `at` lists, in order, the positions of `s` that `picked` was taken from; no other position has a value. */
  ghost predicate TakenFrom<T, U>(pick: T -> Option<U>, s: seq<T>, picked: seq<U>, at: seq<nat>) {
    && |at| == |picked|
    && (forall k, l :: 0 <= k < l < |at| ==> at[k] < at[l])
    && (forall k :: 0 <= k < |at| ==> at[k] < |s| && pick(s[at[k]]) == Some(picked[k]))
    && (forall i :: 0 <= i < |s| && pick(s[i]).Some? ==> i in at)
  }

  /** Nothing is picked twice, out of order, or left out. */
  lemma {:induction false} CollectExact<T, U>(pick: T -> Option<U>, s: seq<T>) returns (at: seq<nat>)
    ensures TakenFrom(pick, s, Collect(pick, s), at)
  {
    if s == [] {
      at := [];
    } else {
      var last := |s| - 1;
      var before := CollectExact(pick, s[..last]);
      at := before + if pick(s[last]).Some? then [last] else [];
      assert forall k :: 0 <= k < |before| ==> s[..last][before[k]] == s[before[k]];
      forall i | 0 <= i < |s| && pick(s[i]).Some?
        ensures i in at
      {
        if i < last {
          assert s[..last][i] == s[i];
          assert i in before;
        } else {
          assert at[|before|] == last;
        }
      }
    }
  }

  lemma {:induction false} CollectNone<T, U>(pick: T -> Option<U>, s: seq<T>)
    requires forall i :: 0 <= i < |s| ==> pick(s[i]).None?
    ensures Collect(pick, s) == []
  {
    if s != [] {
      CollectNone(pick, s[..|s| - 1]);
    }
  }
}
