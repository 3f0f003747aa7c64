/** Small things that several models share. */
module Basics {
  const HEX_DIGITS := "0123456789abcdef"

  function Min(a: int, b: int): int {
    if a <= b then a else b
  }

  function Max(a: int, b: int): int {
    if a >= b then a else b
  }

  function Distance(x: real, y: real): real {
    if x <= y then y - x else x - y
  }

  // ----------------------------------------------------------- filters, by position

  /** The positions, in ascending order, of exactly the elements to keep. */
  ghost predicate KeepsAt<T>(r: seq<T>, s: seq<T>, keep: T -> bool, at: seq<nat>) {
    && |at| == |r|
    && (forall i, j :: 0 <= i < j < |at| ==> at[i] < at[j])
    && (forall i :: 0 <= i < |at| ==> at[i] < |s| && r[i] == s[at[i]])
    && (forall k :: 0 <= k < |s| ==> (keep(s[k]) <==> k in at))
  }

  /** `r` is what is left of `s`: exactly the elements to keep, in their order and as often as they occur. */
  ghost predicate IsFilterOf<T(!new)>(r: seq<T>, s: seq<T>, keep: T -> bool) {
    exists at :: KeepsAt(r, s, keep, at)
  }

  lemma NothingToFilter<T(!new)>(keep: T -> bool)
    ensures IsFilterOf([], [], keep)
  {
    var at: seq<nat> := [];
    assert KeepsAt([], [], keep, at);
  }

  lemma FilterOneMore<T(!new)>(r: seq<T>, s: seq<T>, keep: T -> bool, x: T)
    requires IsFilterOf(r, s, keep)
    ensures IsFilterOf(r + (if keep(x) then [x] else []), s + [x], keep)
  {
    var at: seq<nat> :| KeepsAt(r, s, keep, at);
    if keep(x) {
      KeepsOneMore(r, s, keep, at, x);
    } else {
      assert r + [] == r;
      assert KeepsAt(r, s + [x], keep, at);
    }
  }

  lemma KeepsOneMore<T(!new)>(r: seq<T>, s: seq<T>, keep: T -> bool, at: seq<nat>, x: T)
    requires KeepsAt(r, s, keep, at) && keep(x)
    ensures KeepsAt(r + [x], s + [x], keep, at + [|s|])
  {
    var all, n := at + [|s|], |s|;
    assert all[|at|] == n;
    forall k | 0 <= k < |s + [x]|
      ensures keep((s + [x])[k]) <==> k in all
    {
      if k < n { assert (s + [x])[k] == s[k]; }
    }
    forall i | 0 <= i < |all|
      ensures all[i] < |s + [x]| && (r + [x])[i] == (s + [x])[all[i]]
    {
    }
  }
}
