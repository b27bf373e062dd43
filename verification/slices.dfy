/**
 * The Go utility `RemoveFromSliceAtIndex`: removes one element of a slice
 * by moving the last element into its place, so order is not kept.
 */
module Slices {
  import opened Wrappers

  /**
   * A nil slice, or an index outside it, gives the slice back unchanged;
   * otherwise the last element overwrites the one at the index and the
   * slice is cut by one. The caller's backing array sees the overwrite; the
   * model returns only the resulting slice.
   */
  function RemoveFromSliceAtIndex<T>(slice: Option<seq<T>>, index: int): (r: Option<seq<T>>)
    ensures slice.None? ==> r.None?
    ensures slice.Some? && !(0 <= index < |slice.value|) ==> r == slice
    ensures slice.Some? && 0 <= index < |slice.value| ==> r.Some? && |r.value| == |slice.value| - 1
  {
    if slice.None? || index < 0 || index >= |slice.value| then slice
    else
      var s := slice.value;
      var size := |s|;
      Some(s[index := s[size - 1]][..size - 1])
  }

  /**
   * Removal takes out exactly the element at the index: the rest keep their
   * places, except that the last one moves into the gap.
   */
  lemma RemoveSpec<T>(s: seq<T>, index: int)
    requires 0 <= index < |s|
    ensures var r := RemoveFromSliceAtIndex(Some(s), index).value;
            multiset(r) == multiset(s) - multiset{s[index]} &&
            (forall k :: 0 <= k < |r| && k != index ==> r[k] == s[k]) &&
            (index < |r| ==> r[index] == s[|s| - 1])
  {
    var r := RemoveFromSliceAtIndex(Some(s), index).value;
    var last := |s| - 1;
    assert s == s[..last] + [s[last]];
    if index == last {
      assert r == s[..last];
    } else {
      RemoveMiddle(s, index);
    }
  }

  lemma RemoveMiddle<T>(s: seq<T>, index: nat)
    requires index < |s| - 1
    ensures multiset(s[index := s[|s| - 1]][..|s| - 1]) == multiset(s) - multiset{s[index]}
  {
    var last := |s| - 1;
    var a, b := s[..index], s[index + 1..last];
    assert s == a + [s[index]] + b + [s[last]];
    assert s[index := s[last]][..last] == a + [s[last]] + b;
    assert multiset(s) == multiset(a) + multiset{s[index]} + multiset(b) + multiset{s[last]};
    assert multiset(a + [s[last]] + b) == multiset(a) + multiset{s[last]} + multiset(b);
  }

  /** Removing the last element is dropping it. */
  lemma RemoveLast<T>(s: seq<T>)
    requires |s| > 0
    ensures RemoveFromSliceAtIndex(Some(s), |s| - 1) == Some(s[..|s| - 1])
  {
  }
}
