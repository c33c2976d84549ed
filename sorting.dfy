/**
 * The in-place ascending sort that SCAN and C-SCAN apply to the caller's
 * request array. The source calls the C library's qsort with the comparator
 * `Compare`; here an insertion sort driven by the same comparator stands in
 * for it, specified by what qsort promises: the array ends up ascending and
 * holds the same requests.
 */
module Sorting {
  import opened Requests

  method Sort(a: array<int>)
    modifies a
    ensures Sorted(a[..])
    ensures multiset(a[..]) == multiset(old(a[..]))
  {
    var i := 0;
    while i < a.Length
      invariant 0 <= i <= a.Length
      invariant forall k, l :: 0 <= k < l < i ==> a[k] <= a[l]
      invariant multiset(a[..]) == multiset(old(a[..]))
    {
      var j := i;
      while j > 0 && Compare(a[j - 1], a[j]) > 0
        invariant 0 <= j <= i
        invariant forall k, l :: 0 <= k < l <= i && k != j && l != j ==> a[k] <= a[l]
        invariant forall l :: j < l <= i ==> a[j] <= a[l]
        invariant multiset(a[..]) == multiset(old(a[..]))
      {
        a[j - 1], a[j] := a[j], a[j - 1];
        j := j - 1;
      }
      i := i + 1;
    }
  }

  /**
   * An ascending arrangement of a multiset of requests is unique, so sorting
   * an array that is already ascending leaves it exactly as it was.
   */
  lemma {:induction false} SortedPermutationUnique(s: seq<int>, t: seq<int>)
    requires Sorted(s) && Sorted(t)
    requires multiset(s) == multiset(t)
    ensures s == t
    decreases |s|
  {
    assert |s| == |multiset(s)| == |multiset(t)| == |t|;
    if |s| > 0 {
      HeadIsLeast(s, t[0]);
      HeadIsLeast(t, s[0]);
      var x := s[0];
      assert s == [x] + s[1..];
      assert t == [x] + t[1..];
      TailMultiset(s);
      TailMultiset(t);
      SortedPermutationUnique(s[1..], t[1..]);
    }
  }

  lemma HeadIsLeast(s: seq<int>, x: int)
    requires Sorted(s) && x in multiset(s)
    ensures |s| > 0 && s[0] <= x
  {
    var k :| 0 <= k < |s| && s[k] == x;
  }

  lemma TailMultiset(s: seq<int>)
    requires |s| > 0
    ensures multiset(s[1..]) == multiset(s) - multiset{s[0]}
  {
    assert s == [s[0]] + s[1..];
  }
}
