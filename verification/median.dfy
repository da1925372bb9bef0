/** `median(arr)` of the DIF module: the middle of a sorted copy. The copy is
    a new value, so the caller's array keeps its order. */
module Median {
  import opened Sorting

  function SortedCopy(arr: seq<real>): (a: seq<real>)
    ensures |a| == |arr| && multiset(a) == multiset(arr)
    ensures Ascends(a)
  {
    var a := SortBy(arr, ByValue);
    assert forall i, j :: 0 <= i < j < |a| ==> ByValue(a[i]) <= ByValue(a[j]);
    a
  }

  /** The middle element (odd length) or the mean of the two middle
      elements (even length). */
  function Middle(a: seq<real>): real
    requires |a| > 0
  {
    var m := |a| / 2;
    if |a| % 2 == 1 then a[m] else (a[m - 1] + a[m]) / 2.0
  }

  /** The middle of a sorted permutation lies between two of the values, and
      is one of them for an odd length. */
  lemma MiddleBetween(arr: seq<real>, a: seq<real>)
    requires |a| > 0 && multiset(a) == multiset(arr) && Ascends(a)
    ensures exists i :: 0 <= i < |arr| && arr[i] <= Middle(a)
    ensures exists j :: 0 <= j < |arr| && Middle(a) <= arr[j]
    ensures |a| % 2 == 1 ==> Middle(a) in arr
  {
    var m := |a| / 2;
    var lo := if |a| % 2 == 1 then m else m - 1;
    assert a[lo] <= Middle(a) <= a[m];
    assert a[lo] in multiset(arr) && a[m] in multiset(arr);
    var i :| 0 <= i < |arr| && arr[i] == a[lo];
    var j :| 0 <= j < |arr| && arr[j] == a[m];
  }

  /** 0 for an empty list; otherwise the middle of the sorted copy. The
      result lies between the least and the greatest element, and for an odd
      length it is one of the elements. */
  function Median(arr: seq<real>): (r: real)
    ensures arr == [] ==> r == 0.0
    ensures arr != [] ==> exists i :: 0 <= i < |arr| && arr[i] <= r
    ensures arr != [] ==> exists j :: 0 <= j < |arr| && r <= arr[j]
    ensures |arr| % 2 == 1 ==> r in arr
  {
    if |arr| == 0 then 0.0
    else
      var a := SortedCopy(arr);
      MiddleBetween(arr, a);
      Middle(a)
  }

  predicate Ascends(a: seq<real>)
  {
    forall i, j :: 0 <= i < j < |a| ==> a[i] <= a[j]
  }

  lemma AscendsTail(a: seq<real>)
    requires Ascends(a) && a != []
    ensures Ascends(a[1..])
  {
    forall i, j | 0 <= i < j < |a[1..]| ensures a[1..][i] <= a[1..][j] {
      assert a[1..][i] == a[i + 1] && a[1..][j] == a[j + 1];
    }
  }

  lemma AscendsHeadLeast(a: seq<real>, x: real)
    requires Ascends(a) && x in multiset(a)
    ensures a != [] && a[0] <= x
  {
    var i :| 0 <= i < |a| && a[i] == x;
    if i > 0 { assert a[0] <= a[i]; }
  }

  /** Two sorted lists holding the same elements are the same list. */
  lemma {:induction false} SortedUnique(a: seq<real>, b: seq<real>)
    requires Ascends(a) && Ascends(b)
    requires multiset(a) == multiset(b)
    ensures a == b
  {
    if a == [] {
      assert multiset(b) == multiset{};
    } else {
      assert a[0] in multiset(a);
      AscendsHeadLeast(b, a[0]);
      assert b[0] in multiset(b);
      AscendsHeadLeast(a, b[0]);
      assert a[0] == b[0];
      assert a == [a[0]] + a[1..] && b == [b[0]] + b[1..];
      assert multiset(a) == multiset([a[0]]) + multiset(a[1..]);
      assert multiset(b) == multiset([b[0]]) + multiset(b[1..]);
      assert multiset(a[1..]) == multiset(a) - multiset([a[0]]);
      assert multiset(b[1..]) == multiset(b) - multiset([b[0]]);
      AscendsTail(a);
      AscendsTail(b);
      SortedUnique(a[1..], b[1..]);
    }
  }

  /** The median depends only on which values occur, not on their order. */
  lemma MedianOrderIndependent(arr: seq<real>, other: seq<real>)
    requires multiset(arr) == multiset(other)
    ensures Median(arr) == Median(other)
  {
    var a, b := SortedCopy(arr), SortedCopy(other);
    SortedUnique(a, b);
    assert |arr| == |a| == |b| == |other|;
  }

  /** On an already sorted list the median is read off its middle. */
  lemma MedianOfSorted(arr: seq<real>)
    requires |arr| > 0
    requires Ascends(arr)
    ensures Median(arr) == if |arr| % 2 == 1 then arr[|arr| / 2]
                           else (arr[|arr| / 2 - 1] + arr[|arr| / 2]) / 2.0
  {
    SortedUnique(SortedCopy(arr), arr);
  }
}
