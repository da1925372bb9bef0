/** `Array.prototype.sort` with a numeric comparator `(a, b) => key(a) - key(b)`:
    a stable sort into non-decreasing key order. A descending comparator
    `(a, b) => key(b) - key(a)` is the same sort by the negated key. */
module Sorting {

  predicate SortedBy<T>(s: seq<T>, key: T -> real)
  {
    forall i, j :: 0 <= i < j < |s| ==> key(s[i]) <= key(s[j])
  }

  /** The key of the comparator `(x, y) => x - y` on numbers. */
  function ByValue(x: real): real
  {
    x
  }

  /** The key of the comparator `(a, b) => a - b` on whole totals. */
  function ByNat(n: nat): real
  {
    n as real
  }

  /** Inserts `x` into a sorted sequence before the first element whose key
      is not smaller, so that `x` precedes the elements it ties with. */
  function Insert<T>(x: T, s: seq<T>, key: T -> real): (r: seq<T>)
    requires SortedBy(s, key)
    ensures |r| == |s| + 1
    ensures multiset(r) == multiset(s) + multiset{x}
    ensures SortedBy(r, key)
  {
    if s == [] || key(x) <= key(s[0]) then [x] + s
    else
      var t := Insert(x, s[1..], key);
      assert s == [s[0]] + s[1..];
      ConsSorted(s[0], s[1..], x, t, key);
      [s[0]] + t
  }

  /** A head no greater than `x` and than every element of a sorted `rest`
      stays sorted in front of `rest` with `x` inserted. */
  lemma ConsSorted<T>(h: T, rest: seq<T>, x: T, t: seq<T>, key: T -> real)
    requires SortedBy([h] + rest, key) && key(h) <= key(x)
    requires SortedBy(t, key) && multiset(t) == multiset(rest) + multiset{x}
    ensures SortedBy([h] + t, key)
  {
    forall y | y in t ensures key(h) <= key(y) {
      assert y in multiset(t);
      if y != x {
        assert y in multiset(rest);
        var k :| 0 <= k < |rest| && rest[k] == y;
        assert ([h] + rest)[0] == h && ([h] + rest)[k + 1] == y;
      }
    }
    var r := [h] + t;
    forall i, j | 0 <= i < j < |r| ensures key(r[i]) <= key(r[j]) {
      assert r[j] == t[j - 1];
      if i > 0 {
        assert r[i] == t[i - 1];
      } else {
        assert t[j - 1] in t;
      }
    }
  }

  /** Insertion sort: every element of the input, in non-decreasing key order,
      ties kept in input order. */
  function SortBy<T>(s: seq<T>, key: T -> real): (r: seq<T>)
    ensures |r| == |s|
    ensures multiset(r) == multiset(s)
    ensures SortedBy(r, key)
  {
    if s == [] then []
    else
      assert s == [s[0]] + s[1..];
      Insert(s[0], SortBy(s[1..], key), key)
  }

  /** The elements whose key is `k`, in their order in `s`. */
  function WithKey<T>(s: seq<T>, key: T -> real, k: real): seq<T>
  {
    if s == [] then [] else (if key(s[0]) == k then [s[0]] else []) + WithKey(s[1..], key, k)
  }

  /** Inserting `x` puts it in front of the elements it ties with. */
  lemma {:induction false} InsertStable<T>(x: T, s: seq<T>, key: T -> real, k: real)
    requires SortedBy(s, key)
    ensures WithKey(Insert(x, s, key), key, k) == (if key(x) == k then [x] else []) + WithKey(s, key, k)
  {
    var r := Insert(x, s, key);
    if s == [] || key(x) <= key(s[0]) {
      assert r[0] == x && r[1..] == s;
    } else {
      assert SortedBy(s[1..], key);
      var t := Insert(x, s[1..], key);
      assert r[0] == s[0] && r[1..] == t;
      InsertStable(x, s[1..], key, k);
    }
  }

  /** The sort is stable: the elements of each key keep their input order. */
  lemma {:induction false} SortStable<T>(s: seq<T>, key: T -> real, k: real)
    ensures WithKey(SortBy(s, key), key, k) == WithKey(s, key, k)
  {
    if s != [] {
      SortStable(s[1..], key, k);
      InsertStable(s[0], SortBy(s[1..], key), key, k);
    }
  }

  /** The first element of a sorted permutation has the least key of all. */
  lemma SortedHeadIsLeast<T>(s: seq<T>, key: T -> real, y: T)
    requires y in s
    ensures |SortBy(s, key)| > 0 && key(SortBy(s, key)[0]) <= key(y)
  {
    var r := SortBy(s, key);
    assert y in multiset(s);
    assert y in multiset(r);
    var k :| 0 <= k < |r| && r[k] == y;
  }
}
