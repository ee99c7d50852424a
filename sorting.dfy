/** A stable insertion sort by an integer key, the order `Array.prototype.sort` gives with a numeric comparator. */
module Sorting {

  ghost predicate SortedBy<T>(s: seq<T>, key: T -> int) {
    forall i, j :: 0 <= i < j < |s| ==> key(s[i]) <= key(s[j])
  }

  /** Inserts x after every element whose key is not larger, so equal keys keep their order. */
  function InsertBy<T(==)>(sorted: seq<T>, x: T, key: T -> int): (r: seq<T>)
    ensures multiset(r) == multiset(sorted) + multiset{x}
    ensures SortedBy(sorted, key) ==> SortedBy(r, key)
    decreases |sorted|
  {
    if sorted == [] then [x]
    else
      var front, last := sorted[..|sorted| - 1], sorted[|sorted| - 1];
      assert sorted == front + [last];
      if key(last) <= key(x) then sorted + [x]
      else
        var inner := InsertBy(front, x, key);
        assert SortedBy(sorted, key) ==> SortedBy(inner + [last], key) by {
          if SortedBy(sorted, key) {
            InnerBelowLast(sorted, inner, x, key);
          }
        }
        inner + [last]
  }

  /** Putting the old last element back after the insertion into the front keeps the order. */
  lemma InnerBelowLast<T>(sorted: seq<T>, inner: seq<T>, x: T, key: T -> int)
    requires sorted != [] && SortedBy(sorted, key) && SortedBy(inner, key)
    requires multiset(inner) == multiset(sorted[..|sorted| - 1]) + multiset{x}
    requires key(x) < key(sorted[|sorted| - 1])
    ensures SortedBy(inner + [sorted[|sorted| - 1]], key)
  {
    var front, last := sorted[..|sorted| - 1], sorted[|sorted| - 1];
    forall i | 0 <= i < |inner| ensures key(inner[i]) <= key(last) {
      var y := inner[i];
      assert y in multiset(inner);
      if y != x {
        assert y in multiset(front);
        var k :| 0 <= k < |front| && front[k] == y;
        assert sorted[k] == y;
      }
    }
  }

  /** Sorts by key: the result is ordered and holds exactly the input's elements. */
  function SortBy<T(==)>(s: seq<T>, key: T -> int): (r: seq<T>)
    ensures multiset(r) == multiset(s)
    ensures SortedBy(r, key)
  {
    if s == [] then []
    else
      assert s == s[..|s| - 1] + [s[|s| - 1]];
      InsertBy(SortBy(s[..|s| - 1], key), s[|s| - 1], key)
  }

  /** Sorting keeps the length, and the last element has the largest key. */
  lemma SortedLast<T>(s: seq<T>, key: T -> int)
    ensures |SortBy(s, key)| == |s|
    ensures s != [] ==> SortBy(s, key)[|s| - 1] in s
    ensures s != [] ==> forall x :: x in s ==> key(x) <= key(SortBy(s, key)[|s| - 1])
  {
    var r := SortBy(s, key);
    assert |r| == |multiset(r)| == |multiset(s)| == |s|;
    if s != [] {
      assert r[|s| - 1] in multiset(r);
      forall x | x in s ensures key(x) <= key(r[|s| - 1]) {
        assert x in multiset(r);
        var k :| 0 <= k < |r| && r[k] == x;
      }
    }
  }

  /** Sorting a list that is already in key order returns it unchanged (stability). */
  lemma {:induction false} SortedUnchanged<T>(s: seq<T>, key: T -> int)
    requires SortedBy(s, key)
    ensures SortBy(s, key) == s
    decreases |s|
  {
    if s != [] {
      var front := s[..|s| - 1];
      assert SortedBy(front, key);
      SortedUnchanged(front, key);
      if front != [] {
        assert key(front[|front| - 1]) <= key(s[|s| - 1]);
      }
      assert front + [s[|s| - 1]] == s;
    }
  }
}
