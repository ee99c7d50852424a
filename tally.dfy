/** Sums, bucket increments and running totals over the count arrays the charts fill. */
module Tally {

  function Sum(s: seq<int>): int {
    if s == [] then 0 else Sum(s[..|s| - 1]) + s[|s| - 1]
  }

  lemma {:induction false} SumConcat(a: seq<int>, b: seq<int>)
    ensures Sum(a + b) == Sum(a) + Sum(b)
    decreases |b|
  {
    if b == [] {
      assert a + b == a;
    } else {
      assert (a + b)[..|a + b| - 1] == a + b[..|b| - 1];
      SumConcat(a, b[..|b| - 1]);
    }
  }

  /** `Array(n).fill(0)`. */
  function Zeros(n: nat): (r: seq<int>)
    ensures |r| == n && Sum(r) == 0
    ensures forall i :: 0 <= i < n ==> r[i] == 0
  {
    if n == 0 then [] else
      var r := Zeros(n - 1) + [0];
      assert r[..n - 1] == Zeros(n - 1);
      r
  }

  /** `data[i] += w`. */
  function AddAt(s: seq<int>, i: int, w: int): (r: seq<int>)
    requires 0 <= i < |s|
    ensures |r| == |s| && r[i] == s[i] + w
    ensures forall j :: 0 <= j < |s| && j != i ==> r[j] == s[j]
  {
    s[i := s[i] + w]
  }

  /** One increment adds its weight to the total, whichever slot it hits. */
  lemma {:induction false} SumAddAt(s: seq<int>, i: int, w: int)
    requires 0 <= i < |s|
    ensures Sum(AddAt(s, i, w)) == Sum(s) + w
    decreases |s|
  {
    var r := AddAt(s, i, w);
    var n := |s| - 1;
    assert r[..n] == if i == n then s[..n] else AddAt(s[..n], i, w);
    if i < n {
      SumAddAt(s[..n], i, w);
    }
  }

  /** The running totals of the cumulative charts: entry i is the sum through i. */
  function PrefixSums(s: seq<int>): (r: seq<int>)
    ensures |r| == |s|
    ensures forall i :: 0 <= i < |s| ==> r[i] == Sum(s[..i + 1])
  {
    if s == [] then [] else
      var front := s[..|s| - 1];
      var r := PrefixSums(front) + [Sum(s)];
      assert s[..|s|] == s;
      forall i | 0 <= i < |front| ensures r[i] == Sum(s[..i + 1]) {
        assert front[..i + 1] == s[..i + 1];
      }
      r
  }

  /** With no negative counts the running totals never go down. */
  lemma PrefixSumsMonotone(s: seq<int>)
    requires forall i :: 0 <= i < |s| ==> s[i] >= 0
    ensures forall i, j :: 0 <= i <= j < |s| ==> PrefixSums(s)[i] <= PrefixSums(s)[j]
  {
    forall i, j | 0 <= i <= j < |s|
      ensures PrefixSums(s)[i] <= PrefixSums(s)[j]
    {
      LongerPrefixNoSmaller(s, i + 1, j + 1);
    }
  }

  /** The last running total is the total. */
  lemma PrefixSumsEndAtTotal(s: seq<int>)
    requires s != []
    ensures PrefixSums(s)[|s| - 1] == Sum(s)
  {
    assert s[..|s|] == s;
  }

  lemma LongerPrefixNoSmaller(s: seq<int>, m: int, n: int)
    requires forall i :: 0 <= i < |s| ==> s[i] >= 0
    requires 0 <= m <= n <= |s|
    ensures Sum(s[..m]) <= Sum(s[..n])
  {
    assert s[..n] == s[..m] + s[m..n];
    SumConcat(s[..m], s[m..n]);
    NonNegativeSum(s[m..n]);
  }

  lemma {:induction false} NonNegativeSum(s: seq<int>)
    requires forall i :: 0 <= i < |s| ==> s[i] >= 0
    ensures Sum(s) >= 0
    decreases |s|
  {
    if s != [] {
      NonNegativeSum(s[..|s| - 1]);
    }
  }

  /**
   * `let runningTotal = 0; data = data.map(v => { runningTotal += v; return runningTotal; })`.
   */
  method RunningTotals(data: seq<int>) returns (r: seq<int>)
    ensures r == PrefixSums(data)
  {
    var runningTotal := 0;
    r := [];
    var i := 0;
    while i < |data|
      invariant 0 <= i <= |data|
      invariant runningTotal == Sum(data[..i])
      invariant r == PrefixSums(data[..i])
    {
      assert data[..i + 1][..i] == data[..i];
      runningTotal := runningTotal + data[i];
      r := r + [runningTotal];
      i := i + 1;
    }
    assert data[..i] == data;
  }
}
