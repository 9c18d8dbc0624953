/**
 * `_calc_percentiles`, shared by both clients: an empty sample list gives
 * no result; otherwise the list is sorted in place and the samples at
 * ranks n*0.5, n*0.9 and n*0.99 (truncated) are reported as p50, p90, p99.
 */
module Latency {
  import opened Base

  datatype Percentiles = Percentiles(p50: real, p90: real, p99: real)

  predicate Sorted(s: seq<real>) {
    forall i, j :: 0 <= i < j < |s| ==> s[i] <= s[j]
  }

  /** The rank `int(n * pct / 100)` of a percentile among `n` samples. */
  function Rank(n: nat, pct: nat): nat {
    n * pct / 100
  }

  lemma RankBelow(n: nat, pct: nat)
    requires 0 < n && pct < 100
    ensures Rank(n, pct) < n
  {
    MulMonotone(n, pct, 99);
  }

  lemma MulMonotone(n: nat, a: nat, b: nat)
    requires a <= b
    ensures n * a <= n * b
  {
    assert n * b - n * a == n * (b - a);
  }

  lemma RankMonotone(n: nat, lo: nat, hi: nat)
    requires lo <= hi
    ensures Rank(n, lo) <= Rank(n, hi)
  {
    MulMonotone(n, lo, hi);
  }

  /** The three percentiles of an already sorted sample list. */
  function Select(sorted: seq<real>): (p: Option<Percentiles>)
    ensures p.None? <==> sorted == []
  {
    if sorted == [] then None
    else
      var n := |sorted|;
      RankBelow(n, 50);
      RankBelow(n, 90);
      RankBelow(n, 99);
      Some(Percentiles(sorted[Rank(n, 50)], sorted[Rank(n, 90)], sorted[Rank(n, 99)]))
  }

  /** On a sorted list the reported percentiles are ordered p50 <= p90 <= p99. */
  lemma SelectOrdered(sorted: seq<real>)
    requires Sorted(sorted) && sorted != []
    ensures Select(sorted).value.p50 <= Select(sorted).value.p90 <= Select(sorted).value.p99
  {
    var n := |sorted|;
    RankMonotone(n, 50, 90);
    RankMonotone(n, 90, 99);
    RankBelow(n, 99);
  }

  /**
   * Each reported percentile is one of the samples, lies between the
   * smallest and the largest, and at least half (ninety, ninety-nine per
   * cent) of the samples are at most p50 (p90, p99).
   */
  lemma SelectFromSamples(sorted: seq<real>)
    requires Sorted(sorted) && sorted != []
    ensures var p := Select(sorted).value;
      && p.p50 in sorted && p.p90 in sorted && p.p99 in sorted
      && sorted[0] <= p.p50 && p.p99 <= sorted[|sorted| - 1]
      && (forall j :: 0 <= j <= Rank(|sorted|, 50) ==> sorted[j] <= p.p50)
      && (forall j :: 0 <= j <= Rank(|sorted|, 90) ==> sorted[j] <= p.p90)
      && (forall j :: 0 <= j <= Rank(|sorted|, 99) ==> sorted[j] <= p.p99)
  {
    var n := |sorted|;
    RankBelow(n, 50);
    RankBelow(n, 90);
    RankBelow(n, 99);
  }

  /** Ten samples 1..10: p50 is the sixth, p90 and p99 the tenth. */
  lemma SelectTenSamples()
    ensures Select([1.0, 2.0, 3.0, 4.0, 5.0, 6.0, 7.0, 8.0, 9.0, 10.0]) == Some(Percentiles(6.0, 10.0, 10.0))
  {
    assert Rank(10, 50) == 5 && Rank(10, 90) == 9 && Rank(10, 99) == 9;
  }

  /** `data.sort()`: an insertion sort of the list in place. */
  method Sort(a: array<real>)
    modifies a
    ensures Sorted(a[..])
    ensures multiset(a[..]) == multiset(old(a[..]))
  {
    var i := 1;
    while i < a.Length
      invariant a.Length == 0 || 1 <= i <= a.Length
      invariant forall p, q :: 0 <= p < q < i && q < a.Length ==> a[p] <= a[q]
      invariant multiset(a[..]) == multiset(old(a[..]))
    {
      Insert(a, i);
      i := i + 1;
    }
  }

  /** Moves `a[i]` down into the sorted prefix `a[..i]`, leaving `a[..i+1]` sorted. */
  method Insert(a: array<real>, i: nat)
    requires i < a.Length
    requires forall p, q :: 0 <= p < q < i ==> a[p] <= a[q]
    modifies a
    ensures forall p, q :: 0 <= p < q <= i ==> a[p] <= a[q]
    ensures multiset(a[..]) == multiset(old(a[..]))
  {
    var j := i;
    while j > 0 && a[j - 1] > a[j]
      invariant 0 <= j <= i
      invariant forall p, q :: 0 <= p < q <= i && p != j && q != j ==> a[p] <= a[q]
      invariant forall q :: j < q <= i ==> a[j] <= a[q]
      invariant multiset(a[..]) == multiset(old(a[..]))
    {
      Swap(a, j);
      j := j - 1;
    }
  }

  /** Exchanges `a[k - 1]` and `a[k]`. */
  method Swap(a: array<real>, k: nat)
    requires 0 < k < a.Length
    modifies a
    ensures a[..] == old(a[..])[k - 1 := old(a[k])][k := old(a[k - 1])]
    ensures multiset(a[..]) == multiset(old(a[..]))
  {
    a[k - 1], a[k] := a[k], a[k - 1];
  }

  /**
   * `_calc_percentiles`: no result for an empty list; otherwise the list
   * is left sorted (a permutation of the samples) and the result is the
   * percentiles of the sorted list.
   */
  method CalcPercentiles(data: array<real>) returns (p: Option<Percentiles>)
    modifies data
    ensures data.Length == 0 ==> p == None && data[..] == old(data[..])
    ensures Sorted(data[..])
    ensures multiset(data[..]) == multiset(old(data[..]))
    ensures p == Select(data[..])
  {
    if data.Length == 0 {
      return None;
    }
    Sort(data);
    var n := data.Length;
    RankBelow(n, 50);
    RankBelow(n, 90);
    RankBelow(n, 99);
    p := Some(Percentiles(data[Rank(n, 50)], data[Rank(n, 90)], data[Rank(n, 99)]));
  }
}
