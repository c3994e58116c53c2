/** statistics.median over exact integers, kept doubled so that it stays an integer. */
module Statistics {
  import opened Prelude
  import opened Sorting

  predicate AtMost(x: int, y: int) { x <= y }

  /** Twice the median of a non-empty list. */
  function TwiceMedian(values: seq<int>): int
    requires values != []
  {
    SortByPermutes(values, AtMost);
    var sorted, n := SortBy(values, AtMost), |values|;
    if n % 2 == 1 then 2 * sorted[n / 2] else sorted[n / 2 - 1] + sorted[n / 2]
  }

  predicate IsMinimum(m: int, values: seq<int>) {
    m in values && forall x :: x in values ==> m <= x
  }

  predicate IsMaximum(m: int, values: seq<int>) {
    m in values && forall x :: x in values ==> x <= m
  }

  function Minimum(values: seq<int>): (m: int)
    requires values != []
    ensures IsMinimum(m, values)
  {
    if |values| == 1 then values[0]
    else
      assert values == [values[0]] + values[1..];
      var rest := Minimum(values[1..]);
      if values[0] < rest then values[0] else rest
  }

  function Maximum(values: seq<int>): (m: int)
    requires values != []
    ensures IsMaximum(m, values)
  {
    if |values| == 1 then values[0]
    else
      assert values == [values[0]] + values[1..];
      var rest := Maximum(values[1..]);
      if values[0] > rest then values[0] else rest
  }

  lemma MedianLiesBetween(values: seq<int>)
    requires values != []
    ensures 2 * Minimum(values) <= TwiceMedian(values) <= 2 * Maximum(values)
  {
    SortByPermutes(values, AtMost);
    SortByMembers(values, AtMost);
    var sorted, n := SortBy(values, AtMost), |values|;
    assert sorted[n / 2] in sorted;
    if n % 2 == 0 { assert sorted[n / 2 - 1] in sorted; }
  }

  lemma {:induction false} WholePrefixPasses(s: seq<int>, k: nat, p: int -> bool)
    requires k <= |s| && forall i :: 0 <= i < k ==> p(s[i])
    ensures |Filter(s, p)| >= k
  {
    if k > 0 { WholePrefixPasses(s[1..], k - 1, p); }
  }

  lemma {:induction false} WholeSuffixPasses(s: seq<int>, k: nat, p: int -> bool)
    requires k <= |s| && forall i :: k <= i < |s| ==> p(s[i])
    ensures |Filter(s, p)| >= |s| - k
  {
    if k == 0 {
      WholePrefixPasses(s, |s|, p);
    } else {
      WholeSuffixPasses(s[1..], k - 1, p);
    }
  }

  function NotAbove(m2: int): int -> bool {
    (x: int) => 2 * x <= m2
  }

  function NotBelow(m2: int): int -> bool {
    (x: int) => 2 * x >= m2
  }

  lemma SortedHalves(sorted: seq<int>, m2: int)
    requires sorted != [] && SortedBy(sorted, AtMost)
    requires var n := |sorted|; m2 == if n % 2 == 1 then 2 * sorted[n / 2] else sorted[n / 2 - 1] + sorted[n / 2]
    ensures 2 * |Filter(sorted, NotAbove(m2))| >= |sorted|
    ensures 2 * |Filter(sorted, NotBelow(m2))| >= |sorted|
  {
    var n := |sorted|;
    var lo, hi := (n - 1) / 2, n / 2;
    assert lo < hi ==> AtMost(sorted[lo], sorted[hi]);
    forall i | 0 <= i < lo + 1 ensures NotAbove(m2)(sorted[i]) {
      if i < lo { assert AtMost(sorted[i], sorted[lo]); }
    }
    forall i | hi <= i < n ensures NotBelow(m2)(sorted[i]) {
      if hi < i { assert AtMost(sorted[hi], sorted[i]); }
    }
    WholePrefixPasses(sorted, lo + 1, NotAbove(m2));
    WholeSuffixPasses(sorted, hi, NotBelow(m2));
  }

  /** At least half of the values are at or below the median, and at least half at or above it. */
  lemma MedianHalvesTheValues(values: seq<int>)
    requires values != []
    ensures 2 * |Filter(values, NotAbove(TwiceMedian(values)))| >= |values|
    ensures 2 * |Filter(values, NotBelow(TwiceMedian(values)))| >= |values|
  {
    SortByPermutes(values, AtMost);
    SortBySorts(values, AtMost);
    var sorted, m2 := SortBy(values, AtMost), TwiceMedian(values);
    SortedHalves(sorted, m2);
    FilterForgetsStoredOrder(sorted, values, NotAbove(m2));
    FilterForgetsStoredOrder(sorted, values, NotBelow(m2));
    SameMembers(Filter(sorted, NotAbove(m2)), Filter(values, NotAbove(m2)));
    SameMembers(Filter(sorted, NotBelow(m2)), Filter(values, NotBelow(m2)));
  }

  function Below(x: int): int -> bool {
    (v: int) => v < x
  }

  function UpTo(x: int): int -> bool {
    (v: int) => v <= x
  }

  /** x is the value at position k when the values are put in ascending order. */
  ghost predicate HasRank(values: seq<int>, x: int, k: int) {
    x in values && |Filter(values, Below(x))| <= k < |Filter(values, UpTo(x))|
  }

  lemma {:induction false} SortedBelow(sorted: seq<int>, k: nat)
    requires SortedBy(sorted, AtMost) && k < |sorted|
    ensures |Filter(sorted, Below(sorted[k]))| <= k
  {
    var x := sorted[k];
    var first, rest := sorted[..k], sorted[k..];
    forall i | 0 <= i < |rest| ensures !Below(x)(rest[i]) {
      if i > 0 { assert AtMost(sorted[k], sorted[k + i]); }
    }
    assert sorted == first + rest;
    FilterConcat(first, rest, Below(x));
    FilterMembers(first, Below(x));
    FilterNone(rest, Below(x));
  }

  lemma {:induction false} SortedUpTo(sorted: seq<int>, k: nat)
    requires SortedBy(sorted, AtMost) && k < |sorted|
    ensures k < |Filter(sorted, UpTo(sorted[k]))|
  {
    forall i | 0 <= i < k + 1 ensures UpTo(sorted[k])(sorted[i]) {
      if i < k { assert AtMost(sorted[i], sorted[k]); }
    }
    WholePrefixPasses(sorted, k + 1, UpTo(sorted[k]));
  }

  lemma SameCount(a: seq<int>, b: seq<int>, p: int -> bool)
    requires multiset(a) == multiset(b)
    ensures |Filter(a, p)| == |Filter(b, p)|
  {
    FilterForgetsStoredOrder(a, b, p);
    SameMembers(Filter(a, p), Filter(b, p));
  }

  lemma SortedPositionHasRank(values: seq<int>, k: nat)
    requires k < |values|
    ensures |SortBy(values, AtMost)| == |values| && HasRank(values, SortBy(values, AtMost)[k], k)
  {
    SortByPermutes(values, AtMost);
    SortBySorts(values, AtMost);
    SortByMembers(values, AtMost);
    var sorted := SortBy(values, AtMost);
    SortedBelow(sorted, k);
    SortedUpTo(sorted, k);
    SameCount(sorted, values, Below(sorted[k]));
    SameCount(sorted, values, UpTo(sorted[k]));
    assert sorted[k] in sorted;
  }

  /** The median is the middle value, or the mean of the two middle values. */
  lemma MedianIsTheMiddle(values: seq<int>) returns (x: int, y: int)
    requires values != []
    ensures HasRank(values, x, (|values| - 1) / 2) && HasRank(values, y, |values| / 2)
    ensures TwiceMedian(values) == x + y
  {
    SortedPositionHasRank(values, (|values| - 1) / 2);
    SortedPositionHasRank(values, |values| / 2);
    x, y := SortBy(values, AtMost)[(|values| - 1) / 2], SortBy(values, AtMost)[|values| / 2];
  }

  lemma {:induction false} RanksGrow(values: seq<int>, x: int, y: int)
    requires x < y
    ensures |Filter(values, UpTo(x))| <= |Filter(values, Below(y))|
  {
    if values != [] { RanksGrow(values[1..], x, y); }
  }

  /** Only one value has a given rank, so this description defines the median. */
  lemma RankIsUnique(values: seq<int>, x: int, y: int, k: int)
    requires HasRank(values, x, k) && HasRank(values, y, k)
    ensures x == y
  {
    if x < y { RanksGrow(values, x, y); }
    if y < x { RanksGrow(values, y, x); }
  }

  /** The median does not depend on the order of the samples. */
  lemma MedianForgetsOrder(a: seq<int>, b: seq<int>)
    requires a != [] && multiset(a) == multiset(b)
    ensures b != [] && TwiceMedian(a) == TwiceMedian(b)
  {
    SameMembers(a, b);
    SortForgetsStoredOrder(a, b, AtMost);
  }
}
