/**
 Filtering and stable sorting, the two list operations that WHERE, ORDER BY and list.sort stand for,
 and what is true of them whatever order the rows were stored in.
*/
module Sorting {
  import opened Prelude

  ghost predicate TotalPreorder<T(!new)>(leq: (T, T) -> bool) {
    && (forall x, y :: leq(x, y) || leq(y, x))
    && (forall x, y, z :: leq(x, y) && leq(y, z) ==> leq(x, z))
  }

  ghost predicate SortedBy<T>(s: seq<T>, leq: (T, T) -> bool) {
    forall i, j :: 0 <= i < j < |s| ==> leq(s[i], s[j])
  }

  /** Two rows the order cannot tell apart are the same row. */
  ghost predicate Distinguishes<T>(s: seq<T>, leq: (T, T) -> bool) {
    forall x, y :: x in s && y in s && leq(x, y) && leq(y, x) ==> x == y
  }

  ghost predicate NoDuplicates<T>(s: seq<T>) {
    forall i, j :: 0 <= i < j < |s| ==> s[i] != s[j]
  }

  function Filter<T>(s: seq<T>, p: T -> bool): seq<T> {
    if s == [] then [] else (if p(s[0]) then [s[0]] else []) + Filter(s[1..], p)
  }

  function Insert<T>(x: T, s: seq<T>, leq: (T, T) -> bool): seq<T> {
    if s == [] || leq(x, s[0]) then [x] + s else [s[0]] + Insert(x, s[1..], leq)
  }

  /** A stable sort: equal rows keep their order. */
  function SortBy<T>(s: seq<T>, leq: (T, T) -> bool): seq<T> {
    if s == [] then [] else Insert(s[0], SortBy(s[1..], leq), leq)
  }

  lemma {:induction false} InsertPermutes<T>(x: T, s: seq<T>, leq: (T, T) -> bool)
    ensures multiset(Insert(x, s, leq)) == multiset{x} + multiset(s)
  {
    if s == [] || leq(x, s[0]) {
    } else {
      InsertPermutes(x, s[1..], leq);
      assert s == [s[0]] + s[1..];
    }
  }

  lemma {:induction false} SortByPermutes<T>(s: seq<T>, leq: (T, T) -> bool)
    ensures multiset(SortBy(s, leq)) == multiset(s)
    ensures |SortBy(s, leq)| == |s|
  {
    if s != [] {
      SortByPermutes(s[1..], leq);
      InsertPermutes(s[0], SortBy(s[1..], leq), leq);
      assert s == [s[0]] + s[1..];
    }
    assert |multiset(SortBy(s, leq))| == |multiset(s)|;
  }

  lemma SortByMembers<T>(s: seq<T>, leq: (T, T) -> bool)
    ensures forall x :: x in SortBy(s, leq) <==> x in s
  {
    SortByPermutes(s, leq);
    forall x ensures x in SortBy(s, leq) <==> x in s {
      assert x in SortBy(s, leq) <==> x in multiset(SortBy(s, leq));
      assert x in s <==> x in multiset(s);
    }
  }

  lemma {:induction false} InsertSorts<T(!new)>(x: T, s: seq<T>, leq: (T, T) -> bool)
    requires TotalPreorder(leq) && SortedBy(s, leq)
    ensures SortedBy(Insert(x, s, leq), leq)
  {
    if s == [] || leq(x, s[0]) {
    } else {
      var rest := Insert(x, s[1..], leq);
      InsertSorts(x, s[1..], leq);
      InsertPermutes(x, s[1..], leq);
      forall y | y in rest ensures leq(s[0], y) {
        assert y in multiset(rest);
        if y != x {
          assert y in multiset(s[1..]);
          assert y in s[1..];
        }
      }
    }
  }

  lemma {:induction false} SortBySorts<T(!new)>(s: seq<T>, leq: (T, T) -> bool)
    requires TotalPreorder(leq)
    ensures SortedBy(SortBy(s, leq), leq)
  {
    if s != [] {
      SortBySorts(s[1..], leq);
      InsertSorts(s[0], SortBy(s[1..], leq), leq);
    }
  }

  lemma SameHead<T>(a: seq<T>, b: seq<T>, leq: (T, T) -> bool)
    requires SortedBy(a, leq) && SortedBy(b, leq)
    requires a != [] && b != [] && a[0] in b && b[0] in a
    requires Distinguishes(a, leq)
    ensures a[0] == b[0]
  {
    var i :| 0 <= i < |a| && a[i] == b[0];
    var j :| 0 <= j < |b| && b[j] == a[0];
    if i != 0 && j != 0 {
      assert leq(a[0], a[i]) && leq(b[0], b[j]);
    }
  }

  lemma SameMembers<T>(a: seq<T>, b: seq<T>)
    requires multiset(a) == multiset(b)
    ensures |a| == |b|
    ensures forall x :: x in a <==> x in b
  {
    assert |multiset(a)| == |multiset(b)|;
    forall x ensures x in a <==> x in b {
      assert x in a <==> x in multiset(a);
      assert x in b <==> x in multiset(b);
    }
  }

  lemma InTail<T>(s: seq<T>, x: T)
    requires x in s && x != s[0]
    ensures x in s[1..]
  {
    var i :| 0 <= i < |s| && s[i] == x;
    assert s[1..][i - 1] == x;
  }

  lemma SameTail<T>(a: seq<T>, b: seq<T>)
    requires a != [] && b != [] && a[0] == b[0] && multiset(a) == multiset(b)
    ensures multiset(a[1..]) == multiset(b[1..])
  {
    assert a == [a[0]] + a[1..] && b == [b[0]] + b[1..];
    assert multiset(a[1..]) == multiset(a) - multiset{a[0]};
    assert multiset(b[1..]) == multiset(b) - multiset{b[0]};
  }

  /** There is only one sorted arrangement of rows that the order tells apart. */
  lemma {:induction false} SortedArrangementUnique<T>(a: seq<T>, b: seq<T>, leq: (T, T) -> bool)
    requires SortedBy(a, leq) && SortedBy(b, leq)
    requires multiset(a) == multiset(b)
    requires Distinguishes(a, leq)
    ensures a == b
  {
    SameMembers(a, b);
    if a != [] {
      SameHead(a, b, leq);
      SameTail(a, b);
      SortedArrangementUnique(a[1..], b[1..], leq);
      assert a == [a[0]] + a[1..] && b == [b[0]] + b[1..];
    }
  }

  /** Sorting forgets the stored order. */
  lemma SortForgetsStoredOrder<T(!new)>(a: seq<T>, b: seq<T>, leq: (T, T) -> bool)
    requires TotalPreorder(leq) && multiset(a) == multiset(b) && Distinguishes(a, leq)
    ensures SortBy(a, leq) == SortBy(b, leq)
  {
    SortByPermutes(a, leq);
    SortByPermutes(b, leq);
    SortBySorts(a, leq);
    SortBySorts(b, leq);
    SortByMembers(a, leq);
    SortedArrangementUnique(SortBy(a, leq), SortBy(b, leq), leq);
  }

  lemma ConcatAssociates<T>(a: seq<T>, b: seq<T>, c: seq<T>)
    ensures (a + b) + c == a + (b + c)
  {
  }

  lemma {:induction false} FilterMembers<T>(s: seq<T>, p: T -> bool)
    ensures forall x :: x in Filter(s, p) <==> x in s && p(x)
    ensures forall j :: 0 <= j < |Filter(s, p)| ==> Filter(s, p)[j] in s && p(Filter(s, p)[j])
    ensures |Filter(s, p)| <= |s|
  {
    if s != [] {
      FilterMembers(s[1..], p);
      assert s == [s[0]] + s[1..];
    }
  }

  lemma {:induction false} FilterConcat<T>(a: seq<T>, b: seq<T>, p: T -> bool)
    ensures Filter(a + b, p) == Filter(a, p) + Filter(b, p)
  {
    if a == [] {
      assert a + b == b;
    } else {
      assert (a + b)[1..] == a[1..] + b;
      FilterConcat(a[1..], b, p);
      ConcatAssociates(if p(a[0]) then [a[0]] else [], Filter(a[1..], p), Filter(b, p));
    }
  }

  /** In a rearrangement, the first row can be pulled out of where it went. */
  lemma PullFront<T>(a: seq<T>, b: seq<T>) returns (before: seq<T>, after: seq<T>)
    requires multiset(a) == multiset(b) && a != []
    ensures b == before + ([a[0]] + after)
    ensures multiset(a[1..]) == multiset(before + after)
  {
    SameMembers(a, b);
    assert a[0] in a;
    assert a[0] in b;
    var i :| 0 <= i < |b| && b[i] == a[0];
    before, after := b[..i], b[i + 1..];
    var moved := [a[0]] + (before + after);
    assert b == before + ([a[0]] + after) && moved[1..] == before + after;
    assert multiset(moved) == multiset(b);
    SameTail(a, moved);
  }

  lemma {:induction false} FilterForgetsStoredOrder<T>(a: seq<T>, b: seq<T>, p: T -> bool)
    requires multiset(a) == multiset(b)
    ensures multiset(Filter(a, p)) == multiset(Filter(b, p))
  {
    SameMembers(a, b);
    if a != [] {
      var before, after := PullFront(a, b);
      FilterForgetsStoredOrder(a[1..], before + after, p);
      FilterConcat(before, [a[0]] + after, p);
      FilterConcat(before, after, p);
      assert ([a[0]] + after)[1..] == after;
    }
  }

  lemma {:induction false} FilterKeepsOrder<T>(s: seq<T>, p: T -> bool, leq: (T, T) -> bool)
    requires SortedBy(s, leq)
    ensures SortedBy(Filter(s, p), leq)
  {
    if s != [] {
      FilterKeepsOrder(s[1..], p, leq);
      FilterMembers(s[1..], p);
      var rest := Filter(s[1..], p);
      forall j | 0 <= j < |rest| ensures leq(s[0], rest[j]) {
        var i :| 0 <= i < |s[1..]| && s[1..][i] == rest[j];
        assert leq(s[0], s[i + 1]);
      }
      if p(s[0]) {
        assert Filter(s, p) == [s[0]] + rest;
      } else {
        assert Filter(s, p) == rest;
      }
    }
  }

  /** A narrower query returns the same rows in the same order as filtering the wider one. */
  lemma FilterCommutesWithSort<T(!new)>(s: seq<T>, p: T -> bool, leq: (T, T) -> bool)
    requires TotalPreorder(leq) && Distinguishes(s, leq)
    ensures Filter(SortBy(s, leq), p) == SortBy(Filter(s, p), leq)
  {
    SortBySorts(s, leq);
    SortByPermutes(s, leq);
    SortByMembers(s, leq);
    FilterKeepsOrder(SortBy(s, leq), p, leq);
    FilterForgetsStoredOrder(SortBy(s, leq), s, p);
    SortByPermutes(Filter(s, p), leq);
    SortBySorts(Filter(s, p), leq);
    FilterMembers(SortBy(s, leq), p);
    SortedArrangementUnique(Filter(SortBy(s, leq), p), SortBy(Filter(s, p), leq), leq);
  }

  lemma {:induction false} FilterTwice<T>(s: seq<T>, p: T -> bool, q: T -> bool, both: T -> bool)
    requires forall x :: x in s ==> (both(x) <==> p(x) && q(x))
    ensures Filter(Filter(s, p), q) == Filter(s, both)
  {
    if s != [] {
      FilterTwice(s[1..], p, q, both);
      if p(s[0]) {
        FilterConcat([s[0]], Filter(s[1..], p), q);
        assert Filter([s[0]], q) == if q(s[0]) then [s[0]] else [];
      } else {
        assert Filter(s, p) == Filter(s[1..], p);
      }
    }
  }

  lemma {:induction false} FilterAgrees<T>(s: seq<T>, p: T -> bool, q: T -> bool)
    requires forall x :: x in s ==> (p(x) <==> q(x))
    ensures Filter(s, p) == Filter(s, q)
  {
    if s != [] { FilterAgrees(s[1..], p, q); }
  }

  lemma {:induction false} FilterNone<T>(s: seq<T>, p: T -> bool)
    requires forall x :: x in s ==> !p(x)
    ensures Filter(s, p) == []
  {
    if s != [] { FilterNone(s[1..], p); }
  }

  lemma {:induction false} FilterAll<T>(s: seq<T>, p: T -> bool)
    requires forall x :: x in s ==> p(x)
    ensures Filter(s, p) == s
  {
    if s != [] { FilterAll(s[1..], p); }
  }

  lemma {:induction false} FilterKeepsDistinct<T>(s: seq<T>, p: T -> bool)
    requires NoDuplicates(s)
    ensures NoDuplicates(Filter(s, p))
  {
    if s != [] {
      FilterKeepsDistinct(s[1..], p);
      FilterMembers(s[1..], p);
    }
  }

  lemma ConcatKeepsDistinct<T>(a: seq<T>, b: seq<T>)
    requires NoDuplicates(a) && NoDuplicates(b) && forall i, j :: 0 <= i < |a| && 0 <= j < |b| ==> a[i] != b[j]
    ensures NoDuplicates(a + b)
  {
  }

  lemma {:induction false} DistinctCounts<T>(s: seq<T>)
    ensures NoDuplicates(s) <==> forall x :: multiset(s)[x] <= 1
  {
    if s != [] {
      DistinctCounts(s[1..]);
      assert s == [s[0]] + s[1..];
      assert multiset(s) == multiset{s[0]} + multiset(s[1..]);
      if NoDuplicates(s) {
        assert NoDuplicates(s[1..]);
        assert s[0] !in s[1..];
      } else {
        var i, j :| 0 <= i < j < |s| && s[i] == s[j];
        if i == 0 {
          assert s[1..][j - 1] == s[0];
          assert multiset(s)[s[0]] >= 2;
        } else {
          assert s[1..][i - 1] == s[1..][j - 1];
          assert !NoDuplicates(s[1..]);
          var x :| multiset(s[1..])[x] > 1;
          assert multiset(s)[x] > 1;
        }
      }
    }
  }

  lemma SortKeepsDistinct<T>(s: seq<T>, leq: (T, T) -> bool)
    requires NoDuplicates(s)
    ensures NoDuplicates(SortBy(s, leq))
  {
    DistinctCounts(s);
    DistinctCounts(SortBy(s, leq));
    SortByPermutes(s, leq);
  }

  function Map<T, U>(s: seq<T>, f: T -> U): seq<U> {
    seq(|s|, i requires 0 <= i < |s| => f(s[i]))
  }

  /** A loop that appends what each element contributes. */
  function FlatMap<T, U>(s: seq<T>, f: T -> seq<U>): seq<U> {
    if s == [] then [] else FlatMap(s[..|s| - 1], f) + f(s[|s| - 1])
  }

  lemma FlatMapNext<T, U>(s: seq<T>, x: T, f: T -> seq<U>)
    ensures FlatMap(s + [x], f) == FlatMap(s, f) + f(x)
  {
    assert (s + [x])[..|s|] == s;
  }

  lemma {:induction false} FlatMapPrefix<T, U>(s: seq<T>, f: T -> seq<U>, m: nat)
    requires m <= |s|
    ensures FlatMap(s[..m], f) <= FlatMap(s, f)
  {
    if m == |s| {
      assert s[..m] == s;
    } else {
      FlatMapPrefix(s[..|s| - 1], f, m);
      assert s[..|s| - 1][..m] == s[..m];
    }
  }

  /** What an element contributes is in the result. */
  lemma FlatMapMembers<T, U>(s: seq<T>, f: T -> seq<U>, k: nat, x: U)
    requires k < |s| && x in f(s[k])
    ensures x in FlatMap(s, f)
  {
    FlatMapPrefix(s, f, k + 1);
    var upTo := s[..k + 1];
    assert upTo[..k] == s[..k] && upTo[k] == s[k];
    var i :| 0 <= i < |f(s[k])| && f(s[k])[i] == x;
    assert FlatMap(s, f)[|FlatMap(s[..k], f)| + i] == FlatMap(upTo, f)[|FlatMap(s[..k], f)| + i];
  }

  lemma MapConcat<T, U>(a: seq<T>, b: seq<T>, f: T -> U)
    ensures Map(a + b, f) == Map(a, f) + Map(b, f)
  {
  }

  lemma {:induction false} MapForgetsStoredOrder<T, U>(a: seq<T>, b: seq<T>, f: T -> U)
    requires multiset(a) == multiset(b)
    ensures multiset(Map(a, f)) == multiset(Map(b, f))
  {
    SameMembers(a, b);
    if a != [] {
      var before, after := PullFront(a, b);
      MapForgetsStoredOrder(a[1..], before + after, f);
      assert a == [a[0]] + a[1..];
      MapConcat([a[0]], a[1..], f);
      MapConcat(before, [a[0]] + after, f);
      MapConcat([a[0]], after, f);
      MapConcat(before, after, f);
    }
  }

  /** Rows that pass one by one are counted alike. */
  lemma {:induction false} FilterCountsAlike<T, U>(a: seq<T>, b: seq<U>, p: T -> bool, q: U -> bool)
    requires |a| == |b| && forall i :: 0 <= i < |a| ==> p(a[i]) == q(b[i])
    ensures |Filter(a, p)| == |Filter(b, q)|
  {
    if a != [] { FilterCountsAlike(a[1..], b[1..], p, q); }
  }

  /** The first element that satisfies p. */
  function First<T>(s: seq<T>, p: T -> bool): Option<T> {
    if s == [] then None else if p(s[0]) then Some(s[0]) else First(s[1..], p)
  }

  /** What is in a list but not in this prefix of it is further on. */
  lemma BeyondPrefix<T>(s: seq<T>, n: nat, x: T) returns (k: nat)
    requires n <= |s| && x in s && x !in s[..n]
    ensures n <= k < |s| && s[k] == x
  {
    assert forall i :: 0 <= i < n ==> s[i] in s[..n];
    k :| 0 <= k < |s| && s[k] == x;
  }

  /** `.limit(1)`: the first row of a result. */
  function Head<T>(s: seq<T>): Option<T> {
    if s == [] then None else Some(s[0])
  }

  lemma {:induction false} FirstExtends<T>(s: seq<T>, x: T, p: T -> bool)
    ensures First(s + [x], p) == if First(s, p).Some? then First(s, p) else if p(x) then Some(x) else None
  {
    if s == [] {
      assert s + [x] == [x];
    } else {
      assert (s + [x])[1..] == s[1..] + [x];
      FirstExtends(s[1..], x, p);
    }
  }

  lemma {:induction false} FirstHeadsTheFilter<T>(s: seq<T>, p: T -> bool)
    ensures First(s, p) == Head(Filter(s, p))
  {
    if s != [] && !p(s[0]) {
      FirstHeadsTheFilter(s[1..], p);
      assert Filter(s, p) == Filter(s[1..], p);
    }
  }

  /** A ranked query with `.limit(1)` returns a row that meets its condition and ranks before all that do. */
  lemma HeadRanksFirst<T(!new)>(s: seq<T>, p: T -> bool, leq: (T, T) -> bool)
    requires TotalPreorder(leq)
    ensures var best := Head(SortBy(Filter(s, p), leq));
      && (best.None? <==> forall x :: x in s ==> !p(x))
      && (best.Some? ==> best.value in s && p(best.value) && forall x :: x in s && p(x) ==> leq(best.value, x))
  {
    var sorted := SortBy(Filter(s, p), leq);
    FilterMembers(s, p);
    SortByMembers(Filter(s, p), leq);
    SortBySorts(Filter(s, p), leq);
    assert forall x :: x in s && p(x) <==> x in sorted;
    if sorted != [] {
      assert sorted[0] in sorted;
      forall x | x in sorted ensures leq(sorted[0], x) {
        var i :| 0 <= i < |sorted| && sorted[i] == x;
        if i == 0 { assert leq(x, x); }
      }
    }
  }

  lemma {:induction false} FirstAgrees<T>(s: seq<T>, p: T -> bool, q: T -> bool)
    requires forall x :: x in s ==> (p(x) <==> q(x))
    ensures First(s, p) == First(s, q)
  {
    if s != [] { FirstAgrees(s[1..], p, q); }
  }

  lemma {:induction false} FirstMember<T>(s: seq<T>, p: T -> bool)
    ensures First(s, p).Some? ==> First(s, p).value in s && p(First(s, p).value)
    ensures First(s, p).None? <==> forall i :: 0 <= i < |s| ==> !p(s[i])
  {
    if s != [] { FirstMember(s[1..], p); }
  }

  /** Sorting by a finer order is sorting by the coarser one when the coarser one tells the rows apart. */
  lemma SortByFinerOrder<T(!new)>(s: seq<T>, coarse: (T, T) -> bool, fine: (T, T) -> bool)
    requires TotalPreorder(coarse) && TotalPreorder(fine) && Distinguishes(s, coarse)
    requires forall x, y :: fine(x, y) ==> coarse(x, y)
    ensures SortBy(s, fine) == SortBy(s, coarse)
  {
    SortBySorts(s, fine);
    SortBySorts(s, coarse);
    SortByPermutes(s, fine);
    SortByPermutes(s, coarse);
    SortByMembers(s, fine);
    SortedArrangementUnique(SortBy(s, fine), SortBy(s, coarse), coarse);
  }
}
