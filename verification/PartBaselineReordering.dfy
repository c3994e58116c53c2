/**
 A second rebuild from the same production orders in another order
 (app/baseline/part_cycle_baseline_service.py lines 58-119 and 189-232).

 The query that loads the orders has no ORDER BY, so two rebuilds may read them differently arranged.
*/
module PartBaselineReordering {
  import opened Prelude
  import opened Sorting
  import opened Statistics
  import opened PartBaselineTable
  import opened PartCycleLookup
  import opened PartBaselinePromotion
  import opened PartBaselineRebuild

  // ---- the entries of a group ----

  function EntryOf(o: ProductionOrder, key: GroupKey): seq<Entry> {
    match Judge(o)
    case Skipped(_) => []
    case Eligible(k, entry) => if k == key then [entry] else []
  }

  lemma EntriesOfOne(o: ProductionOrder, key: GroupKey)
    ensures Entries([o], key) == EntryOf(o, key)
  {
    assert Entries([o][..0], key) == [];
  }

  lemma {:induction false} EntriesConcat(a: seq<ProductionOrder>, b: seq<ProductionOrder>, key: GroupKey)
    ensures Entries(a + b, key) == Entries(a, key) + Entries(b, key)
    decreases |b|
  {
    if b == [] {
      assert a + b == a;
    } else {
      var n := |b| - 1;
      assert (a + b)[..|a + b| - 1] == a + b[..n] && (a + b)[|a + b| - 1] == b[n];
      EntriesConcat(a, b[..n], key);
      ConcatAssociates(Entries(a, key), Entries(b[..n], key), EntryOf(b[n], key));
    }
  }

  lemma {:induction false} EntriesForgetOrder(a: seq<ProductionOrder>, b: seq<ProductionOrder>, key: GroupKey)
    requires multiset(a) == multiset(b)
    ensures multiset(Entries(a, key)) == multiset(Entries(b, key))
  {
    SameMembers(a, b);
    if a != [] {
      var before, after := PullFront(a, b);
      EntriesForgetOrder(a[1..], before + after, key);
      assert a == [a[0]] + a[1..];
      EntriesConcat([a[0]], a[1..], key);
      EntriesConcat(before, [a[0]] + after, key);
      EntriesConcat([a[0]], after, key);
      EntriesConcat(before, after, key);
    }
  }

  lemma {:induction false} EntryHasItsOrder(orders: seq<ProductionOrder>, key: GroupKey, e: Entry)
    returns (o: ProductionOrder)
    requires e in Entries(orders, key)
    ensures o in orders && Judge(o) == Eligible(key, e)
  {
    var n := |orders| - 1;
    if e in Entries(orders[..n], key) {
      o := EntryHasItsOrder(orders[..n], key, e);
    } else {
      o := orders[n];
    }
  }

  // ---- what of a candidate row depends on the order of its entries ----

  lemma ExtremesForgetOrder(a: seq<int>, b: seq<int>)
    requires a != [] && b != [] && multiset(a) == multiset(b)
    ensures Minimum(a) == Minimum(b) && Maximum(a) == Maximum(b)
  {
    SameMembers(a, b);
    assert IsMinimum(Minimum(a), a) && IsMinimum(Minimum(b), b);
    assert IsMaximum(Maximum(a), a) && IsMaximum(Maximum(b), b);
  }

  lemma FiguresForgetOrder(a: seq<int>, b: seq<int>)
    requires a != [] && multiset(a) == multiset(b)
    ensures b != [] && Median(a) == Median(b) && VarianceRatio(a) == VarianceRatio(b)
  {
    MedianForgetsOrder(a, b);
    ExtremesForgetOrder(a, b);
  }

  ghost predicate IsLatest(entries: seq<Entry>, e: Entry) {
    e in entries && forall other :: other in entries ==> other.updatedAt <= e.updatedAt
  }

  lemma {:induction false} RepresentativeIsLatest(entries: seq<Entry>)
    requires entries != []
    ensures IsLatest(entries, Representative(entries))
  {
    if |entries| > 1 {
      var n := |entries| - 1;
      RepresentativeIsLatest(entries[..n]);
      assert entries == entries[..n] + [entries[n]];
    }
  }

  /** The first of the latest entries represents the group. */
  lemma {:induction false} FirstLatestRepresents(entries: seq<Entry>)
    requires entries != [] && IsLatest(entries, entries[0])
    ensures Representative(entries) == entries[0]
  {
    if |entries| > 1 {
      var n := |entries| - 1;
      assert entries[..n][0] == entries[0] && entries[n] in entries;
      assert forall e :: e in entries[..n] ==> e in entries;
      FirstLatestRepresents(entries[..n]);
    }
  }

  ghost predicate OneLatestDescription(key: GroupKey, entries: seq<Entry>) {
    forall x, y :: IsLatest(entries, x) && IsLatest(entries, y) ==> Described(key, x) == Described(key, y)
  }

  lemma SameFigures(a: seq<Entry>, b: seq<Entry>)
    requires a != [] && multiset(a) == multiset(b)
    ensures b != [] && |a| == |b| && IsPromoted(a) == IsPromoted(b)
    ensures VarianceRatio(Cycles(a)) == VarianceRatio(Cycles(b)) && Median(Cycles(a)) == Median(Cycles(b))
    ensures Median(UnitCycles(a)) == Median(UnitCycles(b)) && Median(BatchQtys(a)) == Median(BatchQtys(b))
  {
    SameMembers(a, b);
    MapForgetsStoredOrder(a, b, (e: Entry) => e.cycleDays);
    MapForgetsStoredOrder(a, b, (e: Entry) => e.unitCycleDays);
    MapForgetsStoredOrder(a, b, (e: Entry) => e.batchQty);
    FiguresForgetOrder(Cycles(a), Cycles(b));
    FiguresForgetOrder(UnitCycles(a), UnitCycles(b));
    FiguresForgetOrder(BatchQtys(a), BatchQtys(b));
  }

  lemma SameLatestInstant(a: seq<Entry>, b: seq<Entry>)
    requires a != [] && b != [] && multiset(a) == multiset(b)
    ensures Representative(a).updatedAt == Representative(b).updatedAt
  {
    SameMembers(a, b);
    RepresentativeIsLatest(a);
    RepresentativeIsLatest(b);
  }

  /** Only the description can differ. */
  lemma RowsDifferInDescription(key: GroupKey, a: seq<Entry>, b: seq<Entry>)
    requires a != [] && multiset(a) == multiset(b)
    ensures b != []
    ensures PromotedRow(key, b) == PromotedRow(key, a).(materialDesc := Described(key, Representative(b)))
  {
    SameFigures(a, b);
    SameLatestInstant(a, b);
    RowWithDescription(key, |a|, VarianceRatio(Cycles(a)),
                       Median(BatchQtys(a)), Median(Cycles(a)), Median(UnitCycles(a)),
                       Described(key, Representative(a)), Described(key, Representative(b)),
                       Representative(a).updatedAt);
  }

  lemma RowWithDescription(key: GroupKey, n: nat, ratio: int, qty: int, cycle: int, unit: int, desc: string,
                           other: string, at: int)
    ensures CandidateRow(key, n, ratio, qty, cycle, unit, other, at)
      == CandidateRow(key, n, ratio, qty, cycle, unit, desc, at).(materialDesc := other)
  {
  }

  lemma SettledRowForgetsOrder(key: GroupKey, a: seq<Entry>, b: seq<Entry>)
    requires a != [] && multiset(a) == multiset(b) && OneLatestDescription(key, a)
    ensures b != [] && PromotedRow(key, a) == PromotedRow(key, b)
  {
    RowsDifferInDescription(key, a, b);
    RowsDifferInDescription(key, a, a);
    RepresentativeIsLatest(a);
    RepresentativeIsLatest(b);
    SameMembers(a, b);
    assert IsLatest(a, Representative(b));
  }

  // ---- candidates ----

  lemma RowIsPromoted(orders: seq<ProductionOrder>, key: GroupKey, r: Baseline)
    ensures IsRowOf(Filter(orders, IsLoaded), key, r) ==> r in Promoted(orders)
  {
    if IsRowOf(Filter(orders, IsLoaded), key, r) { RowOfKey(orders, key, r); }
  }

  lemma RowScope(loaded: seq<ProductionOrder>, key: GroupKey, r: Baseline)
    ensures IsRowOf(loaded, key, r) ==> IsCandidate(r) && ScopeOf(r) == KeyTriple(key)
  {
    if IsRowOf(loaded, key, r) {
      PromotedRowIsCandidate(loaded, key);
      CandidateScope(r, 0, 0);
    }
  }

  /** A group of these orders with candidate r whose latest entries have different descriptions. */
  ghost predicate IsUnsettled(orders: seq<ProductionOrder>, key: GroupKey, r: Baseline) {
    IsRowOf(Filter(orders, IsLoaded), key, r) && !OneLatestDescription(key, Entries(Filter(orders, IsLoaded), key))
  }

  /** In every promoted group that no manual row owns, the latest entries have one description. */
  ghost predicate DescriptionsSettled(table: seq<Baseline>, orders: seq<ProductionOrder>) {
    forall key, r :: NoManualOwner(table, KeyTriple(key)) ==> !IsUnsettled(orders, key, r)
  }

  lemma RowStays(table: seq<Baseline>, a: seq<ProductionOrder>, b: seq<ProductionOrder>, key: GroupKey, r: Baseline)
    requires multiset(a) == multiset(b) && DescriptionsSettled(table, a) && NoManualOwner(table, KeyTriple(key))
    ensures IsRowOf(Filter(a, IsLoaded), key, r) <==> IsRowOf(Filter(b, IsLoaded), key, r)
  {
    var x, y := Filter(a, IsLoaded), Filter(b, IsLoaded);
    FilterForgetsStoredOrder(a, b, IsLoaded);
    EntriesForgetOrder(x, y, key);
    SameMembers(Entries(x, key), Entries(y, key));
    if Entries(x, key) != [] {
      SameFigures(Entries(x, key), Entries(y, key));
      if IsPromoted(Entries(x, key)) {
        assert !IsUnsettled(a, key, PromotedRow(key, Entries(x, key)));
        SettledRowForgetsOrder(key, Entries(x, key), Entries(y, key));
      }
    }
  }

  lemma SettledCandidatesForgetOrder(table: seq<Baseline>, a: seq<ProductionOrder>, b: seq<ProductionOrder>)
    requires multiset(a) == multiset(b) && DescriptionsSettled(table, a)
    ensures SameUnowned(table, Promoted(a), Promoted(b))
  {
    forall r | NoManualOwner(table, ScopeOf(r)) ensures r in Promoted(a) <==> r in Promoted(b) {
      if r in Promoted(a) {
        var key := KeyOfRow(a, r);
        RowScope(Filter(a, IsLoaded), key, r);
        RowStays(table, a, b, key, r);
        RowIsPromoted(b, key, r);
      }
      if r in Promoted(b) {
        var key := KeyOfRow(b, r);
        RowScope(Filter(b, IsLoaded), key, r);
        RowStays(table, a, b, key, r);
        RowIsPromoted(a, key, r);
      }
    }
  }

  // ---- the second run ----

  /**
   When the descriptions are settled, a second rebuild from the same orders, read in any order and at any later
   time, writes nothing, finds nothing stale, reports no changed scope and leaves the table as it is.
  */
  lemma RebuildIsIdempotentInAnyOrder(s: State, orders: seq<ProductionOrder>, again: seq<ProductionOrder>, now: int,
                                      later: int)
    requires ValidState(s) && multiset(orders) == multiset(again) && DescriptionsSettled(s.table, orders)
    ensures var f := Rebuilt(s, Promoted(orders), now);
      && ToUpsert(f.table, Promoted(again)) == []
      && StaleIds(f.table, KeptScopes(f.table, Promoted(again))) == {}
      && ChangedScopes(f.table, Promoted(again)) == {}
      && Rebuilt(f, Promoted(again), later) == f
  {
    PromotedRowsAreWellFormed(orders);
    PromotedRowsAreWellFormed(again);
    SettledCandidatesForgetOrder(s.table, orders, again);
    RebuildIsIdempotent(s, Promoted(orders), Promoted(again), now, later);
  }

  /** Some latest entry of an unsettled group is described otherwise than its representative. */
  lemma UnsettledEntry(key: GroupKey, entries: seq<Entry>) returns (x: Entry)
    requires entries != [] && !OneLatestDescription(key, entries)
    ensures IsLatest(entries, x) && Described(key, x) != Described(key, Representative(entries))
  {
    var y, z :| IsLatest(entries, y) && IsLatest(entries, z) && Described(key, y) != Described(key, z);
    x := if Described(key, y) != Described(key, Representative(entries)) then y else z;
  }

  /** The orders, rearranged so that this one is read first. */
  lemma ReadFirst(orders: seq<ProductionOrder>, o: ProductionOrder) returns (rest: seq<ProductionOrder>)
    requires o in orders
    ensures multiset([o] + rest) == multiset(orders)
  {
    var i :| 0 <= i < |orders| && orders[i] == o;
    rest := orders[..i] + orders[i + 1..];
    assert orders == orders[..i] + ([o] + orders[i + 1..]);
  }

  /** With the order of x read first, x represents the group. */
  lemma FirstOrderRepresents(orders: seq<ProductionOrder>, key: GroupKey, o: ProductionOrder, x: Entry,
                             rest: seq<ProductionOrder>)
    requires IsLoaded(o) && Judge(o) == Eligible(key, x) && multiset([o] + rest) == multiset(orders)
    requires IsLatest(Entries(Filter(orders, IsLoaded), key), x)
    ensures var entries := Entries(Filter([o] + rest, IsLoaded), key);
      && multiset(entries) == multiset(Entries(Filter(orders, IsLoaded), key))
      && entries != [] && Representative(entries) == x
  {
    var loaded := Filter([o] + rest, IsLoaded);
    var entries := Entries(loaded, key);
    assert ([o] + rest)[1..] == rest;
    assert loaded == [o] + Filter(rest, IsLoaded);
    EntriesConcat([o], Filter(rest, IsLoaded), key);
    EntriesOfOne(o, key);
    assert entries[0] == x;
    FilterForgetsStoredOrder([o] + rest, orders, IsLoaded);
    EntriesForgetOrder(loaded, Filter(orders, IsLoaded), key);
    SameMembers(entries, Entries(Filter(orders, IsLoaded), key));
    FirstLatestRepresents(entries);
  }

  /** An unsettled group gets another description when its orders are read in another order. */
  lemma UnsettledGroupChanges(orders: seq<ProductionOrder>, key: GroupKey, r: Baseline)
    returns (again: seq<ProductionOrder>, q: Baseline)
    ensures IsUnsettled(orders, key, r) ==>
      && multiset(again) == multiset(orders) && q in Promoted(again) && IsCandidate(q)
      && ScopeOf(q) == ScopeOf(r) == KeyTriple(key) && q.materialDesc != r.materialDesc
  {
    if !IsUnsettled(orders, key, r) { return [], r; }
    var loaded := Filter(orders, IsLoaded);
    var entries := Entries(loaded, key);
    var x := UnsettledEntry(key, entries);
    var o := EntryHasItsOrder(loaded, key, x);
    FilterMembers(orders, IsLoaded);
    var rest := ReadFirst(orders, o);
    again := [o] + rest;
    FirstOrderRepresents(orders, key, o, x, rest);
    var others := Entries(Filter(again, IsLoaded), key);
    q := PromotedRow(key, others);
    SameFigures(entries, others);
    RowsDifferInDescription(key, entries, others);
    RowsDifferInDescription(key, entries, entries);
    assert IsRowOf(Filter(again, IsLoaded), key, q);
    RowIsPromoted(again, key, q);
    RowScope(Filter(again, IsLoaded), key, q);
    RowScope(loaded, key, r);
  }

  /** A table that a rebuild leaves as it is reflects its candidates, so it cannot reflect two descriptions. */
  lemma ReflectsOneDescription(f: State, r: Baseline, q: Baseline)
    requires ValidState(f) && IsCandidate(r) && ScopeOf(q) == ScopeOf(r) && Reflects(f.table, r) && Reflects(f.table, q)
    ensures q.materialDesc == r.materialDesc
  {
    var i :| 0 <= i < |f.table| && ScopeOf(f.table[i]) == ScopeOf(r) && !HistoryRowChanged(f.table[i], r)
      && IsActiveHistory(f.table[i]);
    var j :| 0 <= j < |f.table| && ScopeOf(f.table[j]) == ScopeOf(q) && !HistoryRowChanged(f.table[j], q)
      && IsActiveHistory(f.table[j]);
    FindByScopeMeaning(f, ScopeOf(r));
    assert f.table[i] == f.table[j];
  }

  lemma UnsettledRunIsNotSilent(s: State, orders: seq<ProductionOrder>, now: int, later: int, key: GroupKey,
                                r: Baseline)
    returns (again: seq<ProductionOrder>)
    requires ValidState(s) && NoManualOwner(s.table, KeyTriple(key))
    ensures IsUnsettled(orders, key, r) ==>
      multiset(again) == multiset(orders)
        && (var f := Rebuilt(s, Promoted(orders), now); Rebuilt(f, Promoted(again), later) != f)
  {
    if !IsUnsettled(orders, key, r) { return []; }
    var q;
    again, q := UnsettledGroupChanges(orders, key, r);
    var f := Rebuilt(s, Promoted(orders), now);
    PromotedRowsAreWellFormed(orders);
    PromotedRowsAreWellFormed(again);
    RowIsPromoted(orders, key, r);
    RowScope(Filter(orders, IsLoaded), key, r);
    RebuildChangesOnlyChangedScopes(s, Promoted(orders), now);
    CandidatesAreReflected(s, Promoted(orders), now, r);
    SecondRunSkips(s, Promoted(orders), now, r);
    ProtectedMeansOwned(f, r);
    CandidatesAreReflected(f, Promoted(again), later, q);
    if Rebuilt(f, Promoted(again), later) == f { ReflectsOneDescription(f, r, q); }
  }

  /**
   Exactly when the descriptions are settled does a second rebuild leave the table alone however the orders are
   arranged: two latest orders of an unowned group with different descriptions are enough for a changed row.
  */
  lemma SecondRunIsSilentIff(s: State, orders: seq<ProductionOrder>, now: int, later: int)
    requires ValidState(s)
    ensures (forall again: seq<ProductionOrder> :: multiset(again) == multiset(orders) ==>
              var f := Rebuilt(s, Promoted(orders), now); Rebuilt(f, Promoted(again), later) == f)
      <==> DescriptionsSettled(s.table, orders)
  {
    if DescriptionsSettled(s.table, orders) {
      forall again: seq<ProductionOrder> | multiset(again) == multiset(orders)
        ensures var f := Rebuilt(s, Promoted(orders), now); Rebuilt(f, Promoted(again), later) == f
      {
        RebuildIsIdempotentInAnyOrder(s, orders, again, now, later);
      }
    } else {
      var key, r :| IsUnsettled(orders, key, r) && NoManualOwner(s.table, KeyTriple(key));
      var again := UnsettledRunIsNotSilent(s, orders, now, later, key, r);
    }
  }

  // ---- two orders that are not settled ----

  /** A part made in one day, last modified at instant 0; its description starts with the part type. */
  function Twin(tag: char): ProductionOrder {
    ProductionOrder(true, Some("M"), Some("P"), Some(['\U{4E01}', tag]),
                    Some(0), Some(MICROS_PER_DAY), Some(SCALE_4), Some(0))
  }

  const TWIN_KEY: GroupKey := (['\U{4E01}'], "M", "P")

  function TwinEntry(tag: char): Entry {
    Entry(SCALE_4, SCALE_6, ['\U{4E01}', tag], SCALE_4, 0)
  }

  lemma TextOfPlain(text: string)
    requires text != [] && !IsBlank(text[0]) && !IsBlank(text[|text| - 1])
    ensures Text(Some(text)) == text
  {
  }

  lemma TwinIsEligible(tag: char)
    requires tag == 'a' || tag == 'b'
    ensures IsLoaded(Twin(tag)) && Judge(Twin(tag)) == Eligible(TWIN_KEY, TwinEntry(tag))
  {
    var desc := ['\U{4E01}', tag];
    TextOfPlain("M");
    TextOfPlain("P");
    TextOfPlain(desc);
    assert desc[1..] == [tag] && ExtractPartType([tag]) == [];
    assert ExtractPartType(desc) == ['\U{4E01}'];
  }

  lemma TwinsArePromoted()
    ensures IsPromoted([TwinEntry('a'), TwinEntry('b')])
  {
    var cycles := Cycles([TwinEntry('a'), TwinEntry('b')]);
    assert cycles == [SCALE_4, SCALE_4];
    assert IsMinimum(Minimum(cycles), cycles) && IsMaximum(Maximum(cycles), cycles);
  }

  lemma EntriesOfEligible(o: ProductionOrder, key: GroupKey, x: Entry)
    requires Judge(o) == Eligible(key, x)
    ensures Entries([o], key) == [x]
  {
    EntriesOfOne(o, key);
  }

  lemma TwoDescriptions(key: GroupKey, x: Entry, y: Entry)
    requires x.updatedAt == y.updatedAt && Described(key, x) != Described(key, y)
    ensures !OneLatestDescription(key, [x, y])
  {
    assert IsLatest([x, y], [x, y][0]) && IsLatest([x, y], [x, y][1]);
  }

  lemma TwinsAreUnsettled()
    ensures IsUnsettled([Twin('a'), Twin('b')], TWIN_KEY, PromotedRow(TWIN_KEY, [TwinEntry('a'), TwinEntry('b')]))
  {
    TwinIsEligible('a');
    TwinIsEligible('b');
    FilterAll([Twin('a'), Twin('b')], IsLoaded);
    EntriesOfEligible(Twin('a'), TWIN_KEY, TwinEntry('a'));
    EntriesOfEligible(Twin('b'), TWIN_KEY, TwinEntry('b'));
    EntriesConcat([Twin('a')], [Twin('b')], TWIN_KEY);
    assert [Twin('a')] + [Twin('b')] == [Twin('a'), Twin('b')];
    assert [TwinEntry('a')] + [TwinEntry('b')] == [TwinEntry('a'), TwinEntry('b')];
    TwinsArePromoted();
    assert Described(TWIN_KEY, TwinEntry('a'))[1] != Described(TWIN_KEY, TwinEntry('b'))[1];
    TwoDescriptions(TWIN_KEY, TwinEntry('a'), TwinEntry('b'));
  }

  /** Two orders alike but for their descriptions, read in the other order, make the second run write a row. */
  lemma SecondRunMayWrite(now: int, later: int) returns (again: seq<ProductionOrder>)
    ensures var orders := [Twin('a'), Twin('b')];
      var f := Rebuilt(State([], 1), Promoted(orders), now);
      multiset(again) == multiset(orders) && Rebuilt(f, Promoted(again), later) != f
  {
    TwinsAreUnsettled();
    again := UnsettledRunIsNotSilent(State([], 1), [Twin('a'), Twin('b')], now, later, TWIN_KEY,
                                     PromotedRow(TWIN_KEY, [TwinEntry('a'), TwinEntry('b')]));
  }
}
