/**
 The table machine_cycle_baseline and its upkeep: deactivating duplicates, saving and rebuilding
 (app/repository/machine_cycle_baseline_repo.py lines 50-109, app/baseline/machine_cycle_baseline_service.py).
*/
module MachineBaseline {
  import opened Prelude
  import opened Sorting
  import opened Statistics

  /** Quantities and cycles are in ten-thousandths. */
  datatype Row = Row(
    id: nat,
    series: Option<string>,
    model: string,
    qty: int,
    median: int,
    samples: int,
    isActive: bool,
    remark: Option<string>,
    updatedAt: int)

  datatype HistoryRow = HistoryRow(series: Option<string>, model: string, qty: int, cycleDays: Option<int>)

  const DUPLICATE_REMARK := "duplicate of a better baseline"

  const SECONDARY_REMARK := "superseded by the main baseline"

  ghost predicate UniqueIds(table: seq<Row>) {
    forall i, j :: 0 <= i < j < |table| ==> table[i].id != table[j].id
  }

  function Pair(row: Row): (string, int) { (row.model, row.qty) }

  function OfPair(pair: (string, int)): Row -> bool {
    (row: Row) => Pair(row) == pair
  }

  predicate IsActive(row: Row) { row.isActive }

  /** _ordered_stmt: active first, then most samples, latest update, highest id. */
  predicate Outranks(x: Row, y: Row) {
    if x.isActive != y.isActive then x.isActive
    else if x.samples != y.samples then x.samples > y.samples
    else if x.updatedAt != y.updatedAt then x.updatedAt > y.updatedAt
    else x.id >= y.id
  }

  /** A row is stamped only if the flush finds a changed column. */
  function Written(before: Row, after: Row, now: int): Row {
    if after == before then before else after.(updatedAt := now)
  }

  lemma RankingDistinguishes(table: seq<Row>)
    requires UniqueIds(table)
    ensures TotalPreorder(Outranks) && Distinguishes(table, Outranks) && NoDuplicates(table)
  {
  }

  // ---- deactivate_duplicate_active_rows ----

  function ActiveRows(table: seq<Row>): seq<Row> {
    SortBy(Filter(table, IsActive), Outranks)
  }

  /** The active row of a pair that ranks first. */
  function BestOf(table: seq<Row>, pair: (string, int)): Option<Row> {
    First(ActiveRows(table), OfPair(pair))
  }

  predicate IsDuplicate(table: seq<Row>, row: Row) {
    row.isActive && BestOf(table, Pair(row)) != Some(row)
  }

  function Deactivated(row: Row, remark: string, now: int): Row {
    Written(row, row.(isActive := false, remark := Some(remark)), now)
  }

  function WithoutDuplicates(table: seq<Row>, now: int): seq<Row> {
    seq(|table|, i requires 0 <= i < |table| =>
      if IsDuplicate(table, table[i]) then Deactivated(table[i], DUPLICATE_REMARK, now) else table[i])
  }

  ghost predicate OneActivePerPair(table: seq<Row>) {
    forall i, j :: 0 <= i < j < |table| && table[i].isActive && table[j].isActive ==> Pair(table[i]) != Pair(table[j])
  }

  ghost predicate HasActive(table: seq<Row>, pair: (string, int)) {
    exists i :: 0 <= i < |table| && table[i].isActive && Pair(table[i]) == pair
  }

  lemma ActiveRowsMembers(table: seq<Row>)
    requires UniqueIds(table)
    ensures forall r :: r in ActiveRows(table) <==> r in table && r.isActive
    ensures SortedBy(ActiveRows(table), Outranks)
  {
    RankingDistinguishes(table);
    FilterMembers(table, IsActive);
    SortByMembers(Filter(table, IsActive), Outranks);
    SortBySorts(Filter(table, IsActive), Outranks);
  }

  lemma {:induction false} FirstRanksFirst(rows: seq<Row>, p: Row -> bool)
    requires SortedBy(rows, Outranks) && First(rows, p).Some?
    ensures forall r :: r in rows && p(r) ==> Outranks(First(rows, p).value, r)
  {
    if !p(rows[0]) {
      FirstRanksFirst(rows[1..], p);
      assert rows == [rows[0]] + rows[1..];
    }
  }

  lemma BestMeaning(table: seq<Row>, pair: (string, int))
    requires UniqueIds(table)
    ensures BestOf(table, pair).Some? <==> HasActive(table, pair)
    ensures BestOf(table, pair).Some? ==>
      var best := BestOf(table, pair).value;
      && best in table && best.isActive && Pair(best) == pair
      && forall r :: r in table && r.isActive && Pair(r) == pair ==> Outranks(best, r)
  {
    var active := ActiveRows(table);
    ActiveRowsMembers(table);
    FirstMember(active, OfPair(pair));
    if HasActive(table, pair) {
      var i :| 0 <= i < |table| && table[i].isActive && Pair(table[i]) == pair;
      assert table[i] in active && OfPair(pair)(table[i]);
    }
    if First(active, OfPair(pair)).Some? {
      FirstRanksFirst(active, OfPair(pair));
      assert forall r :: r in table && r.isActive && Pair(r) == pair ==> r in active && OfPair(pair)(r);
    }
  }

  /**
   From any table, deactivation leaves at most one active row per pair; a pair keeps an active row exactly
   when it had one, and the survivor is the untouched row that ranks first.
  */
  lemma DeactivationKeepsTheBest(table: seq<Row>, now: int)
    requires UniqueIds(table)
    ensures var t := WithoutDuplicates(table, now);
      && UniqueIds(t) && OneActivePerPair(t)
      && (forall pair :: HasActive(t, pair) <==> HasActive(table, pair))
      && forall i :: 0 <= i < |t| && t[i].isActive ==> t[i] == table[i] && BestOf(table, Pair(t[i])) == Some(t[i])
  {
    var t := WithoutDuplicates(table, now);
    forall pair | HasActive(table, pair) ensures HasActive(t, pair) {
      BestMeaning(table, pair);
      var i :| 0 <= i < |table| && table[i] == BestOf(table, pair).value;
      assert t[i] == table[i];
    }
    forall i, j | 0 <= i < j < |t| && t[i].isActive && t[j].isActive ensures Pair(t[i]) != Pair(t[j]) {
      assert BestOf(table, Pair(t[i])) == Some(t[i]) && BestOf(table, Pair(t[j])) == Some(t[j]);
    }
  }

  /** Of two active rows the better one has more samples, then the later update, then the higher id. */
  ghost predicate IsBetter(x: Row, y: Row) {
    if x.samples != y.samples then x.samples > y.samples
    else if x.updatedAt != y.updatedAt then x.updatedAt > y.updatedAt
    else x.id > y.id
  }

  /** The row that stays active is better than every other active row of its model and quantity. */
  lemma SurvivorIsBetter(table: seq<Row>, now: int, i: nat, j: nat)
    requires UniqueIds(table) && i < |table| && j < |table| && i != j
    requires table[i].isActive && table[j].isActive
    requires table[i].model == table[j].model && table[i].qty == table[j].qty
    requires WithoutDuplicates(table, now)[i].isActive
    ensures IsBetter(table[i], table[j])
  {
    BestMeaning(table, Pair(table[i]));
    DeactivationKeepsTheBest(table, now);
    assert Outranks(table[i], table[j]);
    assert table[i].id != table[j].id;
  }

  /** A row that loses its place is switched off, stamped and remarked, and keeps everything else. */
  lemma DeactivationOnlySwitchesOff(table: seq<Row>, now: int, i: nat)
    requires i < |table|
    ensures var row := WithoutDuplicates(table, now)[i];
      row == table[i] || row == table[i].(isActive := false, remark := row.remark, updatedAt := now)
  {
  }

  // ---- upsert_baseline ----

  /** The columns to write. A rebuild gives no remark, so a row that is written over keeps its own. */
  datatype Data = Data(median: int, samples: int, isActive: bool, remark: Option<Option<string>>)

  function PairRows(table: seq<Row>, pair: (string, int)): seq<Row> {
    SortBy(Filter(table, OfPair(pair)), Outranks)
  }

  function OfSeries(series: string): Row -> bool {
    (row: Row) => row.series.GetOr("") == series
  }

  /** The row to write: the first of the same series, otherwise the first of the pair. */
  function Target(table: seq<Row>, series: string, pair: (string, int)): Option<Row> {
    var rows := PairRows(table, pair);
    if First(rows, OfSeries(series)).Some? then First(rows, OfSeries(series)) else Head(rows)
  }

  /** A row that is written over becomes active whatever the data says. */
  function Overwritten(row: Row, series: string, data: Data): Row {
    row.(series := Some(series), median := data.median, samples := data.samples, isActive := true,
         remark := data.remark.GetOr(row.remark))
  }

  /** A new row is as active as the data says. */
  function Created(id: nat, series: string, pair: (string, int), data: Data, now: int): Row {
    Row(id, Some(series), pair.0, pair.1, data.median, data.samples, data.isActive, data.remark.GetOr(None), now)
  }

  function Upserted(table: seq<Row>, newId: nat, now: int, series: string, pair: (string, int), data: Data): seq<Row> {
    match Target(table, series, pair)
    case None => table + [Created(newId, series, pair, data, now)]
    case Some(target) =>
      seq(|table|, i requires 0 <= i < |table| =>
        if table[i].id == target.id then Written(table[i], Overwritten(table[i], series, data), now)
        else if Pair(table[i]) == pair && table[i].isActive then Deactivated(table[i], SECONDARY_REMARK, now)
        else table[i])
  }

  ghost predicate HasRow(table: seq<Row>, pair: (string, int)) {
    exists r :: r in table && Pair(r) == pair
  }

  lemma TargetMeaning(table: seq<Row>, series: string, pair: (string, int))
    ensures Target(table, series, pair).Some? <==> HasRow(table, pair)
    ensures Target(table, series, pair).Some? ==>
      Target(table, series, pair).value in table && Pair(Target(table, series, pair).value) == pair
  {
    var rows := PairRows(table, pair);
    FilterMembers(table, OfPair(pair));
    SortByMembers(Filter(table, OfPair(pair)), Outranks);
    FirstMember(rows, OfSeries(series));
    forall r | r in table && Pair(r) == pair ensures rows != [] {
      assert OfPair(pair)(r) && r in rows;
    }
    if rows != [] { assert rows[0] in rows; }
  }

  /** Active rows come first, and among alike rows the better one. */
  ghost predicate ComesFirst(x: Row, y: Row) {
    if x.isActive != y.isActive then x.isActive else x == y || IsBetter(x, y)
  }

  lemma RankedComesFirst(table: seq<Row>, x: Row, y: Row)
    requires UniqueIds(table) && x in table && y in table && Outranks(x, y)
    ensures ComesFirst(x, y)
  {
    var i :| 0 <= i < |table| && table[i] == x;
    var j :| 0 <= j < |table| && table[j] == y;
    assert i != j ==> x.id != y.id;
  }

  lemma PairRowsRanked(table: seq<Row>, pair: (string, int))
    requires UniqueIds(table)
    ensures SortedBy(PairRows(table, pair), Outranks)
    ensures forall r :: r in PairRows(table, pair) <==> r in table && Pair(r) == pair
    ensures PairRows(table, pair) != [] ==>
      forall r :: r in table && Pair(r) == pair ==> Outranks(PairRows(table, pair)[0], r)
  {
    RankingDistinguishes(table);
    FilterMembers(table, OfPair(pair));
    SortByMembers(Filter(table, OfPair(pair)), Outranks);
    SortBySorts(Filter(table, OfPair(pair)), Outranks);
    HeadRanksFirst(table, OfPair(pair), Outranks);
  }

  lemma TargetRanksFirst(table: seq<Row>, series: string, pair: (string, int))
    requires UniqueIds(table)
    ensures var target, same := Target(table, series, pair), exists r ::
        r in table && Pair(r) == pair && r.series.GetOr("") == series;
      target.Some? ==>
        && (same ==> target.value.series.GetOr("") == series)
        && forall r :: r in table && Pair(r) == pair && (same ==> r.series.GetOr("") == series) ==>
          Outranks(target.value, r)
  {
    var rows := PairRows(table, pair);
    PairRowsRanked(table, pair);
    FirstMember(rows, OfSeries(series));
    if First(rows, OfSeries(series)).Some? { FirstRanksFirst(rows, OfSeries(series)); }
  }

  /** The row to write over: the first of the same series if there is one, otherwise the first of all of the pair. */
  lemma TargetIsTheFirst(table: seq<Row>, series: string, pair: (string, int))
    requires UniqueIds(table)
    ensures var target := Target(table, series, pair);
      && (target.Some? <==> exists r :: r in table && r.model == pair.0 && r.qty == pair.1)
      && (target.Some? ==>
           var t, same := target.value, exists r :: r in table && Pair(r) == pair && r.series.GetOr("") == series;
           && t in table && t.model == pair.0 && t.qty == pair.1 && (same ==> t.series.GetOr("") == series)
           && forall r :: r in table && Pair(r) == pair && (same ==> r.series.GetOr("") == series) ==> ComesFirst(t, r))
  {
    TargetMeaning(table, series, pair);
    TargetRanksFirst(table, series, pair);
    forall x, y | x in table && y in table && Outranks(x, y) ensures ComesFirst(x, y) { RankedComesFirst(table, x, y); }
  }

  /** A row that an upsert changes is stamped and keeps its id, model and quantity. */
  lemma UpsertStampsWhatItChanges(table: seq<Row>, newId: nat, now: int, series: string, pair: (string, int),
                                  data: Data, i: nat)
    requires i < |Upserted(table, newId, now, series, pair, data)|
    ensures var t := Upserted(table, newId, now, series, pair, data);
      if i < |table| then
        t[i] == table[i]
        || (t[i].updatedAt == now && t[i].id == table[i].id && t[i].model == table[i].model && t[i].qty == table[i].qty)
      else
        t[i] == Row(newId, Some(series), pair.0, pair.1, data.median, data.samples, data.isActive,
                    data.remark.GetOr(None), now)
  {
  }

  /** The pair's active row says what was written last. */
  ghost predicate Carries(table: seq<Row>, pair: (string, int), series: string, data: Data) {
    exists i :: 0 <= i < |table| && table[i].isActive && Pair(table[i]) == pair
      && table[i].series == Some(series) && table[i].median == data.median && table[i].samples == data.samples
  }

  /** Rows keep their places, ids and pairs; rows of other pairs keep everything; a new row can only be of the pair. */
  ghost predicate OnlyPairTouched(table: seq<Row>, t: seq<Row>, newId: nat, pair: (string, int)) {
    && |table| <= |t| <= |table| + 1
    && (forall i :: 0 <= i < |table| ==> t[i].id == table[i].id && Pair(t[i]) == Pair(table[i]))
    && (forall i :: 0 <= i < |table| && Pair(table[i]) != pair ==> t[i] == table[i])
    && (forall i :: |table| <= i < |t| ==> t[i].id == newId && Pair(t[i]) == pair)
  }

  /** Row k is of the pair, says what was written, and no other row of the pair is active. */
  ghost predicate WrittenAt(t: seq<Row>, k: int, pair: (string, int), series: string, data: Data) {
    && 0 <= k < |t| && Pair(t[k]) == pair
    && t[k].series == Some(series) && t[k].median == data.median && t[k].samples == data.samples
    && (data.remark.Some? ==> t[k].remark == data.remark.value)
    && forall i :: 0 <= i < |t| && i != k ==> !(t[i].isActive && Pair(t[i]) == pair)
  }

  lemma CreatedIsWritten(table: seq<Row>, newId: nat, now: int, series: string, pair: (string, int), data: Data)
    requires !HasRow(table, pair)
    ensures var t := table + [Created(newId, series, pair, data, now)];
      OnlyPairTouched(table, t, newId, pair) && WrittenAt(t, |table|, pair, series, data)
  {
    assert forall i :: 0 <= i < |table| ==> table[i] in table;
  }

  lemma OverwrittenIsWritten(table: seq<Row>, newId: nat, now: int, series: string, pair: (string, int), data: Data,
                             k: nat)
    requires UniqueIds(table) && k < |table| && Target(table, series, pair) == Some(table[k]) && Pair(table[k]) == pair
    ensures var t := Upserted(table, newId, now, series, pair, data);
      OnlyPairTouched(table, t, newId, pair) && WrittenAt(t, k, pair, series, data) && t[k].isActive
  {
    var t := Upserted(table, newId, now, series, pair, data);
    forall i | 0 <= i < |table|
      ensures t[i].id == table[i].id && Pair(t[i]) == Pair(table[i])
      ensures i != k && Pair(table[i]) == pair ==> !t[i].isActive
      ensures Pair(table[i]) != pair ==> t[i] == table[i]
    {
      assert i != k ==> table[i].id != table[k].id;
    }
  }

  lemma UpsertWrites(table: seq<Row>, newId: nat, now: int, series: string, pair: (string, int), data: Data)
    returns (k: int)
    requires UniqueIds(table)
    ensures var t := Upserted(table, newId, now, series, pair, data);
      && OnlyPairTouched(table, t, newId, pair) && WrittenAt(t, k, pair, series, data)
      && (t[k].isActive <==> data.isActive || HasRow(table, pair))
  {
    TargetMeaning(table, series, pair);
    match Target(table, series, pair)
    case None =>
      k := |table|;
      CreatedIsWritten(table, newId, now, series, pair, data);
    case Some(target) =>
      k :| 0 <= k < |table| && table[k] == target;
      OverwrittenIsWritten(table, newId, now, series, pair, data, k);
  }

  lemma TouchingOnePairKeepsOneActive(table: seq<Row>, t: seq<Row>, newId: nat, k: int, pair: (string, int),
                                      series: string, data: Data)
    requires OneActivePerPair(table) && OnlyPairTouched(table, t, newId, pair) && WrittenAt(t, k, pair, series, data)
    ensures OneActivePerPair(t) && (HasActive(t, pair) <==> t[k].isActive)
  {
    forall i, j | 0 <= i < j < |t| && t[i].isActive && t[j].isActive ensures Pair(t[i]) != Pair(t[j]) {
      if Pair(t[i]) == pair {
        assert i == k;
      } else {
        assert t[i] == table[i];
      }
    }
  }

  lemma TouchingOnePairKeepsIds(table: seq<Row>, t: seq<Row>, newId: nat, pair: (string, int))
    requires UniqueIds(table) && (forall i :: 0 <= i < |table| ==> table[i].id < newId)
    requires OnlyPairTouched(table, t, newId, pair)
    ensures UniqueIds(t)
    ensures forall i :: 0 <= i < |t| ==> t[i].id < (if |t| > |table| then newId + 1 else newId)
  {
  }

  /**
   Every upsert keeps at most one active row per pair and leaves other pairs as they were. Its own pair has an
   active row afterwards exactly when the data is active or the pair had a row, and then that row says what was
   written.
  */
  lemma UpsertKeepsOneActive(table: seq<Row>, newId: nat, now: int, series: string, pair: (string, int), data: Data)
    requires UniqueIds(table) && OneActivePerPair(table) && forall i :: 0 <= i < |table| ==> table[i].id < newId
    ensures var t := Upserted(table, newId, now, series, pair, data);
      && UniqueIds(t) && OneActivePerPair(t) && OnlyPairTouched(table, t, newId, pair)
      && (HasActive(t, pair) <==> data.isActive || HasRow(table, pair))
      && (HasActive(t, pair) ==> Carries(t, pair, series, data))
  {
    var t := Upserted(table, newId, now, series, pair, data);
    var k := UpsertWrites(table, newId, now, series, pair, data);
    TouchingOnePairKeepsOneActive(table, t, newId, k, pair, series, data);
    TouchingOnePairKeepsIds(table, t, newId, pair);
  }

  /** With active data, as a rebuild writes, the pair has exactly one active row, and it says what was written. */
  lemma ActiveUpsertPublishes(table: seq<Row>, newId: nat, now: int, series: string, pair: (string, int), data: Data)
    requires UniqueIds(table) && OneActivePerPair(table) && forall i :: 0 <= i < |table| ==> table[i].id < newId
    requires data.isActive
    ensures var t := Upserted(table, newId, now, series, pair, data);
      OneActivePerPair(t) && HasActive(t, pair) && Carries(t, pair, series, data)
  {
    UpsertKeepsOneActive(table, newId, now, series, pair, data);
  }

  /** An inactive save of a pair without rows leaves the pair without an active row. */
  lemma InactiveSavePublishesNothing(newId: nat, now: int, series: string, pair: (string, int), data: Data)
    requires !data.isActive
    ensures !HasActive(Upserted([], newId, now, series, pair, data), pair)
  {
    UpsertKeepsOneActive([], newId, now, series, pair, data);
  }

  // ---- rebuild ----

  type GroupKey = (string, string, int)

  function KeyOf(h: HistoryRow): GroupKey { (h.series.GetOr(""), h.model, h.qty) }

  /** WHERE cycle_days IS NOT NULL. */
  predicate HasCycle(h: HistoryRow) { h.cycleDays.Some? }

  function GroupKeys(rows: seq<HistoryRow>): seq<GroupKey> {
    if rows == [] then []
    else
      var n := |rows| - 1;
      var before := GroupKeys(rows[..n]);
      if KeyOf(rows[n]) in before then before else before + [KeyOf(rows[n])]
  }

  function CycleValues(rows: seq<HistoryRow>, key: GroupKey): seq<int> {
    if rows == [] then []
    else
      var n := |rows| - 1;
      CycleValues(rows[..n], key) + if KeyOf(rows[n]) == key then [rows[n].cycleDays.GetOr(0)] else []
  }

  lemma {:induction false} KeysHaveValues(rows: seq<HistoryRow>, key: GroupKey)
    ensures key in GroupKeys(rows) <==> CycleValues(rows, key) != []
    ensures key in GroupKeys(rows) <==> exists h :: h in rows && KeyOf(h) == key
  {
    if rows != [] {
      var n := |rows| - 1;
      assert rows == rows[..n] + [rows[n]];
      KeysHaveValues(rows[..n], key);
    }
  }

  method GroupHistory(rows: seq<HistoryRow>) returns (groups: map<GroupKey, seq<int>>, keys: seq<GroupKey>)
    ensures keys == GroupKeys(rows)
    ensures forall k :: k in groups <==> k in keys
    ensures forall k :: k in groups ==> groups[k] == CycleValues(rows, k)
  {
    groups, keys := map[], [];
    for i := 0 to |rows|
      invariant keys == GroupKeys(rows[..i])
      invariant forall k :: k in groups <==> k in keys
      invariant forall k :: k in groups ==> groups[k] == CycleValues(rows[..i], k)
    {
      assert rows[..i + 1][..i] == rows[..i];
      var key := KeyOf(rows[i]);
      KeysHaveValues(rows[..i], key);
      if key !in groups {
        groups := groups[key := []];
        keys := keys + [key];
      }
      groups := groups[key := groups[key] + [rows[i].cycleDays.GetOr(0)]];
    }
    assert rows[..|rows|] == rows;
  }

  /** The median to four places and the sample count of a group. */
  function Summary(values: seq<int>): Data {
    if values == [] then Data(0, 0, true, None) else Data(HalfEven(TwiceMedian(values), 2), |values|, true, None)
  }

  /** The cycles of a group are those of the history rows of its series, model and quantity. */
  lemma {:induction false} CycleValuesAreTheHistory(rows: seq<HistoryRow>, key: GroupKey, v: int)
    requires forall h :: h in rows ==> h.cycleDays.Some?
    ensures multiset(CycleValues(rows, key))[v]
      == |Filter(rows, (h: HistoryRow) => h.series.GetOr("") == key.0 && h.model == key.1 && h.qty == key.2
                                          && h.cycleDays == Some(v))|
  {
    var p := (h: HistoryRow) => h.series.GetOr("") == key.0 && h.model == key.1 && h.qty == key.2
                                && h.cycleDays == Some(v);
    if rows != [] {
      var n := |rows| - 1;
      assert rows == rows[..n] + [rows[n]];
      CycleValuesAreTheHistory(rows[..n], key, v);
      FilterConcat(rows[..n], [rows[n]], p);
      assert Filter([rows[n]], p) == if p(rows[n]) then [rows[n]] else [];
    }
  }

  /** The median is rounded to the nearest ten-thousandth, and to the even one of two; the row counts the samples. */
  lemma SummaryIsTheRoundedMedian(values: seq<int>)
    requires values != []
    ensures var d := Summary(values);
      && d.samples == |values| && d.isActive && d.remark.None?
      && -1 <= 2 * d.median - TwiceMedian(values) <= 1
      && (2 * d.median != TwiceMedian(values) ==> d.median % 2 == 0)
  {
    HalfEvenIsNearest(TwiceMedian(values), 2, Summary(values).median);
  }

  /** Groups are processed in the order in which the history meets them. */
  lemma {:induction false} GroupsInOrderMet(rows: seq<HistoryRow>, i: nat, j: nat) returns (m: nat)
    requires i < j < |GroupKeys(rows)|
    ensures m < |rows| && KeyOf(rows[m]) == GroupKeys(rows)[i]
    ensures forall k :: 0 <= k <= m ==> KeyOf(rows[k]) != GroupKeys(rows)[j]
  {
    var n := |rows| - 1;
    var before := GroupKeys(rows[..n]);
    if j < |before| {
      m := GroupsInOrderMet(rows[..n], i, j);
      assert forall k :: 0 <= k <= m ==> rows[..n][k] == rows[k];
    } else {
      KeysHaveValues(rows[..n], before[i]);
      KeysHaveValues(rows[..n], KeyOf(rows[n]));
      var h :| h in rows[..n] && KeyOf(h) == before[i];
      m :| 0 <= m < n && rows[..n][m] == h;
      assert forall k :: 0 <= k < n ==> rows[k] in rows[..n];
    }
  }

  datatype State = State(table: seq<Row>, nextId: nat)

  function UpsertState(s: State, now: int, series: string, pair: (string, int), data: Data): State {
    var t := Upserted(s.table, s.nextId, now, series, pair, data);
    State(t, if |t| > |s.table| then s.nextId + 1 else s.nextId)
  }

  function ApplyGroups(s: State, now: int, rows: seq<HistoryRow>, keys: seq<GroupKey>): State {
    if keys == [] then s
    else
      var n := |keys| - 1;
      var key := keys[n];
      UpsertState(ApplyGroups(s, now, rows, keys[..n]), now, key.0, (key.1, key.2), Summary(CycleValues(rows, key)))
  }

  function Rebuilt(s: State, now: int, history: seq<HistoryRow>): State {
    var rows := Filter(history, HasCycle);
    ApplyGroups(State(WithoutDuplicates(s.table, now), s.nextId), now, rows, GroupKeys(rows))
  }

  ghost predicate ValidState(s: State) {
    UniqueIds(s.table) && forall i :: 0 <= i < |s.table| ==> s.table[i].id < s.nextId
  }

  lemma UpsertStep(s: State, now: int, series: string, pair: (string, int), data: Data)
    requires ValidState(s) && OneActivePerPair(s.table)
    ensures var u := UpsertState(s, now, series, pair, data);
      && ValidState(u) && OneActivePerPair(u.table) && OnlyPairTouched(s.table, u.table, s.nextId, pair)
      && (HasActive(u.table, pair) <==> data.isActive || HasRow(s.table, pair))
      && (HasActive(u.table, pair) ==> Carries(u.table, pair, series, data))
  {
    UpsertKeepsOneActive(s.table, s.nextId, now, series, pair, data);
    TouchingOnePairKeepsIds(s.table, Upserted(s.table, s.nextId, now, series, pair, data), s.nextId, pair);
  }

  lemma {:induction false} GroupsKeepOneActive(s: State, now: int, rows: seq<HistoryRow>, keys: seq<GroupKey>)
    requires ValidState(s) && OneActivePerPair(s.table)
    ensures var u := ApplyGroups(s, now, rows, keys); ValidState(u) && OneActivePerPair(u.table)
  {
    if keys != [] {
      var n := |keys| - 1;
      var key := keys[n];
      GroupsKeepOneActive(s, now, rows, keys[..n]);
      UpsertStep(ApplyGroups(s, now, rows, keys[..n]), now, key.0, (key.1, key.2), Summary(CycleValues(rows, key)));
    }
  }

  /** One more group of the rebuild's loop is one more upsert. */
  lemma NextGroup(s: State, now: int, rows: seq<HistoryRow>, keys: seq<GroupKey>, n: nat)
    requires ValidState(s) && OneActivePerPair(s.table) && n < |keys|
    ensures ValidState(ApplyGroups(s, now, rows, keys[..n + 1]))
    ensures ApplyGroups(s, now, rows, keys[..n + 1]) == UpsertState(ApplyGroups(s, now, rows, keys[..n]), now,
      keys[n].0, (keys[n].1, keys[n].2), Summary(CycleValues(rows, keys[n])))
  {
    assert keys[..n + 1][..n] == keys[..n];
    GroupsKeepOneActive(s, now, rows, keys[..n + 1]);
  }

  lemma OtherPairStillCarries(table: seq<Row>, t: seq<Row>, newId: nat, pair: (string, int), other: (string, int),
                              series: string, data: Data)
    requires OnlyPairTouched(table, t, newId, pair) && other != pair && Carries(table, other, series, data)
    ensures Carries(t, other, series, data)
  {
    var i :| 0 <= i < |table| && table[i].isActive && Pair(table[i]) == other
        && table[i].series == Some(series) && table[i].median == data.median && table[i].samples == data.samples;
    assert t[i] == table[i];
  }

  /** The pair of this group is active with this group's series, median and sample count. */
  ghost predicate Published(table: seq<Row>, rows: seq<HistoryRow>, key: GroupKey) {
    Carries(table, (key.1, key.2), key.0, Summary(CycleValues(rows, key)))
  }

  lemma ApplyLastGroup(s: State, now: int, rows: seq<HistoryRow>, keys: seq<GroupKey>)
    requires ValidState(s) && OneActivePerPair(s.table) && keys != []
    ensures var n := |keys| - 1;
      var u, v := ApplyGroups(s, now, rows, keys[..n]), ApplyGroups(s, now, rows, keys);
      OnlyPairTouched(u.table, v.table, u.nextId, (keys[n].1, keys[n].2)) && Published(v.table, rows, keys[n])
  {
    var n := |keys| - 1;
    var key := keys[n];
    GroupsKeepOneActive(s, now, rows, keys[..n]);
    UpsertStep(ApplyGroups(s, now, rows, keys[..n]), now, key.0, (key.1, key.2), Summary(CycleValues(rows, key)));
  }

  /** When several series share a pair, the active row is the one of the series processed last. */
  lemma {:induction false} LastGroupOfAPairWins(s: State, now: int, rows: seq<HistoryRow>, keys: seq<GroupKey>, k: nat)
    requires ValidState(s) && OneActivePerPair(s.table) && k < |keys|
    requires forall i :: k < i < |keys| ==> (keys[i].1, keys[i].2) != (keys[k].1, keys[k].2)
    ensures Published(ApplyGroups(s, now, rows, keys).table, rows, keys[k])
  {
    var n := |keys| - 1;
    var key := keys[n];
    ApplyLastGroup(s, now, rows, keys);
    if k < n {
      LastGroupOfAPairWins(s, now, rows, keys[..n], k);
      var u := ApplyGroups(s, now, rows, keys[..n]);
      OtherPairStillCarries(u.table, ApplyGroups(s, now, rows, keys).table, u.nextId, (key.1, key.2),
                            (keys[k].1, keys[k].2), keys[k].0, Summary(CycleValues(rows, keys[k])));
    }
  }

  lemma {:induction false} LastOccurrence(keys: seq<GroupKey>, pair: (string, int)) returns (k: nat)
    requires exists key :: key in keys && (key.1, key.2) == pair
    ensures k < |keys| && (keys[k].1, keys[k].2) == pair
    ensures forall i :: k < i < |keys| ==> (keys[i].1, keys[i].2) != pair
  {
    var n := |keys| - 1;
    if (keys[n].1, keys[n].2) == pair {
      k := n;
    } else {
      assert keys == keys[..n] + [keys[n]];
      k := LastOccurrence(keys[..n], pair);
    }
  }

  /** From any table, a rebuild leaves one active row for every pair of the history and at most one for any other. */
  lemma RebuildLeavesOneActivePerPair(s: State, now: int, history: seq<HistoryRow>)
    requires ValidState(s)
    ensures var u := Rebuilt(s, now, history);
      && ValidState(u) && OneActivePerPair(u.table)
      && forall h :: h in history && h.cycleDays.Some? ==> HasActive(u.table, (h.model, h.qty))
  {
    var rows := Filter(history, HasCycle);
    DeactivationKeepsTheBest(s.table, now);
    var start := State(WithoutDuplicates(s.table, now), s.nextId);
    GroupsKeepOneActive(start, now, rows, GroupKeys(rows));
    FilterMembers(history, HasCycle);
    forall h | h in history && h.cycleDays.Some? ensures HasActive(Rebuilt(s, now, history).table, (h.model, h.qty)) {
      assert h in rows;
      KeysHaveValues(rows, KeyOf(h));
      var k := LastOccurrence(GroupKeys(rows), (h.model, h.qty));
      LastGroupOfAPairWins(start, now, rows, GroupKeys(rows), k);
    }
  }

  // ---- saves after a rebuild ----

  /** One call of upsert_baseline, by an administrator or by a rebuild. */
  datatype Save = Save(series: string, pair: (string, int), data: Data, at: int)

  function ApplySaves(s: State, saves: seq<Save>): State {
    if saves == [] then s
    else
      var n := |saves| - 1;
      UpsertState(ApplySaves(s, saves[..n]), saves[n].at, saves[n].series, saves[n].pair, saves[n].data)
  }

  /** An upsert deactivates no pair. */
  lemma UpsertKeepsActivePairs(s: State, save: Save, pair: (string, int))
    requires ValidState(s) && OneActivePerPair(s.table) && HasActive(s.table, pair)
    ensures HasActive(UpsertState(s, save.at, save.series, save.pair, save.data).table, pair)
  {
    var i :| 0 <= i < |s.table| && s.table[i].isActive && Pair(s.table[i]) == pair;
    var u := UpsertState(s, save.at, save.series, save.pair, save.data);
    UpsertStep(s, save.at, save.series, save.pair, save.data);
    if save.pair == pair {
      assert s.table[i] in s.table && HasRow(s.table, pair);
    } else {
      assert u.table[i] == s.table[i];
    }
  }

  lemma {:induction false} SavesKeepActivePairs(s: State, saves: seq<Save>)
    requires ValidState(s) && OneActivePerPair(s.table)
    ensures var u := ApplySaves(s, saves);
      && ValidState(u) && OneActivePerPair(u.table)
      && forall pair :: HasActive(s.table, pair) ==> HasActive(u.table, pair)
  {
    if saves != [] {
      var n := |saves| - 1;
      var t, last := ApplySaves(s, saves[..n]), saves[n];
      SavesKeepActivePairs(s, saves[..n]);
      UpsertStep(t, last.at, last.series, last.pair, last.data);
      forall pair | HasActive(s.table, pair) ensures HasActive(ApplySaves(s, saves).table, pair) {
        UpsertKeepsActivePairs(t, last, pair);
      }
    }
  }

  /**
   After a rebuild, whatever is saved later, active or not, every pair of the history has exactly one active row
   and every other pair at most one.
  */
  lemma LaterSavesKeepTheRebuild(s: State, now: int, history: seq<HistoryRow>, saves: seq<Save>)
    requires ValidState(s)
    ensures var u := ApplySaves(Rebuilt(s, now, history), saves);
      && ValidState(u) && OneActivePerPair(u.table)
      && forall h :: h in history && h.cycleDays.Some? ==> HasActive(u.table, (h.model, h.qty))
  {
    RebuildLeavesOneActivePerPair(s, now, history);
    SavesKeepActivePairs(Rebuilt(s, now, history), saves);
  }

  // ---- the repository and the rebuild as they run ----

  function Store(table: seq<Row>, row: Row): seq<Row> {
    seq(|table|, i requires 0 <= i < |table| => if table[i].id == row.id then row else table[i])
  }

  function DuplicatesIn(table: seq<Row>): Row -> bool {
    (row: Row) => IsDuplicate(table, row)
  }

  lemma {:induction false} FirstInPrefix(rows: seq<Row>, k: nat, p: Row -> bool)
    requires k < |rows| && NoDuplicates(rows)
    ensures First(rows[..k], p).Some? ==> First(rows, p) == First(rows[..k], p) && First(rows, p) != Some(rows[k])
    ensures First(rows[..k], p).None? && p(rows[k]) ==> First(rows, p) == Some(rows[k])
  {
    if k > 0 {
      assert rows[..k][1..] == rows[1..][..k - 1];
      if !p(rows[0]) { FirstInPrefix(rows[1..], k - 1, p); }
    }
  }

  lemma ActiveRowsListTheTable(table: seq<Row>)
    requires UniqueIds(table)
    ensures NoDuplicates(ActiveRows(table))
    ensures forall r :: r in ActiveRows(table) <==> r in table && r.isActive
    ensures |Filter(ActiveRows(table), DuplicatesIn(table))| == |Filter(table, DuplicatesIn(table))|
  {
    RankingDistinguishes(table);
    FilterMembers(table, IsActive);
    FilterKeepsDistinct(table, IsActive);
    SortKeepsDistinct(Filter(table, IsActive), Outranks);
    SortByMembers(Filter(table, IsActive), Outranks);
    SortByPermutes(Filter(table, IsActive), Outranks);
    FilterForgetsStoredOrder(ActiveRows(table), Filter(table, IsActive), DuplicatesIn(table));
    SameMembers(Filter(ActiveRows(table), DuplicatesIn(table)), Filter(Filter(table, IsActive), DuplicatesIn(table)));
    FilterTwice(table, IsActive, DuplicatesIn(table), DuplicatesIn(table));
  }

  /** The table after the rows of `done` have been visited by the deactivation loop. */
  function Swept(table: seq<Row>, done: seq<Row>, now: int): seq<Row> {
    seq(|table|, i requires 0 <= i < |table| =>
      if table[i] in done && IsDuplicate(table, table[i]) then Deactivated(table[i], DUPLICATE_REMARK, now)
        else table[i])
  }

  lemma SweepStep(table: seq<Row>, rows: seq<Row>, k: nat, now: int)
    requires UniqueIds(table) && k < |rows| && rows[k] in table && NoDuplicates(rows)
    ensures Swept(table, rows[..k + 1], now)
      == if IsDuplicate(table, rows[k])
         then Store(Swept(table, rows[..k], now), Deactivated(rows[k], DUPLICATE_REMARK, now))
         else Swept(table, rows[..k], now)
  {
    var next, before, row := Swept(table, rows[..k + 1], now), Swept(table, rows[..k], now), rows[k];
    var m :| 0 <= m < |table| && table[m] == row;
    assert row !in rows[..k];
    assert rows[..k + 1] == rows[..k] + [row];
    forall i | 0 <= i < |table| && i != m
      ensures next[i] == before[i] && table[i].id != row.id && before[i].id == table[i].id
    {
    }
    assert before[m] == row;
  }

  lemma SweepEnds(table: seq<Row>, now: int)
    requires UniqueIds(table)
    ensures Swept(table, [], now) == table
    ensures Swept(table, ActiveRows(table), now) == WithoutDuplicates(table, now)
    ensures |Filter(ActiveRows(table), DuplicatesIn(table))| == |Filter(table, DuplicatesIn(table))|
    ensures UniqueIds(WithoutDuplicates(table, now))
    ensures forall i :: 0 <= i < |table| ==> WithoutDuplicates(table, now)[i].id == table[i].id
  {
    ActiveRowsListTheTable(table);
    DeactivationKeepsTheBest(table, now);
  }

  /** The keys of keep_map after these rows. */
  function PairsOf(rows: seq<Row>): set<(string, int)> {
    set row | row in rows :: Pair(row)
  }

  /** A visited row is a duplicate exactly when its pair was met before. */
  lemma DuplicateIffPairMet(table: seq<Row>, k: nat)
    requires UniqueIds(table) && k < |ActiveRows(table)|
    ensures var rows := ActiveRows(table); IsDuplicate(table, rows[k]) <==> Pair(rows[k]) in PairsOf(rows[..k])
  {
    var rows, row := ActiveRows(table), ActiveRows(table)[k];
    ActiveRowsListTheTable(table);
    assert row in rows;
    FirstInPrefix(rows, k, OfPair(Pair(row)));
    FirstMember(rows[..k], OfPair(Pair(row)));
  }

  /** The loop's state after the first k active rows. */
  ghost predicate SweptTo(was: seq<Row>, k: nat, now: int, table: seq<Row>, met: set<(string, int)>, updated: nat)
    requires k <= |ActiveRows(was)|
  {
    var done := ActiveRows(was)[..k];
    table == Swept(was, done, now) && met == PairsOf(done) && updated == |Filter(done, DuplicatesIn(was))|
  }

  lemma SweepNext(was: seq<Row>, k: nat, now: int)
    requires UniqueIds(was) && k < |ActiveRows(was)|
    ensures var rows, row := ActiveRows(was), ActiveRows(was)[k];
      && row.isActive
      && Swept(was, rows[..k + 1], now)
        == if IsDuplicate(was, row) then Store(Swept(was, rows[..k], now), Deactivated(row, DUPLICATE_REMARK, now))
          else Swept(was, rows[..k], now)
  {
    ActiveRowsListTheTable(was);
    assert ActiveRows(was)[k] in ActiveRows(was);
    SweepStep(was, ActiveRows(was), k, now);
  }

  lemma CountNext(was: seq<Row>, rows: seq<Row>, k: nat)
    requires k < |rows|
    ensures PairsOf(rows[..k + 1]) == PairsOf(rows[..k]) + {Pair(rows[k])}
    ensures |Filter(rows[..k + 1], DuplicatesIn(was))|
      == |Filter(rows[..k], DuplicatesIn(was))| + if IsDuplicate(was, rows[k]) then 1 else 0
  {
    assert rows[..k + 1] == rows[..k] + [rows[k]];
    FilterConcat(rows[..k], [rows[k]], DuplicatesIn(was));
    PairsExtend(rows[..k], rows[k]);
  }

  /** What the deactivation loop does at the k-th active row. */
  lemma VisitActiveRow(was: seq<Row>, k: nat, now: int, table: seq<Row>, met: set<(string, int)>, updated: nat)
    requires UniqueIds(was) && k < |ActiveRows(was)| && SweptTo(was, k, now, table, met, updated)
    ensures var row := ActiveRows(was)[k];
      && row.isActive
      && if Pair(row) !in met then SweptTo(was, k + 1, now, table, met + {Pair(row)}, updated)
         else SweptTo(was, k + 1, now, Store(table, Deactivated(row, DUPLICATE_REMARK, now)), met, updated + 1)
  {
    DuplicateIffPairMet(was, k);
    SweepNext(was, k, now);
    CountNext(was, ActiveRows(was), k);
  }

  lemma PairsExtend(rows: seq<Row>, row: Row)
    ensures PairsOf(rows + [row]) == PairsOf(rows) + {Pair(row)}
  {
    assert forall r :: r in rows + [row] <==> r in rows || r == row;
  }

  /** The table after the main row was written and the rows of `done` were visited by the upsert loop. */
  function Resolved(table: seq<Row>, written: Row, done: seq<Row>, now: int): seq<Row> {
    seq(|table|, i requires 0 <= i < |table| =>
      if table[i].id == written.id then written
      else if table[i] in done && table[i].isActive then Deactivated(table[i], SECONDARY_REMARK, now)
      else table[i])
  }

  lemma ResolveStep(table: seq<Row>, written: Row, done: seq<Row>, row: Row, now: int)
    requires UniqueIds(table) && row in table
    ensures Resolved(table, written, done + [row], now)
      == if row.id != written.id && row.isActive
         then Store(Resolved(table, written, done, now), Deactivated(row, SECONDARY_REMARK, now))
         else Resolved(table, written, done, now)
  {
    var next, before := Resolved(table, written, done + [row], now), Resolved(table, written, done, now);
    var k :| 0 <= k < |table| && table[k] == row;
    forall i | 0 <= i < |table| && i != k
      ensures next[i] == before[i] && table[i].id != row.id && before[i].id == table[i].id
    {
    }
  }

  lemma StoreResolvesNothing(table: seq<Row>, written: Row, now: int)
    ensures Store(table, written) == Resolved(table, written, [], now)
  {
  }

  lemma PairRowsMembers(table: seq<Row>, pair: (string, int))
    ensures forall r :: r in PairRows(table, pair) <==> r in table && Pair(r) == pair
  {
    FilterMembers(table, OfPair(pair));
    SortByMembers(Filter(table, OfPair(pair)), Outranks);
  }

  class MachineBaselineRepo {
    var table: seq<Row>
    var nextId: nat

    ghost predicate Valid()
      reads this
    {
      ValidState(State(table, nextId))
    }

    constructor ()
      ensures Valid() && table == [] && nextId == 1
    {
      table, nextId := [], 1;
    }

    method DeactivateDuplicateActiveRows(now: int) returns (updated: nat)
      requires Valid()
      modifies this`table
      ensures Valid() && table == WithoutDuplicates(old(table), now)
      ensures updated == |Filter(old(table), DuplicatesIn(old(table)))|
    {
      ghost var was := table;
      var rows := ActiveRows(table);
      var keep: map<(string, int), Row> := map[];
      updated := 0;
      SweepEnds(was, now);
      for k := 0 to |rows|
        invariant SweptTo(was, k, now, table, keep.Keys, updated)
      {
        var row := rows[k];
        VisitActiveRow(was, k, now, table, keep.Keys, updated);
        if Pair(row) !in keep {
          keep := keep[Pair(row) := row];
        } else if row.isActive {
          table := Store(table, Deactivated(row, DUPLICATE_REMARK, now));
          updated := updated + 1;
        }
      }
      assert rows[..|rows|] == rows;
    }

    method FindTarget(series: string, pair: (string, int)) returns (rows: seq<Row>, target: Option<Row>)
      ensures rows == PairRows(table, pair) && target == Target(table, series, pair)
    {
      rows := PairRows(table, pair);
      target := None;
      var i := 0;
      assert rows[0..] == rows;
      while i < |rows|
        invariant 0 <= i <= |rows| && target == None
        invariant First(rows, OfSeries(series)) == First(rows[i..], OfSeries(series))
      {
        assert rows[i..][1..] == rows[i + 1..];
        if rows[i].series.GetOr("") == series {
          target := Some(rows[i]);
          break;
        }
        i := i + 1;
      }
      if target.None? && rows != [] { target := Some(rows[0]); }
    }

    /** Deactivates the other rows of the pair, one after the other. */
    method ResolvePair(rows: seq<Row>, main: Row, written: Row, now: int, ghost was: seq<Row>)
      requires UniqueIds(was) && table == Store(was, written) && written.id == main.id
      requires forall r :: r in rows ==> r in was
      modifies this`table
      ensures table == Resolved(was, written, rows, now)
    {
      StoreResolvesNothing(was, written, now);
      for k := 0 to |rows|
        invariant table == Resolved(was, written, rows[..k], now)
      {
        assert rows[k] in rows;
        assert rows[..k + 1] == rows[..k] + [rows[k]];
        ResolveStep(was, written, rows[..k], rows[k], now);
        if rows[k].id != main.id && rows[k].isActive {
          table := Store(table, Deactivated(rows[k], SECONDARY_REMARK, now));
        }
      }
      assert rows[..|rows|] == rows;
    }

    method UpsertBaseline(now: int, series: string, pair: (string, int), data: Data)
      requires Valid()
      modifies this
      ensures State(table, nextId) == UpsertState(old(State(table, nextId)), now, series, pair, data)
    {
      ghost var was := table;
      var rows, target := FindTarget(series, pair);
      PairRowsMembers(table, pair);
      TargetMeaning(table, series, pair);
      if target.Some? {
        var main := target.value;
        var written := Written(main, Overwritten(main, series, data), now);
        table := Store(table, written);
        ResolvePair(rows, main, written, now, was);
        WholePairResolved(was, nextId, now, series, pair, data, written);
      } else {
        table := table + [Created(nextId, series, pair, data, now)];
        nextId := nextId + 1;
      }
    }

    method Rebuild(now: int, history: seq<HistoryRow>) returns (groupsProcessed: nat, totalSamples: nat)
      requires Valid()
      modifies this
      ensures Valid() && State(table, nextId) == Rebuilt(old(State(table, nextId)), now, history)
      ensures totalSamples == |Filter(history, HasCycle)| && groupsProcessed == |GroupKeys(Filter(history, HasCycle))|
    {
      ghost var was := State(table, nextId);
      var _ := DeactivateDuplicateActiveRows(now);
      ghost var start := State(table, nextId);
      DeactivationKeepsTheBest(was.table, now);
      var rows := Filter(history, HasCycle);
      var groups, keys := GroupHistory(rows);
      for n := 0 to |keys|
        invariant Valid() && State(table, nextId) == ApplyGroups(start, now, rows, keys[..n])
      {
        var key := keys[n];
        assert key in keys;
        NextGroup(start, now, rows, keys, n);
        UpsertBaseline(now, key.0, (key.1, key.2), Summary(groups[key]));
      }
      assert keys[..|keys|] == keys;
      groupsProcessed, totalSamples := |keys|, |rows|;
    }
  }

  lemma WholePairResolved(table: seq<Row>, newId: nat, now: int, series: string, pair: (string, int), data: Data,
                          written: Row)
    requires UniqueIds(table) && Target(table, series, pair).Some?
    requires var main := Target(table, series, pair).value;
      written == Written(main, Overwritten(main, series, data), now)
    ensures Resolved(table, written, PairRows(table, pair), now) == Upserted(table, newId, now, series, pair, data)
  {
    TargetMeaning(table, series, pair);
    PairRowsMembers(table, pair);
    var r, u := Resolved(table, written, PairRows(table, pair), now), Upserted(table, newId, now, series, pair, data);
    forall i | 0 <= i < |table| ensures r[i] == u[i] {
      assert table[i] in table;
      assert table[i] in PairRows(table, pair) <==> Pair(table[i]) == pair;
    }
  }
}
