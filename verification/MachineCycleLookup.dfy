/**
 The three ways to find the cycle of a machine, and the loader that prepares the lists for one of them
 (app/repository/machine_cycle_baseline_repo.py lines 29-48, app/scheduler/schedule_check_service.py
 lines 135-173, app/scheduler/machine_schedule_service.py lines 96-112,
 app/services/schedule_snapshot_refresh_context_loader.py lines 115-136).
*/
module MachineCycleLookup {
  import opened Prelude
  import opened Sorting
  import opened MachineBaseline

  /** Ninety days, in ten-thousandths. */
  const DEFAULT_MACHINE_CYCLE_DAYS := 90 * SCALE_4

  datatype MachineCycle = MachineCycle(days: int, isDefault: bool)

  function ActiveOf(model: string): Row -> bool {
    (row: Row) => row.model == model && row.isActive
  }

  function OfQty(qty: int): Row -> bool {
    (row: Row) => row.qty == qty
  }

  function FindByModelAndQty(table: seq<Row>, model: string, qty: int): Option<Row> {
    Head(SortBy(Filter(table, (row: Row) => row.model == model && row.qty == qty && row.isActive), Outranks))
  }

  function Ranked(table: seq<Row>, model: string): seq<Row> {
    SortBy(Filter(table, ActiveOf(model)), Outranks)
  }

  ghost predicate HasQty(rows: seq<Row>, qty: int) {
    exists j :: 0 <= j < |rows| && rows[j].qty == qty
  }

  /** find_all_by_model returns, by ascending quantity, the first of the ranked rows of each quantity. */
  ghost predicate IsModelList(all: seq<Row>, ranked: seq<Row>) {
    && (forall i, j :: 0 <= i < j < |all| ==> all[i].qty < all[j].qty)
    && (forall i :: 0 <= i < |all| ==> First(ranked, OfQty(all[i].qty)) == Some(all[i]))
    && (forall i :: 0 <= i < |ranked| ==> HasQty(all, ranked[i].qty))
  }

  predicate QtyAtMost(x: int, y: int) { x <= y }

  /** The dict of the first row per quantity, with its keys. */
  ghost predicate Dedupes(deduped: map<int, Row>, keys: seq<int>, rows: seq<Row>) {
    && NoDuplicates(keys) && (forall q :: q in keys <==> q in deduped)
    && (forall q :: q in deduped ==> First(rows, OfQty(q)) == Some(deduped[q]))
    && forall j :: 0 <= j < |rows| ==> rows[j].qty in deduped
  }

  /** dict.setdefault(row.order_qty, row). */
  datatype Bucket = Bucket(rows: map<int, Row>, keys: seq<int>)

  function SetDefault(b: Bucket, row: Row): Bucket {
    if row.qty in b.rows then b else Bucket(b.rows[row.qty := row], b.keys + [row.qty])
  }

  lemma DedupesNext(b: Bucket, rows: seq<Row>, row: Row)
    requires Dedupes(b.rows, b.keys, rows)
    ensures var c := SetDefault(b, row); Dedupes(c.rows, c.keys, rows + [row])
  {
    var c := SetDefault(b, row);
    forall q | q in c.rows ensures First(rows + [row], OfQty(q)) == Some(c.rows[q]) {
      FirstExtends(rows, row, OfQty(q));
      if q !in b.rows { NoRowOfQty(b, rows, q); }
    }
    assert forall j :: 0 <= j < |rows| ==> (rows + [row])[j] == rows[j];
  }

  lemma NoRowOfQty(b: Bucket, rows: seq<Row>, q: int)
    requires Dedupes(b.rows, b.keys, rows) && q !in b.rows
    ensures First(rows, OfQty(q)).None?
  {
    FirstMember(rows, OfQty(q));
  }

  lemma SortedDictIsModelList(deduped: map<int, Row>, keys: seq<int>, rows: seq<Row>, all: seq<Row>)
    requires Dedupes(deduped, keys, rows)
    requires |all| == |SortBy(keys, QtyAtMost)|
    requires forall k :: 0 <= k < |all| ==>
      SortBy(keys, QtyAtMost)[k] in deduped && all[k] == deduped[SortBy(keys, QtyAtMost)[k]]
    ensures IsModelList(all, rows)
  {
    var sorted := SortBy(keys, QtyAtMost);
    SortByMembers(keys, QtyAtMost);
    SortBySorts(keys, QtyAtMost);
    SortKeepsDistinct(keys, QtyAtMost);
    forall k | 0 <= k < |all| ensures all[k].qty == sorted[k] {
      FirstMember(rows, OfQty(sorted[k]));
    }
    forall i, j | 0 <= i < j < |all| ensures all[i].qty < all[j].qty {
      assert QtyAtMost(sorted[i], sorted[j]) && sorted[i] != sorted[j];
    }
    forall i | 0 <= i < |rows| ensures HasQty(all, rows[i].qty) {
      assert rows[i].qty in deduped && rows[i].qty in keys && rows[i].qty in sorted;
      var j :| 0 <= j < |sorted| && sorted[j] == rows[i].qty;
      assert all[j].qty == rows[i].qty;
    }
  }

  /** The rows of the dict by ascending quantity. */
  method SortedBucket(b: Bucket, ghost rows: seq<Row>) returns (all: seq<Row>)
    requires Dedupes(b.rows, b.keys, rows)
    ensures IsModelList(all, rows)
  {
    var sorted := SortBy(b.keys, QtyAtMost);
    SortByMembers(b.keys, QtyAtMost);
    assert forall q :: q in b.keys ==> q in b.rows;
    all := [];
    for i := 0 to |sorted|
      invariant |all| == i
      invariant forall k :: 0 <= k < i ==> sorted[k] in b.rows && all[k] == b.rows[sorted[k]]
    {
      assert sorted[i] in sorted && sorted[i] in b.keys;
      all := all + [b.rows[sorted[i]]];
    }
    SortedDictIsModelList(b.rows, b.keys, rows, all);
  }

  method FindAllByModel(table: seq<Row>, model: string) returns (all: seq<Row>)
    ensures IsModelList(all, Ranked(table, model))
  {
    var ranked := Ranked(table, model);
    var b := Bucket(map[], []);
    for i := 0 to |ranked|
      invariant Dedupes(b.rows, b.keys, ranked[..i])
    {
      DedupesNext(b, ranked[..i], ranked[i]);
      assert ranked[..i + 1] == ranked[..i] + [ranked[i]];
      b := SetDefault(b, ranked[i]);
    }
    assert ranked[..|ranked|] == ranked;
    all := SortedBucket(b, ranked);
  }

  /** abs(order_qty - qty). */
  function Gap(row: Row, qty: int): int {
    Abs(row.qty - qty)
  }

  /** `min(all, key=...)`: the first of the nearest. */
  function Nearest(all: seq<Row>, qty: int): Row
    requires all != []
  {
    if |all| == 1 then all[0]
    else
      var rest := Nearest(all[1..], qty);
      if Gap(all[0], qty) <= Gap(rest, qty) then all[0] else rest
  }

  ghost predicate IsFirstNearest(all: seq<Row>, qty: int, k: int) {
    && 0 <= k < |all|
    && (forall i :: 0 <= i < |all| ==> Gap(all[k], qty) <= Gap(all[i], qty))
    && (forall i :: 0 <= i < k ==> Gap(all[k], qty) < Gap(all[i], qty))
  }

  lemma HeadIsNearest(all: seq<Row>, qty: int, j: int)
    requires |all| > 1 && IsFirstNearest(all[1..], qty, j) && Gap(all[0], qty) <= Gap(all[1..][j], qty)
    ensures IsFirstNearest(all, qty, 0)
  {
    assert forall i :: 0 < i < |all| ==> all[i] == all[1..][i - 1];
  }

  lemma TailIsNearest(all: seq<Row>, qty: int, j: int)
    requires |all| > 1 && IsFirstNearest(all[1..], qty, j) && Gap(all[0], qty) > Gap(all[1..][j], qty)
    ensures IsFirstNearest(all, qty, j + 1)
  {
    assert forall i :: 0 < i < |all| ==> all[i] == all[1..][i - 1];
  }

  lemma {:induction false} NearestMeaning(all: seq<Row>, qty: int) returns (k: int)
    requires all != []
    ensures IsFirstNearest(all, qty, k) && Nearest(all, qty) == all[k]
  {
    if |all| == 1 {
      k := 0;
    } else {
      var j := NearestMeaning(all[1..], qty);
      if Gap(all[0], qty) <= Gap(all[1..][j], qty) {
        HeadIsNearest(all, qty, j);
        k := 0;
      } else {
        TailIsNearest(all, qty, j);
        k := j + 1;
      }
    }
  }

  /** The nearest median scaled by the quantity ratio and rounded to four places; a zero quantity does not scale. */
  function Scaled(nearest: Row, qty: int): int {
    if nearest.qty == 0 then nearest.median
    else if nearest.qty > 0 then HalfEven(nearest.median * qty, nearest.qty)
    else HalfEven(-(nearest.median * qty), -nearest.qty)
  }

  /** `quantity or 1`. */
  function OrderQty(quantity: Option<int>): int {
    if quantity.None? || quantity.value == 0 then SCALE_4 else quantity.value
  }

  function FromList(all: seq<Row>, qty: int): MachineCycle {
    if all != [] then MachineCycle(Scaled(Nearest(all, qty), qty), false)
      else MachineCycle(DEFAULT_MACHINE_CYCLE_DAYS, true)
  }

  /** The builder's lookup, and the check's when nothing is preloaded; `all` is what find_all_by_model returned. */
  function QueriedCycle(table: seq<Row>, all: seq<Row>, model: Option<string>, quantity: Option<int>): MachineCycle {
    if model.GetOr("") == "" then MachineCycle(DEFAULT_MACHINE_CYCLE_DAYS, true)
    else
      var exact := FindByModelAndQty(table, model.value, OrderQty(quantity));
      if exact.Some? then MachineCycle(exact.value.median, false) else FromList(all, OrderQty(quantity))
  }

  /** `baselines_by_model.get(machine_model) or []`. */
  function ListOf(baselines: map<string, seq<Row>>, model: string): seq<Row> {
    if model in baselines then baselines[model] else []
  }

  /** The check's lookup in preloaded lists. */
  function PreloadedCycle(baselines: map<string, seq<Row>>, model: Option<string>,
                          quantity: Option<int>): MachineCycle {
    if model.GetOr("") == "" then MachineCycle(DEFAULT_MACHINE_CYCLE_DAYS, true)
    else
      var all := ListOf(baselines, model.value);
      var exact := First(all, OfQty(OrderQty(quantity)));
      if exact.Some? then MachineCycle(exact.value.median, false) else FromList(all, OrderQty(quantity))
  }

  lemma ListFindsWhatTheQueryFinds(table: seq<Row>, model: string, qty: int, all: seq<Row>)
    requires MachineBaseline.UniqueIds(table) && IsModelList(all, Ranked(table, model))
    ensures First(all, OfQty(qty)) == FindByModelAndQty(table, model, qty)
  {
    var ranked := Ranked(table, model);
    var both := (row: Row) => row.model == model && row.qty == qty && row.isActive;
    RankingDistinguishes(table);
    FilterMembers(table, ActiveOf(model));
    FilterTwice(table, ActiveOf(model), OfQty(qty), both);
    FilterCommutesWithSort(Filter(table, ActiveOf(model)), OfQty(qty), Outranks);
    FirstHeadsTheFilter(ranked, OfQty(qty));
    FirstMember(ranked, OfQty(qty));
    FirstMember(all, OfQty(qty));
    if First(all, OfQty(qty)).Some? {
      var i :| 0 <= i < |all| && all[i] == First(all, OfQty(qty)).value;
      assert all[i].qty == qty;
    }
  }

  lemma {:induction false} ModelListUnique(a: seq<Row>, b: seq<Row>, ranked: seq<Row>)
    requires IsModelList(a, ranked) && IsModelList(b, ranked)
    ensures a == b
  {
    forall r ensures r in a <==> r in b {
      if r in a { InOtherList(a, b, ranked, r); }
      if r in b { InOtherList(b, a, ranked, r); }
    }
    AscendingListsAgree(a, b);
  }

  lemma InOtherList(a: seq<Row>, b: seq<Row>, ranked: seq<Row>, r: Row)
    requires IsModelList(a, ranked) && IsModelList(b, ranked) && r in a
    ensures r in b
  {
    var i :| 0 <= i < |a| && a[i] == r;
    FirstMember(ranked, OfQty(r.qty));
    var k :| 0 <= k < |ranked| && ranked[k] == r;
    var j :| 0 <= j < |b| && b[j].qty == ranked[k].qty;
    assert First(ranked, OfQty(b[j].qty)) == Some(b[j]);
  }

  lemma {:induction false} AscendingListsAgree(a: seq<Row>, b: seq<Row>)
    requires forall i, j :: 0 <= i < j < |a| ==> a[i].qty < a[j].qty
    requires forall i, j :: 0 <= i < j < |b| ==> b[i].qty < b[j].qty
    requires forall r :: r in a <==> r in b
    ensures a == b
  {
    assert a != [] ==> a[0] in a;
    assert b != [] ==> b[0] in b;
    if a != [] && b != [] {
      assert a[0] == b[0];
      forall r ensures r in a[1..] <==> r in b[1..] {
        assert r in a[1..] <==> r in a && r != a[0];
        assert r in b[1..] <==> r in b && r != b[0];
      }
      AscendingListsAgree(a[1..], b[1..]);
      assert a == [a[0]] + a[1..] && b == [b[0]] + b[1..];
    }
  }

  /**
   Given the lists find_all_by_model returns, the preloaded lookup and the querying lookup find the same
   cycle for every model and quantity, from any table.
  */
  lemma CyclePathsAgree(table: seq<Row>, baselines: map<string, seq<Row>>, all: seq<Row>, model: Option<string>,
                        quantity: Option<int>)
    requires MachineBaseline.UniqueIds(table)
    requires model.GetOr("") != "" ==> IsModelList(all, Ranked(table, model.value))
    requires model.GetOr("") != "" ==> IsModelList(ListOf(baselines, model.value), Ranked(table, model.value))
    ensures PreloadedCycle(baselines, model, quantity) == QueriedCycle(table, all, model, quantity)
  {
    if model.GetOr("") != "" {
      var preloaded := ListOf(baselines, model.value);
      ModelListUnique(all, preloaded, Ranked(table, model.value));
      ListFindsWhatTheQueryFinds(table, model.value, OrderQty(quantity), preloaded);
    }
  }

  // ---- the cycle in terms of the table ----

  /** An active row of the model that is better than all other active rows of its quantity. */
  ghost predicate IsCurrentRow(table: seq<Row>, row: Row, model: string) {
    && row in table && row.isActive && row.model == model
    && forall x :: x in table && x.isActive && x.model == model && x.qty == row.qty && x != row ==> IsBetter(row, x)
  }

  lemma RankedIsBetter(table: seq<Row>, x: Row, y: Row)
    requires MachineBaseline.UniqueIds(table) && x in table && y in table && x.isActive && y.isActive && x != y
    ensures Outranks(x, y) ==> IsBetter(x, y)
  {
    var i :| 0 <= i < |table| && table[i] == x;
    var j :| 0 <= j < |table| && table[j] == y;
    assert x.id != y.id;
  }

  lemma ListedRowIsCurrent(table: seq<Row>, all: seq<Row>, model: string, i: nat)
    requires MachineBaseline.UniqueIds(table) && IsModelList(all, Ranked(table, model)) && i < |all|
    ensures IsCurrentRow(table, all[i], model)
  {
    RankingDistinguishes(table);
    FilterMembers(table, ActiveOf(model));
    SortByMembers(Filter(table, ActiveOf(model)), Outranks);
    SortBySorts(Filter(table, ActiveOf(model)), Outranks);
    FirstMember(Ranked(table, model), OfQty(all[i].qty));
    FirstRanksFirst(Ranked(table, model), OfQty(all[i].qty));
    forall x | x in table && x.isActive && x.model == model && x.qty == all[i].qty && x != all[i]
      ensures IsBetter(all[i], x)
    {
      assert x in Ranked(table, model) && OfQty(all[i].qty)(x);
      RankedIsBetter(table, all[i], x);
    }
  }

  lemma ListCoversTheModel(table: seq<Row>, all: seq<Row>, model: string, row: Row)
    requires IsModelList(all, Ranked(table, model)) && row in table && row.isActive && row.model == model
    ensures HasQty(all, row.qty)
  {
    FilterMembers(table, ActiveOf(model));
    SortByMembers(Filter(table, ActiveOf(model)), Outranks);
    assert row in Ranked(table, model);
    var i :| 0 <= i < |Ranked(table, model)| && Ranked(table, model)[i] == row;
  }

  lemma FoundRowIsCurrent(table: seq<Row>, model: string, qty: int)
    requires MachineBaseline.UniqueIds(table)
    ensures var found := FindByModelAndQty(table, model, qty);
      && (found.Some? <==> exists x :: x in table && x.isActive && x.model == model && x.qty == qty)
      && (found.Some? ==> IsCurrentRow(table, found.value, model) && found.value.qty == qty)
  {
    var p := (row: Row) => row.model == model && row.qty == qty && row.isActive;
    RankingDistinguishes(table);
    HeadRanksFirst(table, p, Outranks);
    var found := FindByModelAndQty(table, model, qty);
    if found.Some? {
      forall x | x in table && x.isActive && x.model == model && x.qty == qty && x != found.value
        ensures IsBetter(found.value, x)
      {
        assert p(x);
        RankedIsBetter(table, found.value, x);
      }
    }
  }

  /** No listed quantity is nearer, and one that is as near is not smaller. */
  ghost predicate IsNearest(all: seq<Row>, row: Row, qty: int) {
    row in all && forall x :: x in all ==>
      Abs(row.qty - qty) < Abs(x.qty - qty) || (Abs(row.qty - qty) == Abs(x.qty - qty) && row.qty <= x.qty)
  }

  lemma NearestIsNearest(all: seq<Row>, qty: int)
    requires all != [] && forall i, j :: 0 <= i < j < |all| ==> all[i].qty < all[j].qty
    ensures IsNearest(all, Nearest(all, qty), qty)
  {
    var k := NearestMeaning(all, qty);
    forall x | x in all
      ensures Abs(all[k].qty - qty) < Abs(x.qty - qty)
        || (Abs(all[k].qty - qty) == Abs(x.qty - qty) && all[k].qty <= x.qty)
    {
      var i :| 0 <= i < |all| && all[i] == x;
      assert Gap(all[k], qty) <= Gap(all[i], qty) && (i < k ==> Gap(all[k], qty) < Gap(all[i], qty));
    }
  }

  /** The median times the ratio of the quantities, rounded to the nearest ten-thousandth. */
  lemma ScaledIsProportional(row: Row, qty: int)
    ensures row.qty == 0 ==> Scaled(row, qty) == row.median
    ensures row.qty != 0 ==> Abs(2 * (Scaled(row, qty) * row.qty) - 2 * (row.median * qty)) <= Abs(row.qty)
  {
    var r := Scaled(row, qty);
    if row.qty > 0 { HalfEvenIsNearest(row.median * qty, row.qty, r); }
    if row.qty < 0 {
      HalfEvenIsNearest(-(row.median * qty), -row.qty, r);
      assert r * -row.qty == -(r * row.qty);
    }
  }

  /**
   The cycle of an order, in terms of the table: without a model or without active rows of it ninety days by default;
   the median of the current row of its quantity; otherwise that of the nearest quantity, scaled.
  */
  lemma CycleExactly(table: seq<Row>, all: seq<Row>, model: Option<string>, quantity: Option<int>)
    requires MachineBaseline.UniqueIds(table)
    requires model.GetOr("") != "" ==> IsModelList(all, Ranked(table, model.value))
    ensures var cycle := QueriedCycle(table, all, model, quantity);
      var qty := if quantity.GetOr(0) == 0 then 10_000 else quantity.value;
      var known := model.GetOr("") != "" && exists x :: x in table && x.isActive && x.model == model.value;
      var exact := known && exists x :: x in table && x.isActive && x.model == model.value && x.qty == qty;
      && (!known ==> cycle == MachineCycle(900_000, true))
      && (exact ==> exists r ::
           IsCurrentRow(table, r, model.value) && r.qty == qty && cycle == MachineCycle(r.median, false))
      && (known && !exact ==> exists r ::
           IsCurrentRow(table, r, model.value) && IsNearest(all, r, qty)
           && cycle == MachineCycle(Scaled(r, qty), false))
  {
    if model.GetOr("") != "" {
      var qty := OrderQty(quantity);
      FoundRowIsCurrent(table, model.value, qty);
      if all != [] {
        NearestIsNearest(all, qty);
        var i :| 0 <= i < |all| && all[i] == Nearest(all, qty);
        ListedRowIsCurrent(table, all, model.value, i);
      }
      forall x | x in table && x.isActive && x.model == model.value ensures all != [] {
        ListCoversTheModel(table, all, model.value, x);
      }
    }
  }

  // ---- the loader of the preloaded lists ----

  /** ORDER BY machine_model, order_qty, sample_count DESC, updated_at DESC, id DESC. */
  predicate LoadOrder(x: Row, y: Row) {
    if x.model != y.model then TextLeq(x.model, y.model)
    else if x.qty != y.qty then x.qty <= y.qty
    else if x.samples != y.samples then x.samples > y.samples
    else if x.updatedAt != y.updatedAt then x.updatedAt > y.updatedAt
    else x.id >= y.id
  }

  function LoadedRows(table: seq<Row>): seq<Row> {
    SortBy(Filter(table, IsActive), LoadOrder)
  }

  function OfModel(model: string): Row -> bool {
    (row: Row) => row.model == model
  }

  lemma LoadOrderIsTotal()
    ensures TotalPreorder(LoadOrder)
  {
    forall x, y ensures LoadOrder(x, y) || LoadOrder(y, x) { TextLeqTotal(x.model, y.model); }
    forall x, y, z | LoadOrder(x, y) && LoadOrder(y, z) ensures LoadOrder(x, z) {
      if x.model != y.model && y.model != z.model {
        TextLeqTransitive(x.model, y.model, z.model);
        TextLeqTotal(x.model, y.model);
      }
    }
  }

  lemma LoadOrderDistinguishes(table: seq<Row>)
    requires MachineBaseline.UniqueIds(table)
    ensures Distinguishes(table, LoadOrder)
  {
    forall x, y | x in table && y in table && LoadOrder(x, y) && LoadOrder(y, x) ensures x == y {
      TextLeqTotal(x.model, y.model);
      var i :| 0 <= i < |table| && table[i] == x;
      var j :| 0 <= j < |table| && table[j] == y;
      assert i == j;
    }
  }

  /** Among the active rows of one pair, loading and ranking use the same order. */
  lemma SortedAlikeWithinAPair(rows: seq<Row>, model: string, qty: int)
    requires MachineBaseline.UniqueIds(rows)
    requires forall r :: r in rows ==> r.isActive && r.model == model && r.qty == qty
    ensures SortBy(rows, LoadOrder) == SortBy(rows, Outranks)
  {
    RankingDistinguishes(rows);
    LoadOrderIsTotal();
    SortBySorts(rows, LoadOrder);
    SortBySorts(rows, Outranks);
    SortByPermutes(rows, LoadOrder);
    SortByPermutes(rows, Outranks);
    SortByMembers(rows, LoadOrder);
    var sorted := SortBy(rows, LoadOrder);
    forall i, j | 0 <= i < j < |sorted| ensures Outranks(sorted[i], sorted[j]) {
      assert LoadOrder(sorted[i], sorted[j]) && sorted[i] in rows && sorted[j] in rows;
    }
    SortedArrangementUnique(sorted, SortBy(rows, Outranks), Outranks);
  }

  lemma FilterKeepsIds(table: seq<Row>, p: Row -> bool)
    requires MachineBaseline.UniqueIds(table)
    ensures MachineBaseline.UniqueIds(Filter(table, p))
  {
    FilterKeepsOrder(table, p, (x: Row, y: Row) => x.id != y.id);
  }

  function ActiveOfPair(model: string, qty: int): Row -> bool {
    (row: Row) => row.isActive && row.model == model && row.qty == qty
  }

  /** The first row of a quantity is the same in the loaded rows of a model and in its ranked rows. */
  lemma LoadedFirstIsRankedFirst(table: seq<Row>, model: string, qty: int)
    requires MachineBaseline.UniqueIds(table)
    ensures First(Filter(LoadedRows(table), OfModel(model)), OfQty(qty)) == First(Ranked(table, model), OfQty(qty))
  {
    LoadedPairIsSorted(table, model, qty);
    RankedPairIsSorted(table, model, qty);
    var pair := Filter(table, ActiveOfPair(model, qty));
    FilterKeepsIds(table, ActiveOfPair(model, qty));
    FilterMembers(table, ActiveOfPair(model, qty));
    SortedAlikeWithinAPair(pair, model, qty);
    FirstHeadsTheFilter(Filter(LoadedRows(table), OfModel(model)), OfQty(qty));
    FirstHeadsTheFilter(Ranked(table, model), OfQty(qty));
  }

  lemma LoadedPairIsSorted(table: seq<Row>, model: string, qty: int)
    requires MachineBaseline.UniqueIds(table)
    ensures Filter(Filter(LoadedRows(table), OfModel(model)), OfQty(qty))
      == SortBy(Filter(table, ActiveOfPair(model, qty)), LoadOrder)
  {
    var both := (row: Row) => row.model == model && row.qty == qty;
    var active := Filter(table, IsActive);
    FilterTwice(LoadedRows(table), OfModel(model), OfQty(qty), both);
    FilterKeepsIds(table, IsActive);
    LoadOrderIsTotal();
    LoadOrderDistinguishes(active);
    FilterCommutesWithSort(active, both, LoadOrder);
    FilterTwice(table, IsActive, both, ActiveOfPair(model, qty));
  }

  lemma RankedPairIsSorted(table: seq<Row>, model: string, qty: int)
    requires MachineBaseline.UniqueIds(table)
    ensures Filter(Ranked(table, model), OfQty(qty)) == SortBy(Filter(table, ActiveOfPair(model, qty)), Outranks)
  {
    FilterKeepsIds(table, ActiveOf(model));
    RankingDistinguishes(Filter(table, ActiveOf(model)));
    FilterCommutesWithSort(Filter(table, ActiveOf(model)), OfQty(qty), Outranks);
    FilterTwice(table, ActiveOf(model), OfQty(qty), ActiveOfPair(model, qty));
  }

  /** Being the model list depends only on the first row of each quantity. */
  lemma ModelListReadsFirsts(all: seq<Row>, a: seq<Row>, b: seq<Row>)
    requires IsModelList(all, a) && forall q :: First(a, OfQty(q)) == First(b, OfQty(q))
    ensures IsModelList(all, b)
  {
    forall i | 0 <= i < |b| ensures HasQty(all, b[i].qty) {
      FirstMember(b, OfQty(b[i].qty));
      FirstMember(a, OfQty(b[i].qty));
      var k :| 0 <= k < |a| && a[k] == First(a, OfQty(b[i].qty)).value;
      assert HasQty(all, a[k].qty);
    }
  }

  /** The dict of dicts after these rows: a bucket for every named model that occurs. */
  ghost predicate Buckets(grouped: map<string, Bucket>, models: seq<string>, rows: seq<Row>) {
    && (forall m :: m in models <==> m in grouped)
    && (forall m :: m in grouped <==> m != "" && exists r :: r in rows && r.model == m)
    && forall m :: m in grouped ==> Dedupes(grouped[m].rows, grouped[m].keys, Filter(rows, OfModel(m)))
  }

  function BucketOf(grouped: map<string, Bucket>, model: string): Bucket {
    if model in grouped then grouped[model] else Bucket(map[], [])
  }

  /** A row without a model is passed over. */
  function Grouped(grouped: map<string, Bucket>, row: Row): map<string, Bucket> {
    if row.model == "" then grouped else grouped[row.model := SetDefault(BucketOf(grouped, row.model), row)]
  }

  /** The keys of the dict in insertion order. */
  function WithModel(grouped: map<string, Bucket>, models: seq<string>, row: Row): seq<string> {
    if row.model == "" || row.model in grouped then models else models + [row.model]
  }

  lemma ModelRowsNext(rows: seq<Row>, row: Row, m: string)
    ensures Filter(rows + [row], OfModel(m)) == Filter(rows, OfModel(m)) + if row.model == m then [row] else []
  {
    FilterConcat(rows, [row], OfModel(m));
    assert Filter([row], OfModel(m)) == if row.model == m then [row] else [];
  }

  lemma BucketNext(grouped: map<string, Bucket>, models: seq<string>, rows: seq<Row>, row: Row, m: string)
    requires Buckets(grouped, models, rows) && m in Grouped(grouped, row)
    ensures var b := Grouped(grouped, row)[m]; Dedupes(b.rows, b.keys, Filter(rows + [row], OfModel(m)))
  {
    ModelRowsNext(rows, row, m);
    if row.model == m {
      if m !in grouped { FilterNone(rows, OfModel(m)); }
      DedupesNext(BucketOf(grouped, m), Filter(rows, OfModel(m)), row);
    } else {
      assert Filter(rows, OfModel(m)) + [] == Filter(rows, OfModel(m));
    }
  }

  lemma BucketModelsNext(grouped: map<string, Bucket>, models: seq<string>, rows: seq<Row>, row: Row)
    requires Buckets(grouped, models, rows)
    ensures forall m :: m in Grouped(grouped, row) <==> m != "" && exists r :: r in rows + [row] && r.model == m
  {
    assert forall r :: r in rows + [row] <==> r in rows || r == row;
    assert row in rows + [row];
    forall m | m in grouped ensures exists r :: r in rows + [row] && r.model == m {
      var r :| r in rows && r.model == m;
      assert r in rows + [row];
    }
  }

  lemma BucketsNext(grouped: map<string, Bucket>, models: seq<string>, rows: seq<Row>, row: Row)
    requires Buckets(grouped, models, rows)
    ensures Buckets(Grouped(grouped, row),
                    WithModel(grouped, models, row), rows + [row])
  {
    BucketModelsNext(grouped, models, rows, row);
    forall m | m in Grouped(grouped, row)
      ensures var b := Grouped(grouped, row)[m]; Dedupes(b.rows, b.keys, Filter(rows + [row], OfModel(m)))
    {
      BucketNext(grouped, models, rows, row, m);
    }
  }

  lemma GroupNext(grouped: map<string, Bucket>, models: seq<string>, rows: seq<Row>, i: nat)
    requires i < |rows| && Buckets(grouped, models, rows[..i])
    ensures Buckets(Grouped(grouped, rows[i]), WithModel(grouped, models, rows[i]), rows[..i + 1])
  {
    BucketsNext(grouped, models, rows[..i], rows[i]);
    assert rows[..i + 1] == rows[..i] + [rows[i]];
  }

  method GroupByModel(rows: seq<Row>) returns (grouped: map<string, Bucket>, models: seq<string>)
    ensures Buckets(grouped, models, rows)
  {
    grouped, models := map[], [];
    for i := 0 to |rows|
      invariant Buckets(grouped, models, rows[..i])
    {
      GroupNext(grouped, models, rows, i);
      models := WithModel(grouped, models, rows[i]);
      grouped := Grouped(grouped, rows[i]);
    }
    assert rows[..|rows|] == rows;
  }

  /** The list of every model of the dict. */
  ghost predicate ListsOf(loaded: map<string, seq<Row>>, models: seq<string>, rows: seq<Row>) {
    && (forall m :: m in loaded <==> m in models)
    && forall m :: m in loaded ==> IsModelList(loaded[m], Filter(rows, OfModel(m)))
  }

  lemma ListsNext(loaded: map<string, seq<Row>>, models: seq<string>, i: nat, rows: seq<Row>, all: seq<Row>)
    requires i < |models| && ListsOf(loaded, models[..i], rows) && IsModelList(all, Filter(rows, OfModel(models[i])))
    ensures ListsOf(loaded[models[i] := all], models[..i + 1], rows)
  {
    assert models[..i + 1] == models[..i] + [models[i]];
  }

  method SortBuckets(grouped: map<string, Bucket>, models: seq<string>, ghost rows: seq<Row>)
    returns (loaded: map<string, seq<Row>>)
    requires Buckets(grouped, models, rows)
    ensures ListsOf(loaded, models, rows)
  {
    loaded := map[];
    for i := 0 to |models|
      invariant ListsOf(loaded, models[..i], rows)
    {
      assert models[i] in models;
      var all := SortedBucket(grouped[models[i]], Filter(rows, OfModel(models[i])));
      ListsNext(loaded, models, i, rows, all);
      loaded := loaded[models[i] := all];
    }
    assert models[..|models|] == models;
  }

  /** load_machine_cycle_baselines. */
  method LoadMachineCycleBaselines(table: seq<Row>) returns (loaded: map<string, seq<Row>>)
    requires MachineBaseline.UniqueIds(table)
    ensures forall m :: m in loaded <==> m != "" && exists r :: r in table && r.isActive && r.model == m
    ensures forall m :: m != "" ==> IsModelList(ListOf(loaded, m), Ranked(table, m))
  {
    var grouped, models := GroupByModel(LoadedRows(table));
    loaded := SortBuckets(grouped, models, LoadedRows(table));
    LoadedModels(table, grouped, models);
    forall m | m != "" ensures IsModelList(ListOf(loaded, m), Ranked(table, m)) {
      LoadedListIsModelList(table, loaded, m);
    }
  }

  lemma LoadedModels(table: seq<Row>, grouped: map<string, Bucket>, models: seq<string>)
    requires Buckets(grouped, models, LoadedRows(table))
    ensures forall m :: m in models <==> m != "" && exists r :: r in table && r.isActive && r.model == m
  {
    FilterMembers(table, IsActive);
    SortByMembers(Filter(table, IsActive), LoadOrder);
    assert forall r :: r in LoadedRows(table) <==> r in table && r.isActive;
  }

  lemma LoadedListIsModelList(table: seq<Row>, loaded: map<string, seq<Row>>, m: string)
    requires MachineBaseline.UniqueIds(table)
    requires m in loaded ==> IsModelList(loaded[m], Filter(LoadedRows(table), OfModel(m)))
    requires m !in loaded ==> forall r :: r in table && r.isActive ==> r.model != m
    ensures IsModelList(ListOf(loaded, m), Ranked(table, m))
  {
    if m in loaded {
      forall q ensures First(Filter(LoadedRows(table), OfModel(m)), OfQty(q)) == First(Ranked(table, m), OfQty(q)) {
        LoadedFirstIsRankedFirst(table, m, q);
      }
      ModelListReadsFirsts(loaded[m], Filter(LoadedRows(table), OfModel(m)), Ranked(table, m));
    } else {
      FilterNone(table, ActiveOf(m));
    }
  }

  /** With one active row per pair, the exact query finds the row that carries the published data. */
  lemma ExactQueryFindsTheActiveRow(table: seq<Row>, pair: (string, int), series: string, data: Data)
    requires OneActivePerPair(table) && Carries(table, pair, series, data)
    ensures var found := FindByModelAndQty(table, pair.0, pair.1);
      found.Some? && found.value.median == data.median && found.value.samples == data.samples
        && found.value.series == Some(series)
  {
    var p := (row: Row) => row.model == pair.0 && row.qty == pair.1 && row.isActive;
    var matches := Filter(table, p);
    FilterMembers(table, p);
    SortByMembers(matches, Outranks);
    var i :| 0 <= i < |table| && table[i].isActive && Pair(table[i]) == pair
        && table[i].series == Some(series) && table[i].median == data.median && table[i].samples == data.samples;
    var sorted := SortBy(matches, Outranks);
    assert p(table[i]) && table[i] in sorted;
    assert sorted[0] in sorted && sorted[0] in matches && sorted[0] in table && p(sorted[0]);
    var j :| 0 <= j < |table| && table[j] == sorted[0];
    assert i == j;
  }

  /**
   After a rebuild, an order for a quantity of the history is given the median of the last group of its model
   and quantity, by the querying lookup and hence by every lookup.
  */
  lemma RebuildDecidesTheCycle(s: State, now: int, history: seq<HistoryRow>, k: nat, all: seq<Row>)
    requires ValidState(s)
    requires var keys := GroupKeys(Filter(history, HasCycle));
      && k < |keys| && keys[k].1 != "" && keys[k].2 != 0
      && forall i :: k < i < |keys| ==> (keys[i].1, keys[i].2) != (keys[k].1, keys[k].2)
    ensures var rows := Filter(history, HasCycle);
      var key := GroupKeys(rows)[k];
      QueriedCycle(Rebuilt(s, now, history).table, all, Some(key.1), Some(key.2))
        == MachineCycle(Summary(CycleValues(rows, key)).median, false)
  {
    var rows := Filter(history, HasCycle);
    var key := GroupKeys(rows)[k];
    RebuildLeavesOneActivePerPair(s, now, history);
    DeactivationKeepsTheBest(s.table, now);
    LastGroupOfAPairWins(State(WithoutDuplicates(s.table, now), s.nextId), now, rows, GroupKeys(rows), k);
    ExactQueryFindsTheActiveRow(Rebuilt(s, now, history).table, (key.1, key.2), key.0, Summary(CycleValues(rows, key)));
  }
}
