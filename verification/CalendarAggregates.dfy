/**
 The per-day statistics of the schedule calendar, written three ways: a loop over the day's rows, one pass of
 conditional sums, and a grouped query merged into a dict
 (app/repository/order_schedule_snapshot_calendar_helper.py).
*/
module CalendarAggregates {
  import opened Prelude
  import opened Sorting

  /** One day, in microseconds. */
  const DAY := 86_400_000_000

  /** Instants are in microseconds, quantities in ten-thousandths. */
  datatype Snapshot = Snapshot(
    orderLineId: int,
    quantity: Option<int>,
    delivery: Option<int>,
    trigger: Option<int>,
    plannedStart: Option<int>,
    isScheduled: bool,
    isAbnormal: bool)

  datatype Field = Delivery | Trigger | PlannedStart

  datatype Stats = Stats(count: nat, quantity: int)

  datatype DaySummary = DaySummary(delivery: Stats, trigger: Stats, plannedStart: Stats)

  const NO_STATS := Stats(0, 0)

  function Of(summary: DaySummary, field: Field): Stats {
    match field
    case Delivery => summary.delivery
    case Trigger => summary.trigger
    case PlannedStart => summary.plannedStart
  }

  function At(row: Snapshot, field: Field): Option<int> {
    match field
    case Delivery => row.delivery
    case Trigger => row.trigger
    case PlannedStart => row.plannedStart
  }

  function Quantity(row: Snapshot): int {
    row.quantity.GetOr(0)
  }

  /** date_window: midnight to midnight, the end excluded. */
  function InWindow(field: Field, start: int, end: int): Snapshot -> bool {
    (row: Snapshot) => At(row, field).Some? && start * DAY <= At(row, field).value < end * DAY
  }

  /** day_range. */
  function OnDay(field: Field, day: int): Snapshot -> bool {
    InWindow(field, day, day + 1)
  }

  function Total(rows: seq<Snapshot>): int {
    if rows == [] then 0 else Quantity(rows[0]) + Total(rows[1..])
  }

  function StatsOf(rows: seq<Snapshot>): Stats {
    Stats(|rows|, Total(rows))
  }

  // ---- first form: the loop over the day's rows ----

  /** Nulls last, ascending. */
  predicate NullsLast(a: Option<int>, b: Option<int>) {
    b.None? || (a.Some? && a.value <= b.value)
  }

  predicate DetailOrder(x: Snapshot, y: Snapshot) {
    if x.delivery != y.delivery then NullsLast(x.delivery, y.delivery)
    else if x.plannedStart != y.plannedStart then NullsLast(x.plannedStart, y.plannedStart)
    else x.orderLineId <= y.orderLineId
  }

  function Touches(day: int): Snapshot -> bool {
    (row: Snapshot) => OnDay(Delivery, day)(row) || OnDay(Trigger, day)(row) || OnDay(PlannedStart, day)(row)
  }

  function DayRows(table: seq<Snapshot>, day: int): seq<Snapshot> {
    SortBy(Filter(table, Touches(day)), DetailOrder)
  }

  datatype Detail = Detail(summary: DaySummary, deliveryOrders: seq<Snapshot>, triggerOrders: seq<Snapshot>,
                           plannedStartOrders: seq<Snapshot>)

  /** The summary of the day's lists. */
  function DetailSummary(table: seq<Snapshot>, day: int): DaySummary {
    var rows := DayRows(table, day);
    DaySummary(StatsOf(Filter(rows, OnDay(Delivery, day))), StatsOf(Filter(rows, OnDay(Trigger, day))),
               StatsOf(Filter(rows, OnDay(PlannedStart, day))))
  }

  /** What the loop has collected for one field after the first i rows. */
  ghost predicate Collected(rows: seq<Snapshot>, i: nat, field: Field, day: int, orders: seq<Snapshot>, sum: int)
    requires i <= |rows|
  {
    orders == Filter(rows[..i], OnDay(field, day)) && sum == Total(orders)
  }

  lemma CollectNext(rows: seq<Snapshot>, i: nat, field: Field, day: int, orders: seq<Snapshot>, sum: int)
    requires i < |rows| && Collected(rows, i, field, day, orders, sum)
    ensures if OnDay(field, day)(rows[i])
      then Collected(rows, i + 1, field, day, orders + [rows[i]], sum + Quantity(rows[i]))
      else Collected(rows, i + 1, field, day, orders, sum)
  {
    FilterNext(rows, i, OnDay(field, day));
    TotalConcat(orders, [rows[i]]);
  }

  method GetCalendarDayDetail(table: seq<Snapshot>, day: int) returns (detail: Detail)
    ensures detail.deliveryOrders == Filter(DayRows(table, day), OnDay(Delivery, day))
    ensures detail.triggerOrders == Filter(DayRows(table, day), OnDay(Trigger, day))
    ensures detail.plannedStartOrders == Filter(DayRows(table, day), OnDay(PlannedStart, day))
    ensures detail.summary == DetailSummary(table, day)
  {
    var rows := DayRows(table, day);
    var start, end := day * DAY, (day + 1) * DAY;
    var deliveries: seq<Snapshot>, triggers: seq<Snapshot>, starts: seq<Snapshot> := [], [], [];
    var deliverySum, triggerSum, startSum := 0, 0, 0;
    for i := 0 to |rows|
      invariant Collected(rows, i, Delivery, day, deliveries, deliverySum)
      invariant Collected(rows, i, Trigger, day, triggers, triggerSum)
      invariant Collected(rows, i, PlannedStart, day, starts, startSum)
    {
      var row := rows[i];
      var quantity := row.quantity.GetOr(0);
      CollectNext(rows, i, Delivery, day, deliveries, deliverySum);
      CollectNext(rows, i, Trigger, day, triggers, triggerSum);
      CollectNext(rows, i, PlannedStart, day, starts, startSum);
      if row.delivery.Some? && start <= row.delivery.value < end {
        deliveries := deliveries + [row];
        deliverySum := deliverySum + quantity;
      }
      if row.trigger.Some? && start <= row.trigger.value < end {
        triggers := triggers + [row];
        triggerSum := triggerSum + quantity;
      }
      if row.plannedStart.Some? && start <= row.plannedStart.value < end {
        starts := starts + [row];
        startSum := startSum + quantity;
      }
    }
    assert rows[..|rows|] == rows;
    detail := Detail(DaySummary(Stats(|deliveries|, deliverySum), Stats(|triggers|, triggerSum),
                                Stats(|starts|, startSum)),
                     deliveries, triggers, starts);
  }

  lemma FilterNext(rows: seq<Snapshot>, i: nat, p: Snapshot -> bool)
    requires i < |rows|
    ensures Filter(rows[..i + 1], p) == Filter(rows[..i], p) + if p(rows[i]) then [rows[i]] else []
  {
    assert rows[..i + 1] == rows[..i] + [rows[i]];
    FilterConcat(rows[..i], [rows[i]], p);
  }

  lemma {:induction false} TotalConcat(a: seq<Snapshot>, b: seq<Snapshot>)
    ensures Total(a + b) == Total(a) + Total(b)
  {
    if a == [] {
      assert a + b == b;
    } else {
      assert (a + b)[1..] == a[1..] + b;
      TotalConcat(a[1..], b);
    }
  }

  // ---- second form: one pass of conditional sums ----

  function CountCase(table: seq<Snapshot>, field: Field, day: int): nat {
    if table == [] then 0
    else (if OnDay(field, day)(table[0]) then 1 else 0) + CountCase(table[1..], field, day)
  }

  function QuantityCase(table: seq<Snapshot>, field: Field, day: int): int {
    if table == [] then 0
    else (if OnDay(field, day)(table[0]) then Quantity(table[0]) else 0) + QuantityCase(table[1..], field, day)
  }

  function SummarizeCalendarDay(table: seq<Snapshot>, day: int): DaySummary {
    DaySummary(Stats(CountCase(table, Delivery, day), QuantityCase(table, Delivery, day)),
               Stats(CountCase(table, Trigger, day), QuantityCase(table, Trigger, day)),
               Stats(CountCase(table, PlannedStart, day), QuantityCase(table, PlannedStart, day)))
  }

  // ---- third form: grouped rows merged into a dict ----

  /** One row of the union of grouped queries. */
  datatype GroupRow = GroupRow(field: Field, day: int, stats: Stats)

  /** func.date(column). */
  function DateOf(at: int): int { at / DAY }

  function Grouped(field: Field, start: int, end: int, day: int): Snapshot -> bool {
    (row: Snapshot) => InWindow(field, start, end)(row) && DateOf(At(row, field).value) == day
  }

  /** The grouped queries return, in any order, one row for each field and day that has rows in the window. */
  ghost predicate IsUnion(result: seq<GroupRow>, table: seq<Snapshot>, start: int, end: int) {
    && (forall i, j :: 0 <= i < j < |result| ==> (result[i].field, result[i].day) != (result[j].field, result[j].day))
    && (forall i :: 0 <= i < |result| ==>
         result[i].stats == StatsOf(Filter(table, Grouped(result[i].field, start, end, result[i].day))))
    && (forall field, day :: Filter(table, Grouped(field, start, end, day)) != [] ==>
         HasGroup(result, |result|, field, day))
  }

  ghost predicate HasGroup(result: seq<GroupRow>, n: nat, field: Field, day: int) {
    exists i :: 0 <= i < n && i < |result| && result[i].field == field && result[i].day == day
  }

  /** The dict of a day: a field without rows has no entry. */
  type Payload = map<Field, Stats>

  method AggregateCalendarDistribution(result: seq<GroupRow>) returns (aggregated: map<int, Payload>)
    requires forall i, j :: 0 <= i < j < |result| ==>
      (result[i].field, result[i].day) != (result[j].field, result[j].day)
    ensures forall i :: 0 <= i < |result| ==> Entry(aggregated, result[i].field, result[i].day) == Some(result[i].stats)
    ensures forall field, day :: Entry(aggregated, field, day).Some? ==> HasGroup(result, |result|, field, day)
  {
    aggregated := map[];
    for n := 0 to |result|
      invariant forall i :: 0 <= i < n ==> Entry(aggregated, result[i].field, result[i].day) == Some(result[i].stats)
      invariant forall field, day :: Entry(aggregated, field, day).Some? ==> HasGroup(result, n, field, day)
    {
      var r := result[n];
      ghost var before := aggregated;
      forall field, day | HasGroup(result, n, field, day) || (field == r.field && day == r.day)
        ensures HasGroup(result, n + 1, field, day)
      {
        if field == r.field && day == r.day { assert result[n].field == field; }
      }
      if r.day !in aggregated { aggregated := aggregated[r.day := map[]]; }
      aggregated := aggregated[r.day := aggregated[r.day][r.field := r.stats]];
      assert forall f, d ::
        Entry(aggregated, f, d) == if f == r.field && d == r.day then Some(r.stats) else Entry(before, f, d);
    }
  }

  function Entry(aggregated: map<int, Payload>, field: Field, day: int): Option<Stats> {
    if day in aggregated && field in aggregated[day] then Some(aggregated[day][field]) else None
  }

  // ---- the three forms agree ----

  lemma {:induction false} TotalForgetsOrder(a: seq<Snapshot>, b: seq<Snapshot>)
    requires multiset(a) == multiset(b)
    ensures Total(a) == Total(b)
  {
    SameMembers(a, b);
    if a != [] {
      var before, after := PullFront(a, b);
      TotalForgetsOrder(a[1..], before + after);
      TotalConcat(before, [a[0]] + after);
      TotalConcat(before, after);
      assert ([a[0]] + after)[1..] == after;
    }
  }

  lemma {:induction false} CasesCountTheDay(table: seq<Snapshot>, field: Field, day: int)
    ensures Stats(CountCase(table, field, day), QuantityCase(table, field, day))
      == StatsOf(Filter(table, OnDay(field, day)))
  {
    if table != [] {
      CasesCountTheDay(table[1..], field, day);
      var rest := Filter(table[1..], OnDay(field, day));
      TotalConcat([table[0]], rest);
      assert Filter(table, OnDay(field, day)) == if OnDay(field, day)(table[0]) then [table[0]] + rest else rest;
    }
  }

  lemma DetailCountsTheDay(table: seq<Snapshot>, field: Field, day: int)
    ensures StatsOf(Filter(DayRows(table, day), OnDay(field, day))) == StatsOf(Filter(table, OnDay(field, day)))
  {
    var touched, p := Filter(table, Touches(day)), OnDay(field, day);
    SortByPermutes(touched, DetailOrder);
    FilterForgetsStoredOrder(DayRows(table, day), touched, p);
    TotalForgetsOrder(Filter(DayRows(table, day), p), Filter(touched, p));
    SameMembers(Filter(DayRows(table, day), p), Filter(touched, p));
    FilterTwice(table, Touches(day), p, p);
  }

  lemma DayOfInstant(at: int, start: int, end: int, day: int)
    requires start <= day < end
    ensures (start * DAY <= at < end * DAY && DateOf(at) == day) <==> day * DAY <= at < (day + 1) * DAY
  {
  }

  lemma GroupedIsOnDay(row: Snapshot, field: Field, start: int, end: int, day: int)
    requires start <= day < end
    ensures Grouped(field, start, end, day)(row) == OnDay(field, day)(row)
  {
    var at := At(row, field);
    if at.Some? {
      DayOfInstant(at.value, start, end, day);
      assert OnDay(field, day)(row) == (day * DAY <= at.value < (day + 1) * DAY);
      assert InWindow(field, start, end)(row) == (start * DAY <= at.value < end * DAY);
      assert Grouped(field, start, end, day)(row) == (InWindow(field, start, end)(row) && DateOf(at.value) == day);
    } else {
      assert !InWindow(field, start, end)(row) && !OnDay(field, day)(row);
    }
  }

  lemma GroupIsTheDay(table: seq<Snapshot>, field: Field, start: int, end: int, day: int)
    requires start <= day < end
    ensures Filter(table, Grouped(field, start, end, day)) == Filter(table, OnDay(field, day))
  {
    forall row: Snapshot ensures Grouped(field, start, end, day)(row) == OnDay(field, day)(row) {
      GroupedIsOnDay(row, field, start, end, day);
    }
    FilterAgrees(table, Grouped(field, start, end, day), OnDay(field, day));
  }

  /**
   For every table and day, the summary of the detail loop, the one-pass summary and the entry of any monthly
   distribution that covers the day (no entry meaning zero) are the same, for each of the three date fields.
  */
  lemma DayStatisticsAgree(table: seq<Snapshot>, field: Field, start: int, end: int, day: int,
                           result: seq<GroupRow>, aggregated: map<int, Payload>)
    requires start <= day < end && IsUnion(result, table, start, end)
    requires forall i :: 0 <= i < |result| ==>
      Entry(aggregated, result[i].field, result[i].day) == Some(result[i].stats)
    requires forall f, d :: Entry(aggregated, f, d).Some? ==> HasGroup(result, |result|, f, d)
    ensures Of(DetailSummary(table, day), field) == Of(SummarizeCalendarDay(table, day), field)
    ensures Of(DetailSummary(table, day), field) == Entry(aggregated, field, day).GetOr(NO_STATS)
  {
    DetailCountsTheDay(table, field, day);
    CasesCountTheDay(table, field, day);
    GroupIsTheDay(table, field, start, end, day);
    if Entry(aggregated, field, day).Some? {
      var i :| 0 <= i < |result| && result[i].field == field && result[i].day == day;
      assert result[i].stats == StatsOf(Filter(table, Grouped(field, start, end, day)));
    } else {
      assert Filter(table, Grouped(field, start, end, day)) == [];
    }
  }

  lemma DetailOrderIsTotal()
    ensures TotalPreorder(DetailOrder)
  {
  }

  lemma DetailOrderDistinguishes(rows: seq<Snapshot>)
    requires forall x, y :: x in rows && y in rows && x.orderLineId == y.orderLineId ==> x == y
    ensures Distinguishes(rows, DetailOrder)
  {
  }

  /** The lists of the day detail are the lists of the per-field query. */
  lemma DetailListsAreTheFieldLists(table: seq<Snapshot>, field: Field, day: int)
    requires forall x, y :: x in table && y in table && x.orderLineId == y.orderLineId ==> x == y
    ensures Filter(DayRows(table, day), OnDay(field, day)) == SortBy(Filter(table, OnDay(field, day)), DetailOrder)
  {
    var touched, p := Filter(table, Touches(day)), OnDay(field, day);
    FilterMembers(table, Touches(day));
    DetailOrderIsTotal();
    DetailOrderDistinguishes(touched);
    FilterCommutesWithSort(touched, p, DetailOrder);
    FilterTwice(table, Touches(day), p, p);
  }

  // ---- the day in terms of the rows ----

  /** The instant of the field is on the day: from its midnight up to but not including the next. */
  predicate FallsOn(row: Snapshot, field: Field, day: int) {
    match field
    case Delivery => row.delivery.Some? && day * 86_400_000_000 <= row.delivery.value < (day + 1) * 86_400_000_000
    case Trigger => row.trigger.Some? && day * 86_400_000_000 <= row.trigger.value < (day + 1) * 86_400_000_000
    case PlannedStart =>
      row.plannedStart.Some? && day * 86_400_000_000 <= row.plannedStart.value < (day + 1) * 86_400_000_000
  }

  /** By delivery, then by planned start, a missing instant after all others, then by order line. */
  predicate IsListedBefore(x: Snapshot, y: Snapshot) {
    if x.delivery != y.delivery then
      x.delivery.Some? && (y.delivery.None? || x.delivery.value < y.delivery.value)
    else if x.plannedStart != y.plannedStart then
      x.plannedStart.Some? && (y.plannedStart.None? || x.plannedStart.value < y.plannedStart.value)
    else x.orderLineId <= y.orderLineId
  }

  lemma FallsOnIsOnDay(row: Snapshot, field: Field, day: int)
    ensures FallsOn(row, field, day) <==> OnDay(field, day)(row)
  {
  }

  lemma DayListHolds(table: seq<Snapshot>, field: Field, day: int)
    ensures multiset(Filter(DayRows(table, day), OnDay(field, day)))
      == multiset(Filter(table, (row: Snapshot) => FallsOn(row, field, day)))
  {
    var touched, p := Filter(table, Touches(day)), OnDay(field, day);
    SortByPermutes(touched, DetailOrder);
    FilterForgetsStoredOrder(DayRows(table, day), touched, p);
    FilterTwice(table, Touches(day), p, p);
    forall row: Snapshot ensures FallsOn(row, field, day) == p(row) { FallsOnIsOnDay(row, field, day); }
    FilterAgrees(table, p, (row: Snapshot) => FallsOn(row, field, day));
  }

  lemma OrderedIsListedBefore(x: Snapshot, y: Snapshot)
    ensures DetailOrder(x, y) ==> IsListedBefore(x, y)
  {
  }

  lemma DayListAscends(table: seq<Snapshot>, field: Field, day: int, i: nat, j: nat)
    requires i < j < |Filter(DayRows(table, day), OnDay(field, day))|
    ensures var list := Filter(DayRows(table, day), OnDay(field, day)); IsListedBefore(list[i], list[j])
  {
    var list := Filter(DayRows(table, day), OnDay(field, day));
    DetailOrderIsTotal();
    SortBySorts(Filter(table, Touches(day)), DetailOrder);
    FilterKeepsOrder(DayRows(table, day), OnDay(field, day), DetailOrder);
    OrderedIsListedBefore(list[i], list[j]);
  }

  /** A list of the day detail holds each row as often as the table does if it falls on the day, and in order. */
  lemma DayListExactly(table: seq<Snapshot>, field: Field, day: int)
    ensures var list := Filter(DayRows(table, day), OnDay(field, day));
      && multiset(list) == multiset(Filter(table, (row: Snapshot) => FallsOn(row, field, day)))
      && forall i, j :: 0 <= i < j < |list| ==> IsListedBefore(list[i], list[j])
  {
    DayListHolds(table, field, day);
    var list := Filter(DayRows(table, day), OnDay(field, day));
    forall i, j | 0 <= i < j < |list| ensures IsListedBefore(list[i], list[j]) {
      DayListAscends(table, field, day, i, j);
    }
  }

  /** The quantities of the rows, one missing counting as zero, add up. */
  lemma TotalAddsUp(rows: seq<Snapshot>, row: Snapshot)
    ensures Total([]) == 0
    ensures Total(rows + [row]) == Total(rows) + if row.quantity.Some? then row.quantity.value else 0
  {
    TotalConcat(rows, [row]);
    assert [row][1..] == [];
  }

  lemma {:induction false} ComplementsAddUp(rows: seq<Snapshot>, p: Snapshot -> bool)
    ensures |Filter(rows, p)| + |Filter(rows, r => !p(r))| == |rows|
  {
    if rows != [] { ComplementsAddUp(rows[1..], p); }
  }

  /** Of the rows of a window, those that are scheduled and those that are not, and so for abnormal ones, add up. */
  lemma WindowCountsAddUp(table: seq<Snapshot>, field: Field, start: int, end: int)
    ensures var w, rows := SummarizeWindow(table, field, start, end), Filter(table, InWindow(field, start, end));
      && |Filter(rows, (r: Snapshot) => r.isScheduled)| + w.unscheduled == w.count
      && w.abnormal + |Filter(rows, (r: Snapshot) => !r.isAbnormal)| == w.count
  {
    var rows, scheduled, abnormal := Filter(table, InWindow(field, start, end)), (r: Snapshot) => r.isScheduled,
                                     (r: Snapshot) => r.isAbnormal;
    ComplementsAddUp(rows, scheduled);
    ComplementsAddUp(rows, abnormal);
    FilterAgrees(rows, r => !scheduled(r), (r: Snapshot) => !r.isScheduled);
    FilterAgrees(rows, r => !abnormal(r), (r: Snapshot) => !r.isAbnormal);
  }

  // ---- a window is the sum of its days ----

  /** summarize_date_field_window. */
  datatype WindowSummary = WindowSummary(count: nat, unscheduled: nat, abnormal: nat)

  function SummarizeWindow(table: seq<Snapshot>, field: Field, start: int, end: int): WindowSummary {
    var rows := Filter(table, InWindow(field, start, end));
    WindowSummary(|rows|, |Filter(rows, (r: Snapshot) => !r.isScheduled)|,
                  |Filter(rows, (r: Snapshot) => r.isAbnormal)|)
  }

  function CountOverDays(table: seq<Snapshot>, field: Field, start: int, end: int): nat
    decreases end - start
  {
    if end <= start then 0 else |Filter(table, OnDay(field, start))| + CountOverDays(table, field, start + 1, end)
  }

  lemma {:induction false} WindowSplits(table: seq<Snapshot>, field: Field, start: int, mid: int, end: int)
    requires start <= mid <= end
    ensures |Filter(table, InWindow(field, start, end))|
      == |Filter(table, InWindow(field, start, mid))| + |Filter(table, InWindow(field, mid, end))|
  {
    if table != [] { WindowSplits(table[1..], field, start, mid, end); }
  }

  lemma {:induction false} EmptyWindow(table: seq<Snapshot>, field: Field, start: int, end: int)
    requires end <= start
    ensures Filter(table, InWindow(field, start, end)) == []
  {
    if table != [] { EmptyWindow(table[1..], field, start, end); }
  }

  /** The per-day counts of a window add up to the window's own count. */
  lemma {:induction false} WindowIsTheSumOfItsDays(table: seq<Snapshot>, field: Field, start: int, end: int)
    ensures CountOverDays(table, field, start, end) == SummarizeWindow(table, field, start, end).count
    decreases end - start
  {
    if end <= start {
      EmptyWindow(table, field, start, end);
    } else {
      WindowSplits(table, field, start, start + 1, end);
      WindowIsTheSumOfItsDays(table, field, start + 1, end);
    }
  }

  /** The counts of the distribution's entries, over the days of a window. */
  function EntryCounts(aggregated: map<int, Payload>, field: Field, start: int, end: int): nat
    decreases end - start
  {
    if end <= start then 0
    else Entry(aggregated, field, start).GetOr(NO_STATS).count + EntryCounts(aggregated, field, start + 1, end)
  }

  lemma {:induction false} EntriesCountTheDays(table: seq<Snapshot>, field: Field, start: int, from: int, end: int,
                                               result: seq<GroupRow>, aggregated: map<int, Payload>)
    requires start <= from && IsUnion(result, table, start, end)
    requires forall i :: 0 <= i < |result| ==>
      Entry(aggregated, result[i].field, result[i].day) == Some(result[i].stats)
    requires forall f, d :: Entry(aggregated, f, d).Some? ==> HasGroup(result, |result|, f, d)
    ensures EntryCounts(aggregated, field, from, end) == CountOverDays(table, field, from, end)
    decreases end - from
  {
    if from < end {
      EntriesCountTheDays(table, field, start, from + 1, end, result, aggregated);
      DayStatisticsAgree(table, field, start, end, from, result, aggregated);
      DetailCountsTheDay(table, field, from);
    }
  }

  /** The counts of a distribution, summed over the days of its window, are the window's own count. */
  lemma DistributionAddsUp(table: seq<Snapshot>, field: Field, start: int, end: int, result: seq<GroupRow>,
                           aggregated: map<int, Payload>)
    requires IsUnion(result, table, start, end)
    requires forall i :: 0 <= i < |result| ==>
      Entry(aggregated, result[i].field, result[i].day) == Some(result[i].stats)
    requires forall f, d :: Entry(aggregated, f, d).Some? ==> HasGroup(result, |result|, f, d)
    ensures EntryCounts(aggregated, field, start, end) == SummarizeWindow(table, field, start, end).count
  {
    EntriesCountTheDays(table, field, start, start, end, result, aggregated);
    WindowIsTheSumOfItsDays(table, field, start, end);
  }

  // ---- the grouped queries have a result ----

  function GroupRows(table: seq<Snapshot>, field: Field, start: int, end: int, from: int): seq<GroupRow>
    decreases end - from
  {
    if end <= from then []
    else
      var rows := Filter(table, Grouped(field, start, end, from));
      (if rows == [] then [] else [GroupRow(field, from, StatsOf(rows))])
      + GroupRows(table, field, start, end, from + 1)
  }

  ghost predicate IsGroup(g: GroupRow, table: seq<Snapshot>, field: Field, start: int, end: int) {
    g.field == field && g.stats == StatsOf(Filter(table, Grouped(field, start, end, g.day)))
  }

  /** Rows of one field, by ascending day, one for each day from `from` on that has rows. */
  ghost predicate IsFieldGroups(groups: seq<GroupRow>, table: seq<Snapshot>, field: Field, start: int, end: int,
                                from: int) {
    && (forall i :: 0 <= i < |groups| ==> IsGroup(groups[i], table, field, start, end) && from <= groups[i].day)
    && (forall i, j :: 0 <= i < j < |groups| ==> groups[i].day < groups[j].day)
    && forall day :: from <= day < end && Filter(table, Grouped(field, start, end, day)) != [] ==>
      HasGroup(groups, |groups|, field, day)
  }

  lemma FirstGroup(g: GroupRow, groups: seq<GroupRow>, table: seq<Snapshot>, field: Field, start: int, end: int)
    requires g.day < end && IsFieldGroups(groups, table, field, start, end, g.day + 1)
      && IsGroup(g, table, field, start, end)
    ensures IsFieldGroups([g] + groups, table, field, start, end, g.day)
  {
    forall day | g.day <= day < end && Filter(table, Grouped(field, start, end, day)) != []
      ensures HasGroup([g] + groups, |[g] + groups|, field, day)
    {
      GroupsConcat([g], groups, field, day);
      if day == g.day { assert [g][0].field == field; }
    }
  }

  lemma NoFirstGroup(groups: seq<GroupRow>, table: seq<Snapshot>, field: Field, start: int, end: int, from: int)
    requires IsFieldGroups(groups, table, field, start, end, from + 1)
      && Filter(table, Grouped(field, start, end, from)) == []
    ensures IsFieldGroups(groups, table, field, start, end, from)
  {
  }

  lemma {:induction false} GroupRowsAreTheGroups(table: seq<Snapshot>, field: Field, start: int, end: int, from: int)
    ensures IsFieldGroups(GroupRows(table, field, start, end, from), table, field, start, end, from)
    decreases end - from
  {
    if from < end {
      var rows, rest := Filter(table, Grouped(field, start, end, from)), GroupRows(table, field, start, end, from + 1);
      GroupRowsAreTheGroups(table, field, start, end, from + 1);
      if rows == [] {
        NoFirstGroup(rest, table, field, start, end, from);
        assert [] + rest == rest;
      } else {
        FirstGroup(GroupRow(field, from, StatsOf(rows)), rest, table, field, start, end);
      }
    }
  }

  /** A day outside the window has no group. */
  lemma NoGroupOutside(table: seq<Snapshot>, field: Field, start: int, end: int, day: int)
    requires !(start <= day < end)
    ensures Filter(table, Grouped(field, start, end, day)) == []
  {
    forall row: Snapshot ensures !Grouped(field, start, end, day)(row) {
      if InWindow(field, start, end)(row) { DateIsInWindow(At(row, field).value, start, end); }
    }
    FilterNone(table, Grouped(field, start, end, day));
  }

  lemma DateIsInWindow(at: int, start: int, end: int)
    requires start * DAY <= at < end * DAY
    ensures start <= DateOf(at) < end
  {
  }

  lemma GroupsConcat(a: seq<GroupRow>, b: seq<GroupRow>, field: Field, day: int)
    ensures HasGroup(a + b, |a + b|, field, day) <==> HasGroup(a, |a|, field, day) || HasGroup(b, |b|, field, day)
  {
    if i :| 0 <= i < |b| && b[i].field == field && b[i].day == day { assert (a + b)[|a| + i] == b[i]; }
    if i :| 0 <= i < |a| && a[i].field == field && a[i].day == day { assert (a + b)[i] == a[i]; }
  }

  /** A result that covers these fields. */
  ghost predicate Covers(result: seq<GroupRow>, table: seq<Snapshot>, start: int, end: int, fields: set<Field>) {
    && (forall i, j :: 0 <= i < j < |result| ==> (result[i].field, result[i].day) != (result[j].field, result[j].day))
    && (forall i :: 0 <= i < |result| ==>
         result[i].field in fields && IsGroup(result[i], table, result[i].field, start, end))
    && forall field, day :: field in fields && Filter(table, Grouped(field, start, end, day)) != [] ==>
      HasGroup(result, |result|, field, day)
  }

  lemma FieldGroupsCover(table: seq<Snapshot>, field: Field, start: int, end: int)
    ensures Covers(GroupRows(table, field, start, end, start), table, start, end, {field})
  {
    GroupRowsAreTheGroups(table, field, start, end, start);
    forall day | Filter(table, Grouped(field, start, end, day)) != [] ensures start <= day < end {
      if !(start <= day < end) { NoGroupOutside(table, field, start, end, day); }
    }
  }

  lemma CoversJoin(a: seq<GroupRow>, b: seq<GroupRow>, table: seq<Snapshot>, start: int, end: int, f: set<Field>,
                   g: set<Field>)
    requires Covers(a, table, start, end, f) && Covers(b, table, start, end, g) && f !! g
    ensures Covers(a + b, table, start, end, f + g)
  {
    forall field, day | field in f + g && Filter(table, Grouped(field, start, end, day)) != []
      ensures HasGroup(a + b, |a + b|, field, day)
    {
      GroupsConcat(a, b, field, day);
    }
  }

  lemma CoversAll(result: seq<GroupRow>, table: seq<Snapshot>, start: int, end: int)
    requires Covers(result, table, start, end, {Delivery, Trigger} + {PlannedStart})
    ensures IsUnion(result, table, start, end)
  {
    forall field: Field ensures field in {Delivery, Trigger} + {PlannedStart} {
      match field
      case Delivery =>
      case Trigger =>
      case PlannedStart =>
    }
  }

  /** Every table has such a union of grouped rows, so the statements about it are never empty. */
  lemma UnionExists(table: seq<Snapshot>, start: int, end: int) returns (result: seq<GroupRow>)
    ensures IsUnion(result, table, start, end)
  {
    var d, t, p := GroupRows(table, Delivery, start, end, start), GroupRows(table, Trigger, start, end, start),
                   GroupRows(table, PlannedStart, start, end, start);
    FieldGroupsCover(table, Delivery, start, end);
    FieldGroupsCover(table, Trigger, start, end);
    FieldGroupsCover(table, PlannedStart, start, end);
    CoversJoin(d, t, table, start, end, {Delivery}, {Trigger});
    assert {Delivery} + {Trigger} == {Delivery, Trigger};
    CoversJoin(d + t, p, table, start, end, {Delivery, Trigger}, {PlannedStart});
    result := (d + t) + p;
    CoversAll(result, table, start, end);
  }
}
