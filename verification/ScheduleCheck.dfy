/**
 Whether an order can be scheduled, and its machine schedule: two services that compute the same date from
 different windows of the work calendar
 (app/scheduler/schedule_check_service.py, app/scheduler/machine_schedule_service.py).
*/
module ScheduleCheck {
  import opened Prelude
  import opened WorkCalendar
  import opened MachineCycleLookup
  import MachineBaseline

  datatype Order = Order(
    id: int,
    materialNo: Option<string>,
    plant: Option<string>,
    productModel: Option<string>,
    quantity: Option<int>,
    confirmedDelivery: Option<Date>,
    drawingReleased: bool)

  datatype CheckResult =
    | NotFound
    | PendingDelivery
    | PendingDrawing
    | MissingBom
    | PendingTrigger(trigger: Date, cycle: MachineCycle)
    | Schedulable(trigger: Date, cycle: MachineCycle)

  /** The check's window: thirty days before today to thirty days after delivery. */
  function CheckWindow(workCalendar: Calendar, today: Date, delivery: Date): Calendar {
    Window(workCalendar, today - 30, delivery + 30)
  }

  /** `calendar or await self._get_calendar(...)`: an empty calendar counts as none. */
  function CalendarFor(given: Option<Calendar>, workCalendar: Calendar, today: Date, delivery: Date): Calendar {
    if given.Some? && given.value != map[] then given.value else CheckWindow(workCalendar, today, delivery)
  }

  function CheckOrder(order: Option<Order>, hasBom: bool, cycle: MachineCycle, given: Option<Calendar>,
                      workCalendar: Calendar, today: Date): CheckResult {
    if order.None? then NotFound
    else if order.value.confirmedDelivery.None? then PendingDelivery
    else if !order.value.drawingReleased then PendingDrawing
    else if !hasBom then MissingBom
    else
      var delivery := order.value.confirmedDelivery.value;
      var trigger := Subtract(delivery, WholeDays(cycle.days), CalendarFor(given, workCalendar, today, delivery));
      if today < trigger then PendingTrigger(trigger, cycle) else Schedulable(trigger, cycle)
  }

  /** _get_machine_cycle of the check: in the preloaded lists when there are some, by query otherwise. */
  function CheckedCycle(preloaded: Option<map<string, seq<MachineBaseline.Row>>>, table: seq<MachineBaseline.Row>,
                        all: seq<MachineBaseline.Row>, order: Order): MachineCycle {
    if preloaded.Some? then PreloadedCycle(preloaded.value, order.productModel, order.quantity)
    else QueriedCycle(table, all, order.productModel, order.quantity)
  }

  // ---- the machine schedule ----

  datatype ScheduleRow = ScheduleRow(
    plannedStart: Date,
    plannedEnd: Date,
    trigger: Date,
    cycle: MachineCycle,
    assemblyDays: int,
    defaultFlags: set<string>)

  /** The builder's window: twice the cycle and sixty days before delivery to thirty days after. */
  function BuildWindow(workCalendar: Calendar, days: int, delivery: Date): Calendar {
    Window(workCalendar, delivery - (days * 2 + 60), delivery + 30)
  }

  function BuiltRow(delivery: Date, cycle: MachineCycle, assemblyDays: int, assemblyIsDefault: bool,
                    workCalendar: Calendar): ScheduleRow {
    var days := WholeDays(cycle.days);
    var start := Subtract(delivery, days, BuildWindow(workCalendar, days, delivery));
    ScheduleRow(start, delivery, start, cycle, assemblyDays,
                (if cycle.isDefault then {"machine_cycle"} else {})
                + (if assemblyIsDefault then {"final_assembly_time"} else {}))
  }

  /** The table machine_schedule_result, keyed by its unique order line. */
  class MachineScheduleService {
    var results: map<int, ScheduleRow>

    constructor ()
      ensures results == map[]
    {
      results := map[];
    }

    /** `all` is what find_all_by_model returns; after an exact match the code does not ask for it. */
    method Build(order: Option<Order>, baselines: seq<MachineBaseline.Row>, assemblyDays: int, assemblyIsDefault: bool,
                 workCalendar: Calendar)
      returns (built: Option<ScheduleRow>, ghost all: seq<MachineBaseline.Row>)
      modifies this
      ensures order.None? || order.value.confirmedDelivery.None? ==> built == None && results == old(results)
      ensures order.Some? && order.value.confirmedDelivery.Some? ==>
        && (order.value.productModel.Some? ==> IsModelList(all, Ranked(baselines, order.value.productModel.value)))
        && built == Some(BuiltRow(order.value.confirmedDelivery.value,
                                  QueriedCycle(baselines, all, order.value.productModel, order.value.quantity),
                                  assemblyDays, assemblyIsDefault, workCalendar))
        && results == old(results)[order.value.id := built.value]
    {
      if order.None? || order.value.confirmedDelivery.None? { return None, []; }
      var list: seq<MachineBaseline.Row> := [];
      if order.value.productModel.Some? { list := FindAllByModel(baselines, order.value.productModel.value); }
      all := list;
      var cycle := QueriedCycle(baselines, list, order.value.productModel, order.value.quantity);
      var delivery := order.value.confirmedDelivery.value;
      var days := WholeDays(cycle.days);
      var calendar := BuildWindow(workCalendar, days, delivery);
      var start := SubtractWorkdays(delivery, Whole(days), calendar);
      var flags: set<string> := {};
      if cycle.isDefault { flags := flags + {"machine_cycle"}; }
      if assemblyIsDefault { flags := flags + {"final_assembly_time"}; }
      var row := ScheduleRow(start, delivery, start, cycle, assemblyDays, flags);
      assert flags == BuiltRow(delivery, cycle, assemblyDays, assemblyIsDefault, workCalendar).defaultFlags;
      results := results[order.value.id := row];
      built := Some(row);
    }
  }

  // ---- the verdict ----

  /** The machine cycle has k whole days. */
  ghost predicate TakesDays(cycle: MachineCycle, k: nat) {
    k * 10_000 <= cycle.days < (k + 1) * 10_000
  }

  /** The first three gates, in their order: each refuses exactly when the ones before it let the order through. */
  lemma RefusedExactly(order: Option<Order>, hasBom: bool, cycle: MachineCycle, given: Option<Calendar>,
                       workCalendar: Calendar, today: Date)
    ensures var v := CheckOrder(order, hasBom, cycle, given, workCalendar, today);
      && (v == NotFound <==> order.None?)
      && (v == PendingDelivery <==> order.Some? && order.value.confirmedDelivery.None?)
      && (v == PendingDrawing <==>
           order.Some? && order.value.confirmedDelivery.Some? && !order.value.drawingReleased)
      && (v == MissingBom <==>
           order.Some? && order.value.confirmedDelivery.Some? && order.value.drawingReleased && !hasBom)
      && (v.PendingTrigger? || v.Schedulable? <==>
           order.Some? && order.value.confirmedDelivery.Some? && order.value.drawingReleased && hasBom)
  {
  }

  /**
   The last gate: an order with a delivery date, a released drawing and a bill of materials is schedulable exactly
   when the date the whole days of its cycle before delivery, on the whole work calendar, has come.
  */
  lemma SchedulableExactly(order: Option<Order>, hasBom: bool, cycle: MachineCycle, workCalendar: Calendar, today: Date,
                           k: nat)
    requires TakesDays(cycle, k)
    ensures var v := CheckOrder(order, hasBom, cycle, None, workCalendar, today);
      var ready := order.Some? && order.value.confirmedDelivery.Some? && order.value.drawingReleased && hasBom;
      && (v.Schedulable? <==> ready && Subtract(order.value.confirmedDelivery.value, k, workCalendar) <= today)
      && (v.PendingTrigger? <==> ready && today < Subtract(order.value.confirmedDelivery.value, k, workCalendar))
      && (v.PendingTrigger? ==>
           v == PendingTrigger(Subtract(order.value.confirmedDelivery.value, k, workCalendar), cycle))
      && (v.Schedulable? && today - 30 <= Subtract(order.value.confirmedDelivery.value, k, workCalendar) ==>
           v == Schedulable(Subtract(order.value.confirmedDelivery.value, k, workCalendar), cycle))
      && (v.Schedulable? ==> v.cycle == cycle && v.trigger <= today)
  {
    if order.Some? && order.value.confirmedDelivery.Some? {
      var delivery := order.value.confirmedDelivery.value;
      WholeDaysTruncate(cycle.days, k);
      WindowReaches(delivery, k, workCalendar, today - 30, delivery + 30);
    }
  }

  /** The same on a calendar handed in, which replaces the loaded one unless it is empty. */
  lemma SchedulableOnGivenCalendar(order: Option<Order>, hasBom: bool, cycle: MachineCycle, given: Calendar,
                                   workCalendar: Calendar, today: Date, k: nat)
    requires TakesDays(cycle, k) && given != map[]
    ensures var v := CheckOrder(order, hasBom, cycle, Some(given), workCalendar, today);
      var ready := order.Some? && order.value.confirmedDelivery.Some? && order.value.drawingReleased && hasBom;
      && (v.Schedulable? <==> ready && Subtract(order.value.confirmedDelivery.value, k, given) <= today)
      && (v.PendingTrigger? <==> ready && today < Subtract(order.value.confirmedDelivery.value, k, given))
      && (v.Schedulable? ==> v == Schedulable(Subtract(order.value.confirmedDelivery.value, k, given), cycle))
      && (v.PendingTrigger? ==> v == PendingTrigger(Subtract(order.value.confirmedDelivery.value, k, given), cycle))
    ensures CheckOrder(order, hasBom, cycle, Some(map[]), workCalendar, today)
      == CheckOrder(order, hasBom, cycle, None, workCalendar, today)
  {
    WholeDaysTruncate(cycle.days, k);
  }

  /** The built row ends at delivery and starts, and triggers, the whole days of the cycle before it. */
  lemma BuiltRowSpansTheCycle(delivery: Date, cycle: MachineCycle, assemblyDays: int, assemblyIsDefault: bool,
                              workCalendar: Calendar, k: nat)
    requires TakesDays(cycle, k)
    ensures var row := BuiltRow(delivery, cycle, assemblyDays, assemblyIsDefault, workCalendar);
      && row.plannedEnd == delivery && row.trigger == row.plannedStart && row.cycle == cycle
      && row.assemblyDays == assemblyDays
      && (delivery - (2 * k + 60) <= row.plannedStart <==>
           delivery - (2 * k + 60) <= Subtract(delivery, k, workCalendar))
      && (delivery - (2 * k + 60) <= row.plannedStart ==> row.plannedStart == Subtract(delivery, k, workCalendar))
      && ("machine_cycle" in row.defaultFlags <==> cycle.isDefault)
      && ("final_assembly_time" in row.defaultFlags <==> assemblyIsDefault)
      && row.defaultFlags <= {"machine_cycle", "final_assembly_time"}
  {
    WholeDaysTruncate(cycle.days, k);
    WindowReaches(delivery, k, workCalendar, delivery - (2 * k + 60), delivery + 30);
  }

  // ---- windows are harmless ----

  /**
   The loaded window never changes the verdict: for every order, the status equals the one computed from the
   whole work calendar, and so does the cycle it reports.
  */
  lemma WindowNeverChangesTheVerdict(order: Option<Order>, hasBom: bool, cycle: MachineCycle, workCalendar: Calendar,
                                     today: Date)
    ensures var windowed := CheckOrder(order, hasBom, cycle, None, workCalendar, today);
      var whole := CheckOrder(order, hasBom, cycle, Some(workCalendar), workCalendar, today);
      && (windowed.Schedulable? <==> whole.Schedulable?)
      && (windowed.PendingTrigger? <==> whole.PendingTrigger?)
      && (windowed.PendingTrigger? ==> windowed == whole)
      && (!windowed.Schedulable? ==> windowed == whole)
  {
    if order.Some? && order.value.confirmedDelivery.Some? {
      var delivery := order.value.confirmedDelivery.value;
      WindowReaches(delivery, WholeDays(cycle.days), workCalendar, today - 30, delivery + 30);
    }
  }

  lemma SameCycleSameDate(order: Order, hasBom: bool, cycle: MachineCycle, assemblyDays: int, assemblyIsDefault: bool,
                          workCalendar: Calendar, today: Date)
    requires order.confirmedDelivery.Some?
    requires var result := CheckOrder(Some(order), hasBom, cycle, None, workCalendar, today);
      (result.PendingTrigger? || result.Schedulable?) && today - 30 <= result.trigger
    requires var row := BuiltRow(order.confirmedDelivery.value, cycle, assemblyDays, assemblyIsDefault, workCalendar);
      order.confirmedDelivery.value - (WholeDays(cycle.days) * 2 + 60) <= row.plannedStart
    ensures var result := CheckOrder(Some(order), hasBom, cycle, None, workCalendar, today);
      var row := BuiltRow(order.confirmedDelivery.value, cycle, assemblyDays, assemblyIsDefault, workCalendar);
      result.trigger == row.plannedStart == row.trigger
        == Subtract(order.confirmedDelivery.value, WholeDays(cycle.days), workCalendar)
  {
    var delivery, days := order.confirmedDelivery.value, WholeDays(cycle.days);
    WindowReaches(delivery, days, workCalendar, today - 30, delivery + 30);
    WindowReaches(delivery, days, workCalendar, delivery - (days * 2 + 60), delivery + 30);
  }

  /**
   The check looks its cycle up, in preloaded lists or by query, and the builder queries the table. When both
   windows reach back to the dates they give, these are the same date, which is the one of the whole calendar,
   and so are the cycles.
  */
  lemma TriggerEqualsPlannedStart(order: Order, hasBom: bool, preloaded: Option<map<string, seq<MachineBaseline.Row>>>,
                                  table: seq<MachineBaseline.Row>, all: seq<MachineBaseline.Row>,
                                  assemblyDays: int, assemblyIsDefault: bool, workCalendar: Calendar, today: Date)
    requires MachineBaseline.UniqueIds(table) && order.confirmedDelivery.Some?
    requires order.productModel.GetOr("") != "" ==> IsModelList(all, Ranked(table, order.productModel.value))
    requires order.productModel.GetOr("") != "" && preloaded.Some? ==>
      IsModelList(ListOf(preloaded.value, order.productModel.value), Ranked(table, order.productModel.value))
    requires var checked := CheckedCycle(preloaded, table, all, order);
      var result := CheckOrder(Some(order), hasBom, checked, None, workCalendar, today);
      (result.PendingTrigger? || result.Schedulable?) && today - 30 <= result.trigger
    requires var cycle := QueriedCycle(table, all, order.productModel, order.quantity);
      var row := BuiltRow(order.confirmedDelivery.value, cycle, assemblyDays, assemblyIsDefault, workCalendar);
      order.confirmedDelivery.value - (WholeDays(cycle.days) * 2 + 60) <= row.plannedStart
    ensures var cycle := QueriedCycle(table, all, order.productModel, order.quantity);
      var checked := CheckedCycle(preloaded, table, all, order);
      var result := CheckOrder(Some(order), hasBom, checked, None, workCalendar, today);
      var row := BuiltRow(order.confirmedDelivery.value, cycle, assemblyDays, assemblyIsDefault, workCalendar);
      && result.trigger == row.plannedStart == row.trigger
        == Subtract(order.confirmedDelivery.value, WholeDays(cycle.days), workCalendar)
      && result.cycle == row.cycle
  {
    if preloaded.Some? { CyclePathsAgree(table, preloaded.value, all, order.productModel, order.quantity); }
    SameCycleSameDate(order, hasBom, QueriedCycle(table, all, order.productModel, order.quantity),
                      assemblyDays, assemblyIsDefault, workCalendar, today);
  }
}
