/**
 Building the part schedule of an order by walking back from the machine end date
 (app/scheduler/part_schedule_service.py, app/scheduler/key_part_identify_service.py lines 156-181).
*/
module PartSchedule {
  import opened Prelude
  import opened Sorting
  import opened WorkCalendar
  import opened PartBaselineTable
  import opened PartCycleLookup
  import BomWalk

  /** One entry of AssemblyIdentifyService.identify; times are in ten-thousandths of a day. */
  datatype Assembly = Assembly(
    name: string,
    sequence: int,
    timeDays: int,
    isDefaultTime: bool,
    componentNo: Option<string>)

  datatype Order = Order(materialNo: Option<string>, productModel: Option<string>, deliveryPlant: Option<string>)

  datatype MachineSchedule = MachineSchedule(id: int, orderLineId: int, plannedEnd: Date, assemblyDays: Option<int>)

  datatype PartRow = PartRow(
    orderLineId: int,
    machineScheduleId: int,
    assemblyName: string,
    productionSequence: int,
    assemblyTimeDays: int,
    assemblyIsDefault: bool,
    part: Option<BomWalk.PartNode>,
    isKeyPart: bool,
    partCycle: Option<CycleMatch>,
    keyPart: Option<KeyPart>,
    plannedStart: Option<Date>,
    plannedEnd: Date,
    defaultFlags: set<string>)

  type PartsMap = map<string, seq<BomWalk.PartNode>>

  /** Everything a row needs besides its assembly and its end date. */
  datatype Context = Context(
    orderLineId: int,
    machineScheduleId: int,
    parts: PartsMap,
    lookup: Lookup,
    calendar: Calendar)

  // ---- the parts of every assembly ----

  function Expansion(bomRows: seq<BomWalk.BomRow>): (string, string) -> seq<BomWalk.PartNode> {
    (no: string, name: string) => BomWalk.SelfMadeParts(bomRows, no, name)
  }

  /** The assembly whose expansion ends up under a component number: the last one wins. */
  function PartsBy(assemblies: seq<Assembly>, expand: (string, string) -> seq<BomWalk.PartNode>): PartsMap {
    if assemblies == [] then map[]
    else
      var last := assemblies[|assemblies| - 1];
      var before := PartsBy(assemblies[..|assemblies| - 1], expand);
      var no := Text(last.componentNo);
      if no == "" then before else before[no := expand(no, if last.name != "" then last.name else no)]
  }

  function PartsOf(bomRows: seq<BomWalk.BomRow>, assemblies: seq<Assembly>): PartsMap {
    PartsBy(assemblies, Expansion(bomRows))
  }

  method ListPartsForAssemblies(bomRows: seq<BomWalk.BomRow>, assemblies: seq<Assembly>) returns (grouped: PartsMap)
    ensures grouped == PartsOf(bomRows, assemblies)
  {
    grouped := map[];
    for i := 0 to |assemblies|
      invariant grouped == PartsOf(bomRows, assemblies[..i])
    {
      assert assemblies[..i + 1][..i] == assemblies[..i];
      var no := Text(assemblies[i].componentNo);
      if no == "" { continue; }
      var name := if assemblies[i].name != "" then assemblies[i].name else no;
      var parts := BomWalk.CollectRecursiveSelfMadeParts(bomRows, no, name);
      grouped := grouped[no := parts];
    }
    assert assemblies[..|assemblies|] == assemblies;
  }

  /** `recursive_self_made_parts_map.get(asm["bom_component_no"], [])`: the number is not trimmed here. */
  function PartsFor(parts: PartsMap, assembly: Assembly): seq<BomWalk.PartNode> {
    if assembly.componentNo.Some? && assembly.componentNo.value in parts then parts[assembly.componentNo.value] else []
  }

  lemma {:induction false} PartsOfEntries(bomRows: seq<BomWalk.BomRow>, assemblies: seq<Assembly>, no: string)
    ensures no in PartsOf(bomRows, assemblies) ==>
      exists name :: PartsOf(bomRows, assemblies)[no] == BomWalk.SelfMadeParts(bomRows, no, name)
  {
    if no in PartsOf(bomRows, assemblies) {
      var last := assemblies[|assemblies| - 1];
      if no == Text(last.componentNo) && no != "" {
        var name := if last.name != "" then last.name else no;
        assert PartsOf(bomRows, assemblies)[no] == BomWalk.SelfMadeParts(bomRows, no, name);
      } else {
        PartsOfEntries(bomRows, assemblies[..|assemblies| - 1], no);
      }
    }
  }

  // ---- grouping by production sequence ----

  predicate Descending(a: int, b: int) { a >= b }

  function InSequence(s: int): Assembly -> bool {
    (a: Assembly) => a.sequence == s
  }

  function Group(assemblies: seq<Assembly>, s: int): seq<Assembly> {
    Filter(assemblies, InSequence(s))
  }

  /** The keys of seq_groups in insertion order. */
  function GroupKeys(assemblies: seq<Assembly>): seq<int> {
    if assemblies == [] then []
    else
      var n := |assemblies| - 1;
      var before := GroupKeys(assemblies[..n]);
      if assemblies[n].sequence in before then before else before + [assemblies[n].sequence]
  }

  function SortedSequences(assemblies: seq<Assembly>): seq<int> {
    SortBy(GroupKeys(assemblies), Descending)
  }

  /** The dict of the groups of these assemblies, and its keys. */
  ghost predicate Groups(groups: map<int, seq<Assembly>>, keys: seq<int>, assemblies: seq<Assembly>) {
    && keys == GroupKeys(assemblies)
    && (forall s :: s in groups <==> s in keys)
    && forall s :: s in groups ==> groups[s] == Group(assemblies, s)
  }

  /** dict.setdefault(sequence, []).append(assembly). */
  function AddToGroup(groups: map<int, seq<Assembly>>, asm: Assembly): map<int, seq<Assembly>> {
    groups[asm.sequence := (if asm.sequence in groups then groups[asm.sequence] else []) + [asm]]
  }

  /** The keys of the dict in insertion order. */
  function WithKey(keys: seq<int>, s: int): seq<int> {
    if s in keys then keys else keys + [s]
  }

  lemma GroupNext(assemblies: seq<Assembly>, asm: Assembly, s: int)
    ensures Group(assemblies + [asm], s) == Group(assemblies, s) + if asm.sequence == s then [asm] else []
  {
    FilterConcat(assemblies, [asm], InSequence(s));
    assert Filter([asm], InSequence(s)) == if asm.sequence == s then [asm] else [];
  }

  lemma GroupsExtend(groups: map<int, seq<Assembly>>, keys: seq<int>, assemblies: seq<Assembly>, asm: Assembly)
    requires Groups(groups, keys, assemblies)
    ensures Groups(AddToGroup(groups, asm), WithKey(keys, asm.sequence), assemblies + [asm])
  {
    assert (assemblies + [asm])[..|assemblies|] == assemblies;
    KeysCoverGroups(assemblies, asm.sequence);
    forall s | s in AddToGroup(groups, asm) ensures AddToGroup(groups, asm)[s] == Group(assemblies + [asm], s) {
      GroupNext(assemblies, asm, s);
    }
  }

  method GroupBySequence(assemblies: seq<Assembly>) returns (groups: map<int, seq<Assembly>>, keys: seq<int>)
    ensures keys == GroupKeys(assemblies)
    ensures forall s :: s in groups <==> s in keys
    ensures forall s :: s in groups ==> groups[s] == Group(assemblies, s)
  {
    groups, keys := map[], [];
    for i := 0 to |assemblies|
      invariant Groups(groups, keys, assemblies[..i])
    {
      GroupsExtend(groups, keys, assemblies[..i], assemblies[i]);
      assert assemblies[..i + 1] == assemblies[..i] + [assemblies[i]];
      keys := WithKey(keys, assemblies[i].sequence);
      groups := AddToGroup(groups, assemblies[i]);
    }
    assert assemblies[..|assemblies|] == assemblies;
  }

  lemma {:induction false} KeysCoverGroups(assemblies: seq<Assembly>, s: int)
    ensures s in GroupKeys(assemblies) <==> exists a :: a in assemblies && a.sequence == s
    ensures s in GroupKeys(assemblies) <==> Group(assemblies, s) != []
    ensures NoDuplicates(GroupKeys(assemblies))
  {
    if assemblies != [] {
      var n := |assemblies| - 1;
      assert assemblies == assemblies[..n] + [assemblies[n]];
      KeysCoverGroups(assemblies[..n], s);
      FilterConcat(assemblies[..n], [assemblies[n]], InSequence(s));
    }
  }

  // ---- the time a group takes ----

  /** max_assembly_time starts at zero. */
  function SlowestTime(group: seq<Assembly>): int {
    if group == [] then 0
    else
      var n := |group| - 1;
      var before := SlowestTime(group[..n]);
      if group[n].timeDays > before then group[n].timeDays else before
  }

  lemma {:induction false} SlowestTimeMeaning(group: seq<Assembly>)
    ensures SlowestTime(group) >= 0
    ensures forall a :: a in group ==> a.timeDays <= SlowestTime(group)
    ensures SlowestTime(group) == 0 || exists a :: a in group && a.timeDays == SlowestTime(group)
  {
    if group != [] {
      var n := |group| - 1;
      assert group == group[..n] + [group[n]];
      SlowestTimeMeaning(group[..n]);
    }
  }

  function GroupDays(assemblies: seq<Assembly>, s: int): int {
    WholeDays(SlowestTime(Group(assemblies, s)))
  }

  /** `int(msr.machine_assembly_days or 3)`: no value and zero both mean three days. */
  function FinalAssemblyDays(days: Option<int>): int {
    if days.None? || days.value == 0 then 3 else WholeDays(days.value)
  }

  // ---- the rows of one assembly ----

  function StartFrom(context: Context, key: Option<KeyPart>, end: Date): Option<Date> {
    if key.Some? then Some(Subtract(end, WholeDays(key.value.cycleDays), context.calendar)) else None
  }

  function RowFor(context: Context, asm: Assembly, key: Option<KeyPart>, part: Option<BomWalk.PartNode>,
                  end: Date): PartRow {
    var cycle := if part.Some? then Some(CycleOf(part.value, Some(context.lookup))) else None;
    PartRow(context.orderLineId, context.machineScheduleId,
            asm.name, asm.sequence, asm.timeDays, asm.isDefaultTime, part,
            part.Some? && key.Some? && part.value.bomPathKey == key.value.bomPathKey,
            cycle, key, StartFrom(context, key, end), end,
            (if asm.isDefaultTime then {"assembly_time"} else {})
            + (if key.Some? && key.value.isDefault then {"key_part_cycle"} else {})
            + (if cycle.Some? && cycle.value.isDefault then {"part_cycle"} else {}))
  }

  /** One row per part, or a single row without a part. */
  function AssemblyRows(context: Context, asm: Assembly, end: Date): seq<PartRow> {
    var parts := PartsFor(context.parts, asm);
    var key := KeyPartOf(parts, Some(context.lookup));
    if parts == [] then [RowFor(context, asm, key, None, end)]
    else seq(|parts|, i requires 0 <= i < |parts| => RowFor(context, asm, key, Some(parts[i]), end))
  }

  method EmitRow(context: Context, asm: Assembly, key: Option<KeyPart>, start: Option<Date>, end: Date,
                 flags: set<string>,
                 part: Option<BomWalk.PartNode>) returns (row: PartRow)
    requires start == StartFrom(context, key, end)
    requires flags == (if asm.isDefaultTime then {"assembly_time"} else {})
      + (if key.Some? && key.value.isDefault then {"key_part_cycle"} else {})
    ensures row == RowFor(context, asm, key, part, end)
  {
    var rowFlags, cycle, isKey := flags, None, false;
    if part.Some? {
      var found := GetPartCycle([], "", part.value.row.componentDesc, None, Some(context.lookup));
      if found.isDefault { rowFlags := rowFlags + {"part_cycle"}; }
      cycle := Some(found);
      isKey := key.Some? && part.value.bomPathKey == key.value.bomPathKey;
    }
    row := PartRow(context.orderLineId, context.machineScheduleId, asm.name, asm.sequence, asm.timeDays,
                   asm.isDefaultTime, part, isKey, cycle, key, start, end, rowFlags);
  }

  method EmitAssembly(context: Context, asm: Assembly, end: Date) returns (rows: seq<PartRow>)
    ensures rows == AssemblyRows(context, asm, end)
  {
    var parts := PartsFor(context.parts, asm);
    var key := IdentifyFromRecursiveNodes(parts, Some(context.lookup));
    var start: Option<Date> := None;
    if key.Some? {
      var s := SubtractWorkdays(end, Whole(WholeDays(key.value.cycleDays)), context.calendar);
      start := Some(s);
    }
    var flags: set<string> := {};
    if asm.isDefaultTime { flags := flags + {"assembly_time"}; }
    if key.Some? && key.value.isDefault { flags := flags + {"key_part_cycle"}; }
    rows := [];
    if parts == [] {
      var row := EmitRow(context, asm, key, start, end, flags, None);
      return [row];
    }
    for i := 0 to |parts|
      invariant |rows| == i && forall k :: 0 <= k < i ==> rows[k] == RowFor(context, asm, key, Some(parts[k]), end)
    {
      var row := EmitRow(context, asm, key, start, end, flags, Some(parts[i]));
      rows := rows + [row];
    }
  }

  // ---- the backward walk over the groups ----

  function GroupRows(context: Context, group: seq<Assembly>, end: Date): seq<PartRow> {
    if group == [] then []
    else
      var n := |group| - 1;
      GroupRows(context, group[..n], end) + AssemblyRows(context, group[n], end)
  }

  function ScheduleRows(context: Context, assemblies: seq<Assembly>, sequences: seq<int>, end: Date): seq<PartRow> {
    if sequences == [] then []
    else
      var next := Subtract(end, GroupDays(assemblies, sequences[0]), context.calendar);
      GroupRows(context, Group(assemblies, sequences[0]), end) + ScheduleRows(context, assemblies, sequences[1..], next)
  }

  function BuildRows(context: Context, assemblies: seq<Assembly>, schedule: MachineSchedule): seq<PartRow> {
    var end := Subtract(schedule.plannedEnd, FinalAssemblyDays(schedule.assemblyDays), context.calendar);
    ScheduleRows(context, assemblies, SortedSequences(assemblies), end)
  }

  lemma ScheduleStep(context: Context, assemblies: seq<Assembly>, sequences: seq<int>, i: nat, end: Date)
    requires i < |sequences|
    ensures ScheduleRows(context, assemblies, sequences[i..], end)
      == GroupRows(context, Group(assemblies, sequences[i]), end)
       + ScheduleRows(context, assemblies, sequences[i + 1..],
                      Subtract(end, GroupDays(assemblies, sequences[i]), context.calendar))
  {
    assert sequences[i..][1..] == sequences[i + 1..];
  }

  method EmitGroup(context: Context, group: seq<Assembly>, end: Date) returns (rows: seq<PartRow>, slowest: int)
    ensures rows == GroupRows(context, group, end) && slowest == SlowestTime(group)
  {
    rows, slowest := [], 0;
    for j := 0 to |group|
      invariant rows == GroupRows(context, group[..j], end) && slowest == SlowestTime(group[..j])
    {
      assert group[..j + 1][..j] == group[..j];
      var emitted := EmitAssembly(context, group[j], end);
      if group[j].timeDays > slowest { slowest := group[j].timeDays; }
      rows := rows + emitted;
    }
    assert group[..|group|] == group;
  }

  method WalkGroups(context: Context, assemblies: seq<Assembly>, schedule: MachineSchedule)
    returns (results: seq<PartRow>)
    ensures results == BuildRows(context, assemblies, schedule)
  {
    var groups, keys := GroupBySequence(assemblies);
    var sequences := SortBy(keys, Descending);
    SortByMembers(keys, Descending);
    var finalDays := FinalAssemblyDays(schedule.assemblyDays);
    var currentEnd := SubtractWorkdays(schedule.plannedEnd, Whole(finalDays), context.calendar);
    results := [];
    assert sequences[0..] == sequences;
    for i := 0 to |sequences|
      invariant results + ScheduleRows(context, assemblies, sequences[i..], currentEnd)
        == BuildRows(context, assemblies, schedule)
    {
      assert sequences[i] in sequences;
      ScheduleStep(context, assemblies, sequences, i, currentEnd);
      var rows, slowest := EmitGroup(context, groups[sequences[i]], currentEnd);
      var next := SubtractWorkdays(currentEnd, Whole(WholeDays(slowest)), context.calendar);
      ConcatAssociates(results, rows, ScheduleRows(context, assemblies, sequences[i + 1..], next));
      results, currentEnd := results + rows, next;
    }
  }

  // ---- the service ----

  datatype BuildResult = Built(rows: seq<PartRow>) | ScheduleOfAnotherOrder

  /** The table part_schedule_result and the operation that replaces an order's rows in it. */
  class PartScheduleService {
    var table: seq<PartRow>

    constructor ()
      ensures table == []
    {
      table := [];
    }

    /** Without order, schedule or assemblies nothing is deleted. */
    method Build(orderLineId: int, order: Option<Order>, schedule: Option<MachineSchedule>, assemblies: seq<Assembly>,
                 bomRows: seq<BomWalk.BomRow>, baselines: seq<Baseline>, workCalendar: Calendar)
      returns (result: BuildResult, ghost context: Context)
      modifies this
      ensures order.None? || schedule.None? ==> result == Built([]) && table == old(table)
      ensures order.Some? && schedule.Some? && schedule.value.orderLineId != orderLineId ==>
        result == ScheduleOfAnotherOrder && table == old(table)
      ensures order.Some? && schedule.Some? && schedule.value.orderLineId == orderLineId && assemblies == [] ==>
        result == Built([]) && table == old(table)
      ensures order.Some? && schedule.Some? && schedule.value.orderLineId == orderLineId && assemblies != [] ==>
        && context.orderLineId == orderLineId && context.machineScheduleId == schedule.value.id
        && context.parts == PartsOf(bomRows, assemblies)
        && context.lookup.baselines
          == ListActiveByModel(baselines, order.value.productModel.GetOr(""), order.value.deliveryPlant)
        && MapsToFirst(context.lookup.exactMap, context.lookup.baselines)
        && context.calendar == Window(workCalendar, schedule.value.plannedEnd - 365, schedule.value.plannedEnd + 30)
        && result == Built(BuildRows(context, assemblies, schedule.value))
        && table == Filter(old(table), (r: PartRow) => r.orderLineId != orderLineId) + result.rows
    {
      context := Context(orderLineId, 0, map[], Lookup(map[], []), map[]);
      if order.None? || schedule.None? { return Built([]), context; }
      if schedule.value.orderLineId != orderLineId { return ScheduleOfAnotherOrder, context; }
      if assemblies == [] { return Built([]), context; }
      var calendar := Window(workCalendar, schedule.value.plannedEnd - 365, schedule.value.plannedEnd + 30);
      var parts := ListPartsForAssemblies(bomRows, assemblies);
      var lookup := BuildCycleLookup(baselines, order.value.productModel.GetOr(""), order.value.deliveryPlant);
      var c := Context(orderLineId, schedule.value.id, parts, lookup, calendar);
      table := Filter(table, (r: PartRow) => r.orderLineId != orderLineId);
      var rows := WalkGroups(c, assemblies, schedule.value);
      table := table + rows;
      context := c;
      result := Built(rows);
    }
  }

  // ---- dates ----

  /** The end date of the group with sequence s when the walk enters the listed groups at `end`. */
  function GroupEnd(calendar: Calendar, assemblies: seq<Assembly>, sequences: seq<int>, end: Date, s: int): Date {
    if sequences == [] || sequences[0] == s then end
    else GroupEnd(calendar, assemblies, sequences[1..], Subtract(end, GroupDays(assemblies, sequences[0]), calendar), s)
  }

  function EndOf(calendar: Calendar, assemblies: seq<Assembly>, schedule: MachineSchedule, s: int): Date {
    var end := Subtract(schedule.plannedEnd, FinalAssemblyDays(schedule.assemblyDays), calendar);
    GroupEnd(calendar, assemblies, SortedSequences(assemblies), end, s)
  }

  /** The days of all groups in the list whose sequence is above s. */
  function DaysAbove(assemblies: seq<Assembly>, sequences: seq<int>, s: int): nat {
    if sequences == [] then 0
    else
      SlowestTimeMeaning(Group(assemblies, sequences[0]));
      (if sequences[0] > s then GroupDays(assemblies, sequences[0]) else 0) + DaysAbove(assemblies, sequences[1..], s)
  }

  ghost predicate StrictlyDescending(sequences: seq<int>) {
    forall i, j :: 0 <= i < j < |sequences| ==> sequences[i] > sequences[j]
  }

  lemma SortedSequencesMeaning(assemblies: seq<Assembly>)
    ensures StrictlyDescending(SortedSequences(assemblies))
    ensures forall s :: s in SortedSequences(assemblies) <==> exists a :: a in assemblies && a.sequence == s
  {
    var keys := GroupKeys(assemblies);
    KeysCoverGroups(assemblies, 0);
    SortKeepsDistinct(keys, Descending);
    SortBySorts(keys, Descending);
    SortByMembers(keys, Descending);
    forall s ensures s in SortedSequences(assemblies) <==> exists a :: a in assemblies && a.sequence == s {
      KeysCoverGroups(assemblies, s);
    }
    var sorted := SortedSequences(assemblies);
    forall i, j | 0 <= i < j < |sorted| ensures sorted[i] > sorted[j] {
      assert Descending(sorted[i], sorted[j]) && sorted[i] != sorted[j];
    }
  }

  lemma {:induction false} NothingAbove(assemblies: seq<Assembly>, sequences: seq<int>, s: int)
    requires forall i :: 0 <= i < |sequences| ==> sequences[i] <= s
    ensures DaysAbove(assemblies, sequences, s) == 0
  {
    if sequences != [] { NothingAbove(assemblies, sequences[1..], s); }
  }

  lemma {:induction false} GroupEndClosedForm(calendar: Calendar, assemblies: seq<Assembly>, sequences: seq<int>,
                                              origin: Date, n: nat, s: int)
    requires StrictlyDescending(sequences) && s in sequences
    requires WithinReach(origin, n + DaysAbove(assemblies, sequences, s), calendar)
    ensures GroupEnd(calendar, assemblies, sequences, Subtract(origin, n, calendar), s)
      == Subtract(origin, n + DaysAbove(assemblies, sequences, s), calendar)
  {
    if sequences[0] == s {
      NothingAbove(assemblies, sequences, s);
    } else {
      SlowestTimeMeaning(Group(assemblies, sequences[0]));
      var d := GroupDays(assemblies, sequences[0]);
      InTail(sequences, s);
      SubtractComposes(origin, n, d, calendar);
      GroupEndClosedForm(calendar, assemblies, sequences[1..], origin, n + d, s);
    }
  }

  /**
   Closed form: as long as the whole walk down to sequence s stays within the cap, its group ends at the
   machine end date minus the final assembly and the slowest assembly of every higher sequence, in one
   subtraction.
  */
  lemma EndDateClosedForm(calendar: Calendar, assemblies: seq<Assembly>, schedule: MachineSchedule, s: int)
    requires exists a :: a in assemblies && a.sequence == s
    requires var f := FinalAssemblyDays(schedule.assemblyDays);
      var above := DaysAbove(assemblies, SortedSequences(assemblies), s);
      WithinReach(schedule.plannedEnd, (if f > 0 then f else 0) + above, calendar)
    ensures var f := FinalAssemblyDays(schedule.assemblyDays);
      var above := DaysAbove(assemblies, SortedSequences(assemblies), s);
      EndOf(calendar, assemblies, schedule, s)
      == Subtract(schedule.plannedEnd, (if f > 0 then f else 0) + above, calendar)
  {
    var f := FinalAssemblyDays(schedule.assemblyDays);
    SortedSequencesMeaning(assemblies);
    GroupEndClosedForm(calendar, assemblies, SortedSequences(assemblies), schedule.plannedEnd, if f > 0 then f else 0,
                       s);
  }

  lemma AssemblyRowDates(context: Context, asm: Assembly, end: Date, r: PartRow)
    requires r in AssemblyRows(context, asm, end)
    ensures r.plannedEnd == end && r.plannedStart == StartFrom(context, r.keyPart, end)
      && r.productionSequence == asm.sequence
  {
  }

  lemma {:induction false} GroupRowDates(context: Context, group: seq<Assembly>, end: Date, r: PartRow)
    returns (asm: Assembly)
    requires r in GroupRows(context, group, end)
    ensures asm in group && r in AssemblyRows(context, asm, end) && asm.sequence == r.productionSequence
    ensures r.plannedEnd == end && r.plannedStart == StartFrom(context, r.keyPart, end)
  {
    var n := |group| - 1;
    assert group == group[..n] + [group[n]];
    if r in AssemblyRows(context, group[n], end) {
      asm := group[n];
      AssemblyRowDates(context, asm, end, r);
    } else {
      asm := GroupRowDates(context, group[..n], end, r);
    }
  }

  lemma {:induction false} RowsEndWithTheirGroup(context: Context, assemblies: seq<Assembly>, sequences: seq<int>,
                                                 end: Date, r: PartRow)
    requires StrictlyDescending(sequences)
    requires r in ScheduleRows(context, assemblies, sequences, end)
    ensures r.productionSequence in sequences
    ensures r.plannedEnd == GroupEnd(context.calendar, assemblies, sequences, end, r.productionSequence)
    ensures r.plannedStart == StartFrom(context, r.keyPart, r.plannedEnd)
    ensures exists a ::
      a in assemblies && a.sequence == r.productionSequence && r in AssemblyRows(context, a, r.plannedEnd)
  {
    var s := sequences[0];
    if r in GroupRows(context, Group(assemblies, s), end) {
      var asm := GroupRowDates(context, Group(assemblies, s), end, r);
      FilterMembers(assemblies, InSequence(s));
      assert asm in assemblies && InSequence(s)(asm);
    } else {
      RowsEndWithTheirGroup(context, assemblies, sequences[1..],
                            Subtract(end, GroupDays(assemblies, s), context.calendar), r);
      assert r.productionSequence in sequences[1..];
    }
  }

  /** Every emitted row belongs to an assembly, ends with its group and starts no later than it ends. */
  lemma RowDates(context: Context, assemblies: seq<Assembly>, schedule: MachineSchedule, r: PartRow)
    requires r in BuildRows(context, assemblies, schedule)
    ensures r.plannedEnd == EndOf(context.calendar, assemblies, schedule, r.productionSequence)
    ensures r.keyPart.Some? <==> r.plannedStart.Some?
    ensures r.plannedStart.Some? ==>
      && r.plannedStart.value <= r.plannedEnd
      && r.plannedStart.value == Subtract(r.plannedEnd, WholeDays(r.keyPart.value.cycleDays), context.calendar)
    ensures exists a ::
      a in assemblies && a.sequence == r.productionSequence && r in AssemblyRows(context, a, r.plannedEnd)
  {
    var end := Subtract(schedule.plannedEnd, FinalAssemblyDays(schedule.assemblyDays), context.calendar);
    SortedSequencesMeaning(assemblies);
    RowsEndWithTheirGroup(context, assemblies, SortedSequences(assemblies), end, r);
    if r.keyPart.Some? {
      SubtractNeverLater(r.plannedEnd, WholeDays(r.keyPart.value.cycleDays), context.calendar);
    }
  }

  lemma {:induction false} GroupEndsFall(calendar: Calendar, assemblies: seq<Assembly>, sequences: seq<int>, end: Date,
                                         s: int, t: int)
    requires StrictlyDescending(sequences) && s in sequences && t in sequences && s <= t
    ensures GroupEnd(calendar, assemblies, sequences, end, s) <= GroupEnd(calendar, assemblies, sequences, end, t)
    ensures GroupEnd(calendar, assemblies, sequences, end, t) <= end
  {
    var next := Subtract(end, GroupDays(assemblies, sequences[0]), calendar);
    SubtractNeverLater(end, GroupDays(assemblies, sequences[0]), calendar);
    if sequences[0] != s {
      InTail(sequences, s);
      if sequences[0] != t {
        InTail(sequences, t);
        GroupEndsFall(calendar, assemblies, sequences[1..], next, s, t);
      } else {
        GroupEndsFall(calendar, assemblies, sequences[1..], next, s, s);
      }
    } else {
      assert t == s;
    }
  }

  /** Lower sequences never end later, and nothing ends after the machine, cap or no cap. */
  lemma EndsNeverRiseAsSequenceFalls(context: Context, assemblies: seq<Assembly>, schedule: MachineSchedule, q: PartRow,
                                     r: PartRow)
    requires q in BuildRows(context, assemblies, schedule) && r in BuildRows(context, assemblies, schedule)
    requires q.productionSequence <= r.productionSequence
    ensures q.plannedEnd <= r.plannedEnd <= schedule.plannedEnd
  {
    SortedSequencesMeaning(assemblies);
    RowDates(context, assemblies, schedule, q);
    RowDates(context, assemblies, schedule, r);
    var end := Subtract(schedule.plannedEnd, FinalAssemblyDays(schedule.assemblyDays), context.calendar);
    GroupEndsFall(context.calendar, assemblies, SortedSequences(assemblies), end, q.productionSequence,
                  r.productionSequence);
    SubtractNeverLater(schedule.plannedEnd, FinalAssemblyDays(schedule.assemblyDays), context.calendar);
  }

  // ---- the dates in days ----

  /**
   The rows of the highest sequence end before the machine by its final assembly: three workdays when the time is
   missing or zero, otherwise its whole days, and none when it is negative.
  */
  lemma HighestSequenceEndsBeforeFinalAssembly(context: Context, assemblies: seq<Assembly>, schedule: MachineSchedule,
                                               r: PartRow, k: nat)
    requires r in BuildRows(context, assemblies, schedule)
    requires forall a :: a in assemblies ==> a.sequence <= r.productionSequence
    ensures schedule.assemblyDays.GetOr(0) == 0 ==>
      r.plannedEnd == Subtract(schedule.plannedEnd, 3, context.calendar)
    ensures schedule.assemblyDays.GetOr(0) > 0 && k * 10_000 <= schedule.assemblyDays.value < (k + 1) * 10_000 ==>
      r.plannedEnd == Subtract(schedule.plannedEnd, k, context.calendar)
    ensures schedule.assemblyDays.GetOr(0) < 0 ==> r.plannedEnd == schedule.plannedEnd
  {
    var sequences := SortedSequences(assemblies);
    SortedSequencesMeaning(assemblies);
    RowDates(context, assemblies, schedule, r);
    assert r.productionSequence in sequences && sequences[0] in sequences;
    assert sequences[0] == r.productionSequence;
    var days := schedule.assemblyDays.GetOr(0);
    WholeDaysTruncate(days, k);
    if days < 0 { SubtractNeverLater(schedule.plannedEnd, WholeDays(days), context.calendar); }
  }

  /** The sequences that occur have none between s and the higher t. */
  ghost predicate Adjacent(assemblies: seq<Assembly>, s: int, t: int) {
    s < t && forall a :: a in assemblies ==> a.sequence <= s || t <= a.sequence
  }

  lemma {:induction false} GroupEndStep(calendar: Calendar, assemblies: seq<Assembly>, sequences: seq<int>, end: Date,
                                        s: int, t: int)
    requires StrictlyDescending(sequences) && s in sequences && t in sequences && s < t
    requires forall i :: 0 <= i < |sequences| ==> sequences[i] <= s || t <= sequences[i]
    ensures GroupEnd(calendar, assemblies, sequences, end, s)
      == Subtract(GroupEnd(calendar, assemblies, sequences, end, t), GroupDays(assemblies, t), calendar)
  {
    var next := Subtract(end, GroupDays(assemblies, sequences[0]), calendar);
    InTail(sequences, s);
    if sequences[0] == t {
      var i :| 0 <= i < |sequences| && sequences[i] == s;
      assert sequences[1] in sequences && sequences[1] >= s;
      assert sequences[1..][0] == s;
    } else {
      InTail(sequences, t);
      GroupEndStep(calendar, assemblies, sequences[1..], next, s, t);
    }
  }

  /** k whole days are the slowest time of the assemblies of a sequence; times below zero count as none. */
  ghost predicate SlowestTakes(assemblies: seq<Assembly>, s: int, k: nat) {
    && (forall a :: a in assemblies && a.sequence == s ==> a.timeDays < (k + 1) * 10_000)
    && (k == 0 || exists a :: a in assemblies && a.sequence == s && k * 10_000 <= a.timeDays)
  }

  lemma SlowestDays(assemblies: seq<Assembly>, s: int, k: nat)
    requires SlowestTakes(assemblies, s, k)
    ensures GroupDays(assemblies, s) == k
  {
    var group := Group(assemblies, s);
    FilterMembers(assemblies, InSequence(s));
    SlowestTimeMeaning(group);
    if k > 0 {
      var a :| a in assemblies && a.sequence == s && k * 10_000 <= a.timeDays;
      assert InSequence(s)(a) && a in group;
    }
    WholeDaysTruncate(SlowestTime(group), k);
  }

  /** The next lower sequence ends the whole days of the slowest assembly before this one. */
  lemma NextSequenceEndsBeforeTheSlowest(context: Context, assemblies: seq<Assembly>, schedule: MachineSchedule,
                                         q: PartRow, r: PartRow, k: nat)
    requires q in BuildRows(context, assemblies, schedule) && r in BuildRows(context, assemblies, schedule)
    requires Adjacent(assemblies, q.productionSequence, r.productionSequence)
    requires SlowestTakes(assemblies, r.productionSequence, k)
    ensures q.plannedEnd == Subtract(r.plannedEnd, k, context.calendar)
  {
    var s, t := q.productionSequence, r.productionSequence;
    SortedSequencesMeaning(assemblies);
    RowDates(context, assemblies, schedule, q);
    RowDates(context, assemblies, schedule, r);
    SlowestDays(assemblies, t, k);
    var end := Subtract(schedule.plannedEnd, FinalAssemblyDays(schedule.assemblyDays), context.calendar);
    var sequences := SortedSequences(assemblies);
    forall i | 0 <= i < |sequences| ensures sequences[i] <= s || t <= sequences[i] {
      assert sequences[i] in sequences;
      var a :| a in assemblies && a.sequence == sequences[i];
    }
    GroupEndStep(context.calendar, assemblies, sequences, end, s, t);
  }

  /** A row starts the whole days of its key part before its end, and without a key part it has no start. */
  lemma StartIsTheKeyPartBefore(context: Context, assemblies: seq<Assembly>, schedule: MachineSchedule, r: PartRow,
                                k: nat)
    requires r in BuildRows(context, assemblies, schedule)
    ensures r.keyPart.None? <==> r.plannedStart.None?
    ensures r.keyPart.Some? && k * 10_000 <= r.keyPart.value.cycleDays < (k + 1) * 10_000 ==>
      r.plannedStart == Some(Subtract(r.plannedEnd, k, context.calendar))
  {
    RowDates(context, assemblies, schedule, r);
    if r.keyPart.Some? { WholeDaysTruncate(r.keyPart.value.cycleDays, k); }
  }

  // ---- what a row says ----

  /** The columns a row copies from its assembly, its part and the key part, and the defaults it reports. */
  ghost predicate Says(r: PartRow, context: Context, a: Assembly) {
    && r.orderLineId == context.orderLineId && r.machineScheduleId == context.machineScheduleId
    && r.assemblyName == a.name && r.productionSequence == a.sequence
    && r.assemblyTimeDays == a.timeDays && r.assemblyIsDefault == a.isDefaultTime
    && (r.part.Some? ==> r.part.value in PartsFor(context.parts, a))
    && (r.part.None? <==> PartsFor(context.parts, a) == [])
    && (r.part.Some? <==> r.partCycle.Some?)
    && (r.part.Some? ==> r.partCycle.value == MatchPartCycle(r.part.value.row.componentDesc, Some(context.lookup)))
    && r.keyPart == KeyPartOf(PartsFor(context.parts, a), Some(context.lookup))
    && (r.isKeyPart <==> r.part.Some? && r.keyPart.Some? && r.part.value.bomPathKey == r.keyPart.value.bomPathKey)
    && ("assembly_time" in r.defaultFlags <==> a.isDefaultTime)
    && ("key_part_cycle" in r.defaultFlags <==> r.keyPart.Some? && r.keyPart.value.isDefault)
    && ("part_cycle" in r.defaultFlags <==> r.partCycle.Some? && r.partCycle.value.isDefault)
    && r.defaultFlags <= {"assembly_time", "key_part_cycle", "part_cycle"}
  }

  lemma RowForSays(context: Context, a: Assembly, key: Option<KeyPart>, part: Option<BomWalk.PartNode>, end: Date)
    requires key == KeyPartOf(PartsFor(context.parts, a), Some(context.lookup))
    requires part.None? <==> PartsFor(context.parts, a) == []
    requires part.Some? ==> part.value in PartsFor(context.parts, a)
    ensures Says(RowFor(context, a, key, part, end), context, a)
  {
  }

  lemma AssemblyRowSays(context: Context, a: Assembly, end: Date, r: PartRow)
    requires r in AssemblyRows(context, a, end)
    ensures Says(r, context, a)
  {
    var parts := PartsFor(context.parts, a);
    var key := KeyPartOf(parts, Some(context.lookup));
    if parts == [] {
      RowForSays(context, a, key, None, end);
    } else {
      var i :| 0 <= i < |parts| && r == RowFor(context, a, key, Some(parts[i]), end);
      RowForSays(context, a, key, Some(parts[i]), end);
    }
  }

  /** Every built row speaks of an assembly of the order, of one of its parts and of its key part. */
  lemma BuiltRowSays(context: Context, assemblies: seq<Assembly>, schedule: MachineSchedule, r: PartRow)
    requires r in BuildRows(context, assemblies, schedule)
    ensures exists a :: a in assemblies && Says(r, context, a)
  {
    RowDates(context, assemblies, schedule, r);
    var a :| a in assemblies && a.sequence == r.productionSequence && r in AssemblyRows(context, a, r.plannedEnd);
    AssemblyRowSays(context, a, r.plannedEnd, r);
  }

  lemma {:induction false} LaterNumbersKeepTheParts(before: seq<Assembly>, later: seq<Assembly>, no: string,
                                                    expand: (string, string) -> seq<BomWalk.PartNode>)
    requires no in PartsBy(before, expand) && forall j :: 0 <= j < |later| ==> Text(later[j].componentNo) != no
    ensures no in PartsBy(before + later, expand) && PartsBy(before + later, expand)[no] == PartsBy(before, expand)[no]
    decreases |later|
  {
    if later == [] {
      assert before + later == before;
    } else {
      var n := |later| - 1;
      LaterNumbersKeepTheParts(before, later[..n], no, expand);
      assert (before + later)[..|before + later| - 1] == before + later[..n];
    }
  }

  lemma LastExpands(before: seq<Assembly>, asm: Assembly, expand: (string, string) -> seq<BomWalk.PartNode>)
    requires Text(asm.componentNo) != ""
    ensures var no, parts := Text(asm.componentNo), PartsBy(before + [asm], expand);
      no in parts && parts[no] == expand(no, if asm.name != "" then asm.name else no)
  {
  }

  lemma LastOfANumberExpands(before: seq<Assembly>, asm: Assembly, later: seq<Assembly>,
                             expand: (string, string) -> seq<BomWalk.PartNode>)
    requires Text(asm.componentNo) != ""
    requires forall j :: 0 <= j < |later| ==> Text(later[j].componentNo) != Text(asm.componentNo)
    ensures var no, parts := Text(asm.componentNo), PartsBy(before + [asm] + later, expand);
      no in parts && parts[no] == expand(no, if asm.name != "" then asm.name else no)
  {
    LastExpands(before, asm, expand);
    LaterNumbersKeepTheParts(before + [asm], later, Text(asm.componentNo), expand);
  }

  /** The parts of a component number carry the name of the last assembly of that number. */
  lemma LastOfANumberNamesTheParts(bomRows: seq<BomWalk.BomRow>, before: seq<Assembly>, asm: Assembly,
                                   later: seq<Assembly>)
    requires Text(asm.componentNo) != ""
    requires forall j :: 0 <= j < |later| ==> Text(later[j].componentNo) != Text(asm.componentNo)
    ensures var no, parts := Text(asm.componentNo), PartsOf(bomRows, before + [asm] + later);
      no in parts && parts[no] == Expansion(bomRows)(no, if asm.name != "" then asm.name else no)
  {
    LastOfANumberExpands(before, asm, later, Expansion(bomRows));
  }

  lemma UntrimmedNumbersFindNothing(bomRows: seq<BomWalk.BomRow>, assemblies: seq<Assembly>, asm: Assembly)
    requires asm.componentNo.None? || Strip(asm.componentNo.value) != asm.componentNo.value
    ensures PartsFor(PartsOf(bomRows, assemblies), asm) == []
  {
    if asm.componentNo.Some? {
      var no := asm.componentNo.value;
      PartsOfKeys(bomRows, assemblies, no);
      if no in PartsOf(bomRows, assemblies) {
        var a :| a in assemblies && Text(a.componentNo) == no;
        StripIdempotent(a.componentNo.GetOr(""));
      }
    }
  }

  // ---- the order of the assemblies does not matter ----

  lemma SlowestTimeForgetsOrder(a: seq<Assembly>, b: seq<Assembly>)
    requires multiset(a) == multiset(b)
    ensures SlowestTime(a) == SlowestTime(b)
  {
    SlowestTimeMeaning(a);
    SlowestTimeMeaning(b);
    SameMembers(a, b);
  }

  lemma GroupDaysForgetOrder(a: seq<Assembly>, b: seq<Assembly>, s: int)
    requires multiset(a) == multiset(b)
    ensures GroupDays(a, s) == GroupDays(b, s)
  {
    FilterForgetsStoredOrder(a, b, InSequence(s));
    SlowestTimeForgetsOrder(Group(a, s), Group(b, s));
  }

  lemma {:induction false} DescendingListsAgree(x: seq<int>, y: seq<int>)
    requires StrictlyDescending(x) && StrictlyDescending(y)
    requires forall s :: s in x <==> s in y
    ensures x == y
  {
    assert x != [] ==> x[0] in x;
    assert y != [] ==> y[0] in y;
    if x != [] && y != [] {
      assert x[0] in y && y[0] in x;
      assert x[0] == y[0];
      forall s ensures s in x[1..] <==> s in y[1..] {
        assert s in x[1..] <==> s in x && s != x[0];
        assert s in y[1..] <==> s in y && s != y[0];
      }
      DescendingListsAgree(x[1..], y[1..]);
      assert x == [x[0]] + x[1..] && y == [y[0]] + y[1..];
    }
  }

  lemma {:induction false} GroupEndForgetsOrder(calendar: Calendar, a: seq<Assembly>, b: seq<Assembly>,
                                                sequences: seq<int>, end: Date, s: int)
    requires multiset(a) == multiset(b)
    ensures GroupEnd(calendar, a, sequences, end, s) == GroupEnd(calendar, b, sequences, end, s)
  {
    if sequences != [] && sequences[0] != s {
      GroupDaysForgetOrder(a, b, sequences[0]);
      GroupEndForgetsOrder(calendar, a, b, sequences[1..], Subtract(end, GroupDays(a, sequences[0]), calendar), s);
    }
  }

  lemma SameSequences(a: seq<Assembly>, b: seq<Assembly>)
    requires multiset(a) == multiset(b)
    ensures SortedSequences(a) == SortedSequences(b)
  {
    SameMembers(a, b);
    SortedSequencesMeaning(a);
    SortedSequencesMeaning(b);
    DescendingListsAgree(SortedSequences(a), SortedSequences(b));
  }

  /** Reordering the assemblies, inside a group or across groups, moves no end date. */
  lemma DatesForgetAssemblyOrder(calendar: Calendar, a: seq<Assembly>, b: seq<Assembly>, schedule: MachineSchedule,
                                 s: int)
    requires multiset(a) == multiset(b)
    ensures EndOf(calendar, a, schedule, s) == EndOf(calendar, b, schedule, s)
  {
    SameSequences(a, b);
    var end := Subtract(schedule.plannedEnd, FinalAssemblyDays(schedule.assemblyDays), calendar);
    GroupEndForgetsOrder(calendar, a, b, SortedSequences(a), end, s);
  }

  // ---- the rows of reordered assemblies ----

  /** A row without the texts that show names. */
  function Unnamed(r: PartRow): PartRow {
    r.(part := if r.part.Some? then Some(BomWalk.Unnamed(r.part.value)) else None,
       keyPart := if r.keyPart.Some? then Some(r.keyPart.value.(parentName := None, bomPath := "")) else None)
  }

  function AllUnnamed(rows: seq<PartRow>): seq<PartRow> {
    seq(|rows|, i requires 0 <= i < |rows| => Unnamed(rows[i]))
  }

  lemma AllUnnamedConcat(a: seq<PartRow>, b: seq<PartRow>)
    ensures AllUnnamed(a + b) == AllUnnamed(a) + AllUnnamed(b)
  {
  }

  lemma {:induction false} PartsOfKeys(bomRows: seq<BomWalk.BomRow>, assemblies: seq<Assembly>, no: string)
    ensures no in PartsOf(bomRows, assemblies) <==> no != "" && exists a :: a in assemblies && Text(a.componentNo) == no
  {
    if assemblies != [] {
      var n := |assemblies| - 1;
      assert assemblies == assemblies[..n] + [assemblies[n]];
      PartsOfKeys(bomRows, assemblies[..n], no);
    }
  }

  /** For a shared component number the last name wins, but the parts are the same apart from the names. */
  lemma PartsForForgetOrder(bomRows: seq<BomWalk.BomRow>, a: seq<Assembly>, b: seq<Assembly>, asm: Assembly)
    requires multiset(a) == multiset(b)
    ensures var x, y := PartsFor(PartsOf(bomRows, a), asm), PartsFor(PartsOf(bomRows, b), asm);
      |x| == |y| && forall i :: 0 <= i < |x| ==> BomWalk.Unnamed(x[i]) == BomWalk.Unnamed(y[i])
  {
    if asm.componentNo.Some? {
      var no := asm.componentNo.value;
      SameMembers(a, b);
      PartsOfKeys(bomRows, a, no);
      PartsOfKeys(bomRows, b, no);
      if no in PartsOf(bomRows, a) {
        PartsOfEntries(bomRows, a, no);
        PartsOfEntries(bomRows, b, no);
        var name :| PartsOf(bomRows, a)[no] == BomWalk.SelfMadeParts(bomRows, no, name);
        var other :| PartsOf(bomRows, b)[no] == BomWalk.SelfMadeParts(bomRows, no, other);
        BomWalk.PartsForgetAssemblyName(bomRows, no, name, other);
      }
    }
  }

  predicate SameButNames(x: Option<KeyPart>, y: Option<KeyPart>) {
    (x.None? && y.None?)
    || (x.Some? && y.Some? && x.value.(parentName := None, bomPath := "")
         == y.value.(parentName := None, bomPath := ""))
  }

  lemma KeyPartForgetsNames(x: seq<BomWalk.PartNode>, y: seq<BomWalk.PartNode>, lookup: Option<Lookup>)
    requires |x| == |y| && forall i :: 0 <= i < |x| ==> BomWalk.Unnamed(x[i]) == BomWalk.Unnamed(y[i])
    ensures var p, q := KeyPartOf(x, lookup), KeyPartOf(y, lookup);
      SameButNames(p, q)
  {
    forall i | 0 <= i < |x| ensures x[i].row == y[i].row {
      assert BomWalk.Unnamed(x[i]).row == BomWalk.Unnamed(y[i]).row;
    }
    KeyNodeReadsRows(x, y, lookup);
    if KeyNodeIn(x, lookup).Some? {
      var k := KeyNodeIn(x, lookup).value;
      assert BomWalk.Unnamed(x[k]) == BomWalk.Unnamed(y[k]);
    }
  }

  lemma RowForgetsNames(c: Context, d: Context, asm: Assembly, p: Option<KeyPart>, q: Option<KeyPart>,
                        x: BomWalk.PartNode, y: BomWalk.PartNode, end: Date)
    requires d == c.(parts := d.parts) && SameButNames(p, q) && BomWalk.Unnamed(x) == BomWalk.Unnamed(y)
    ensures Unnamed(RowFor(c, asm, p, Some(x), end)) == Unnamed(RowFor(d, asm, q, Some(y), end))
  {
    assert x == y.(parentName := x.parentName, bomPath := x.bomPath);
    if p.Some? { assert p.value == q.value.(parentName := p.value.parentName, bomPath := p.value.bomPath); }
  }

  lemma AssemblyRowsForgetOrder(context: Context, bomRows: seq<BomWalk.BomRow>, a: seq<Assembly>, b: seq<Assembly>,
                                asm: Assembly, end: Date)
    requires multiset(a) == multiset(b)
    ensures AllUnnamed(AssemblyRows(context.(parts := PartsOf(bomRows, a)), asm, end))
      == AllUnnamed(AssemblyRows(context.(parts := PartsOf(bomRows, b)), asm, end))
  {
    var c, d := context.(parts := PartsOf(bomRows, a)), context.(parts := PartsOf(bomRows, b));
    var x, y := PartsFor(c.parts, asm), PartsFor(d.parts, asm);
    var p, q := KeyPartOf(x, Some(context.lookup)), KeyPartOf(y, Some(context.lookup));
    PartsForForgetOrder(bomRows, a, b, asm);
    KeyPartForgetsNames(x, y, Some(context.lookup));
    forall i | 0 <= i < |x|
      ensures Unnamed(RowFor(c, asm, p, Some(x[i]), end)) == Unnamed(RowFor(d, asm, q, Some(y[i]), end))
    {
      RowForgetsNames(c, d, asm, p, q, x[i], y[i], end);
    }
  }

  lemma {:induction false} GroupRowsConcat(context: Context, g: seq<Assembly>, h: seq<Assembly>, end: Date)
    ensures GroupRows(context, g + h, end) == GroupRows(context, g, end) + GroupRows(context, h, end)
    decreases |h|
  {
    if h == [] {
      assert g + h == g;
    } else {
      var n := |h| - 1;
      assert (g + h)[..|g + h| - 1] == g + h[..n];
      GroupRowsConcat(context, g, h[..n], end);
      ConcatAssociates(GroupRows(context, g, end), GroupRows(context, h[..n], end), AssemblyRows(context, h[n], end));
    }
  }

  /** The rows of a group as a multiset, which adds up over the assemblies. */
  function GroupBag(context: Context, group: seq<Assembly>, end: Date): multiset<PartRow> {
    multiset(AllUnnamed(GroupRows(context, group, end)))
  }

  lemma GroupBagAdds(context: Context, g: seq<Assembly>, h: seq<Assembly>, end: Date)
    ensures GroupBag(context, g + h, end) == GroupBag(context, g, end) + GroupBag(context, h, end)
  {
    GroupRowsConcat(context, g, h, end);
    AllUnnamedConcat(GroupRows(context, g, end), GroupRows(context, h, end));
  }

  lemma GroupBagOfOne(context: Context, asm: Assembly, end: Date)
    ensures GroupBag(context, [asm], end) == multiset(AllUnnamed(AssemblyRows(context, asm, end)))
  {
    assert GroupRows(context, [asm][..0], end) == [];
    assert GroupRows(context, [asm], end) == AssemblyRows(context, asm, end);
  }

  lemma {:induction false} GroupBagForgetsOrder(context: Context, bomRows: seq<BomWalk.BomRow>, a: seq<Assembly>,
                                                b: seq<Assembly>,
                                                g: seq<Assembly>, h: seq<Assembly>, end: Date)
    requires multiset(a) == multiset(b) && multiset(g) == multiset(h)
    ensures GroupBag(context.(parts := PartsOf(bomRows, a)), g, end)
      == GroupBag(context.(parts := PartsOf(bomRows, b)), h, end)
  {
    SameMembers(g, h);
    if g != [] {
      var c, d := context.(parts := PartsOf(bomRows, a)), context.(parts := PartsOf(bomRows, b));
      var before, after := PullFront(g, h);
      GroupBagForgetsOrder(context, bomRows, a, b, g[1..], before + after, end);
      AssemblyRowsForgetOrder(context, bomRows, a, b, g[0], end);
      GroupBagOfOne(c, g[0], end);
      GroupBagOfOne(d, g[0], end);
      assert g == [g[0]] + g[1..];
      GroupBagAdds(c, [g[0]], g[1..], end);
      GroupBagAdds(d, before, [g[0]] + after, end);
      GroupBagAdds(d, [g[0]], after, end);
      GroupBagAdds(d, before, after, end);
    }
  }

  lemma {:induction false} ScheduleBagForgetsOrder(context: Context, bomRows: seq<BomWalk.BomRow>, a: seq<Assembly>,
                                                   b: seq<Assembly>,
                                                   sequences: seq<int>, end: Date)
    requires multiset(a) == multiset(b)
    ensures multiset(AllUnnamed(ScheduleRows(context.(parts := PartsOf(bomRows, a)), a, sequences, end)))
      == multiset(AllUnnamed(ScheduleRows(context.(parts := PartsOf(bomRows, b)), b, sequences, end)))
  {
    if sequences != [] {
      var c, d := context.(parts := PartsOf(bomRows, a)), context.(parts := PartsOf(bomRows, b));
      var s, rest := sequences[0], sequences[1..];
      GroupDaysForgetOrder(a, b, s);
      var next := Subtract(end, GroupDays(a, s), context.calendar);
      ScheduleBagForgetsOrder(context, bomRows, a, b, rest, next);
      FilterForgetsStoredOrder(a, b, InSequence(s));
      GroupBagForgetsOrder(context, bomRows, a, b, Group(a, s), Group(b, s), end);
      AllUnnamedConcat(GroupRows(c, Group(a, s), end), ScheduleRows(c, a, rest, next));
      AllUnnamedConcat(GroupRows(d, Group(b, s), end), ScheduleRows(d, b, rest, next));
    }
  }

  /**
   Reordering the assemblies, inside a group or across groups, rearranges the built rows and changes nothing in
   them, start and end dates included, except the texts that show the name of a shared component.
  */
  lemma BuiltRowsForgetAssemblyOrder(context: Context, bomRows: seq<BomWalk.BomRow>, a: seq<Assembly>, b: seq<Assembly>,
                                     schedule: MachineSchedule)
    requires multiset(a) == multiset(b)
    ensures multiset(AllUnnamed(BuildRows(context.(parts := PartsOf(bomRows, a)), a, schedule)))
      == multiset(AllUnnamed(BuildRows(context.(parts := PartsOf(bomRows, b)), b, schedule)))
  {
    SameSequences(a, b);
    var end := Subtract(schedule.plannedEnd, FinalAssemblyDays(schedule.assemblyDays), context.calendar);
    ScheduleBagForgetsOrder(context, bomRows, a, b, SortedSequences(a), end);
  }

  /** Each assembly's rows start and end on the same dates whatever the order of the assemblies. */
  lemma RowDatesForgetAssemblyOrder(context: Context, bomRows: seq<BomWalk.BomRow>, a: seq<Assembly>, b: seq<Assembly>,
                                    schedule: MachineSchedule, asm: Assembly)
    requires multiset(a) == multiset(b)
    ensures var end := EndOf(context.calendar, b, schedule, asm.sequence);
      var before := EndOf(context.calendar, a, schedule, asm.sequence);
      var x := AssemblyRows(context.(parts := PartsOf(bomRows, a)), asm, before);
      var y := AssemblyRows(context.(parts := PartsOf(bomRows, b)), asm, end);
      |x| == |y| && forall i :: 0 <= i < |x| ==>
        x[i].plannedStart == y[i].plannedStart && x[i].plannedEnd == y[i].plannedEnd == end
  {
    DatesForgetAssemblyOrder(context.calendar, a, b, schedule, asm.sequence);
    var end := EndOf(context.calendar, a, schedule, asm.sequence);
    AssemblyRowsForgetOrder(context, bomRows, a, b, asm, end);
    var x := AssemblyRows(context.(parts := PartsOf(bomRows, a)), asm, end);
    var y := AssemblyRows(context.(parts := PartsOf(bomRows, b)), asm, end);
    assert |x| == |AllUnnamed(x)| == |AllUnnamed(y)| == |y|;
    forall i | 0 <= i < |x|
      ensures x[i].plannedStart == y[i].plannedStart && x[i].plannedEnd == y[i].plannedEnd == end
    {
      assert AllUnnamed(x)[i] == Unnamed(x[i]) && AllUnnamed(y)[i] == Unnamed(y[i]);
      AssemblyRowDates(context.(parts := PartsOf(bomRows, a)), asm, end, x[i]);
    }
  }

  // ---- rows and the key part ----

  function Flagged(rows: seq<PartRow>): seq<PartRow> {
    Filter(rows, (r: PartRow) => r.isKeyPart)
  }

  lemma {:induction false} OneTrueFilters(rows: seq<PartRow>, k: nat)
    requires k < |rows| && forall i :: 0 <= i < |rows| ==> (rows[i].isKeyPart <==> i == k)
    ensures Flagged(rows) == [rows[k]]
  {
    if k == 0 {
      NoneTrueFilters(rows[1..]);
    } else {
      OneTrueFilters(rows[1..], k - 1);
    }
  }

  lemma {:induction false} NoneTrueFilters(rows: seq<PartRow>)
    requires forall i :: 0 <= i < |rows| ==> !rows[i].isKeyPart
    ensures Flagged(rows) == []
  {
    if rows != [] { NoneTrueFilters(rows[1..]); }
  }

  ghost predicate NonNegativeCycles(lookup: Lookup) {
    && (forall t :: t in lookup.exactMap ==> lookup.exactMap[t].cycleDays >= 0)
    && (forall i :: 0 <= i < |lookup.baselines| ==> lookup.baselines[i].cycleDays >= 0)
  }

  lemma CyclesAreNonNegative(node: BomWalk.PartNode, lookup: Lookup)
    requires NonNegativeCycles(lookup)
    ensures CycleOf(node, Some(lookup)).days >= 0
  {
    var t := ExtractPartType(node.row.componentDesc.GetOr(""));
    FirstMember(lookup.baselines, HasTypeOrPrefix(t));
  }

  /**
   An assembly yields max(1, parts) rows. With non-negative cycles and distinct path keys, exactly one row is
   flagged as key part when there are parts, and its cycle is the longest of all rows; without parts none is.
  */
  lemma AssemblyFlagsOneLongestPart(context: Context, asm: Assembly, end: Date)
    requires NonNegativeCycles(context.lookup) && BomWalk.DistinctPathKeys(PartsFor(context.parts, asm))
    ensures var parts, rows := PartsFor(context.parts, asm), AssemblyRows(context, asm, end);
      && |rows| == (if parts == [] then 1 else |parts|)
      && |Flagged(rows)| == (if parts == [] then 0 else 1)
      && (forall i :: 0 <= i < |parts| ==> rows[i].part == Some(parts[i]) && rows[i].partCycle.Some?)
      && forall k, i :: 0 <= k < |parts| && 0 <= i < |parts| && rows[k].isKeyPart ==>
        rows[i].partCycle.value.days <= rows[k].partCycle.value.days == rows[k].keyPart.value.cycleDays
  {
    var parts, rows := PartsFor(context.parts, asm), AssemblyRows(context, asm, end);
    if parts == [] {
      NoneTrueFilters(rows);
    } else {
      CyclesAreNonNegative(parts[0], context.lookup);
      var k := KeyNodeIn(parts, Some(context.lookup)).value;
      assert IsKeyNode(parts, Some(context.lookup), k);
      OneTrueFilters(rows, k);
    }
  }

  /** In a built schedule the path keys of every assembly are distinct, because the bill's ids are. */
  lemma PathKeysDistinctPerAssembly(bomRows: seq<BomWalk.BomRow>, assemblies: seq<Assembly>, asm: Assembly)
    requires BomWalk.UniqueIds(bomRows) && forall row :: row in bomRows ==> row.id != 0
    ensures BomWalk.DistinctPathKeys(PartsFor(PartsOf(bomRows, assemblies), asm))
  {
    var parts := PartsOf(bomRows, assemblies);
    if asm.componentNo.Some? && asm.componentNo.value in parts {
      PartsOfEntries(bomRows, assemblies, asm.componentNo.value);
      var name :| parts[asm.componentNo.value] == BomWalk.SelfMadeParts(bomRows, asm.componentNo.value, name);
      BomWalk.PathKeysAreDistinct(bomRows, asm.componentNo.value, name);
    }
  }

  // ---- nothing is lost by grouping ----

  function RowCount(context: Context, assemblies: seq<Assembly>): nat {
    if assemblies == [] then 0
    else
      var parts := PartsFor(context.parts, assemblies[0]);
      (if parts == [] then 1 else |parts|) + RowCount(context, assemblies[1..])
  }

  lemma {:induction false} RowCountConcat(context: Context, a: seq<Assembly>, b: seq<Assembly>)
    ensures RowCount(context, a + b) == RowCount(context, a) + RowCount(context, b)
  {
    if a == [] {
      assert a + b == b;
    } else {
      assert (a + b)[1..] == a[1..] + b;
      RowCountConcat(context, a[1..], b);
    }
  }

  lemma AssemblyRowsCount(context: Context, asm: Assembly, end: Date)
    ensures |AssemblyRows(context, asm, end)| == RowCount(context, [asm])
  {
    assert RowCount(context, [asm][1..]) == 0;
  }

  lemma GroupRowsSplit(context: Context, before: seq<Assembly>, asm: Assembly, end: Date)
    ensures |GroupRows(context, before + [asm], end)|
      == |GroupRows(context, before, end)| + |AssemblyRows(context, asm, end)|
  {
    assert (before + [asm])[..|before|] == before;
  }

  lemma {:induction false} GroupRowsCount(context: Context, group: seq<Assembly>, end: Date)
    ensures |GroupRows(context, group, end)| == RowCount(context, group)
  {
    if group != [] {
      var before, last := group[..|group| - 1], group[|group| - 1];
      assert group == before + [last];
      GroupRowsCount(context, before, end);
      AssemblyRowsCount(context, last, end);
      GroupRowsSplit(context, before, last, end);
      RowCountConcat(context, before, [last]);
    }
  }

  /** The assemblies whose sequence is in the list, counted group by group, are counted once each. */
  lemma {:induction false} GroupsPartition(context: Context, assemblies: seq<Assembly>, sequences: seq<int>, end: Date)
    requires StrictlyDescending(sequences)
    ensures |ScheduleRows(context, assemblies, sequences, end)|
      == RowCount(context, Filter(assemblies, (a: Assembly) => a.sequence in sequences))
  {
    if sequences == [] {
      FilterMembers(assemblies, (a: Assembly) => a.sequence in sequences);
    } else {
      var s, rest := sequences[0], sequences[1..];
      GroupRowsCount(context, Group(assemblies, s), end);
      GroupsPartition(context, assemblies, rest, Subtract(end, GroupDays(assemblies, s), context.calendar));
      assert s !in rest;
      SplitCount(context, assemblies, s, rest, sequences);
    }
  }

  lemma {:induction false} SplitCount(context: Context, assemblies: seq<Assembly>, s: int, rest: seq<int>,
                                      sequences: seq<int>)
    requires sequences == [s] + rest && s !in rest
    ensures RowCount(context, Filter(assemblies, (a: Assembly) => a.sequence in sequences))
      == RowCount(context, Group(assemblies, s))
        + RowCount(context, Filter(assemblies, (a: Assembly) => a.sequence in rest))
  {
    if assemblies != [] {
      var a, p, q := assemblies[0], (a: Assembly) => a.sequence in sequences, (a: Assembly) => a.sequence in rest;
      SplitCount(context, assemblies[1..], s, rest, sequences);
      RowCountConcat(context, if p(a) then [a] else [], Filter(assemblies[1..], p));
      RowCountConcat(context, if q(a) then [a] else [], Filter(assemblies[1..], q));
      RowCountConcat(context, if a.sequence == s then [a] else [], Group(assemblies[1..], s));
    }
  }

  /** The build emits max(1, parts) rows for each assembly and loses none of them. */
  lemma EveryAssemblyIsScheduledOnce(context: Context, assemblies: seq<Assembly>, schedule: MachineSchedule)
    ensures |BuildRows(context, assemblies, schedule)| == RowCount(context, assemblies)
  {
    var end := Subtract(schedule.plannedEnd, FinalAssemblyDays(schedule.assemblyDays), context.calendar);
    var sequences := SortedSequences(assemblies);
    SortedSequencesMeaning(assemblies);
    GroupsPartition(context, assemblies, sequences, end);
    FilterAll(assemblies, (a: Assembly) => a.sequence in sequences);
  }

  // ---- what a caller may rely on across the whole build ----

  lemma {:induction false} PartsForgetRowOrder(a: seq<BomWalk.BomRow>, b: seq<BomWalk.BomRow>,
                                               assemblies: seq<Assembly>)
    requires BomWalk.UniqueIds(a) && multiset(a) == multiset(b)
    ensures PartsOf(a, assemblies) == PartsOf(b, assemblies)
  {
    if assemblies != [] {
      var last := assemblies[|assemblies| - 1];
      var no := Text(last.componentNo);
      PartsForgetRowOrder(a, b, assemblies[..|assemblies| - 1]);
      BomWalk.EmittedListForgetsRowOrder(a, b, no, if last.name != "" then last.name else no);
    }
  }

  lemma {:induction false} GroupEndNeverLater(calendar: Calendar, assemblies: seq<Assembly>, sequences: seq<int>,
                                              end: Date,
                                              s: int)
    ensures GroupEnd(calendar, assemblies, sequences, end, s) <= end
  {
    if sequences != [] && sequences[0] != s {
      var d := GroupDays(assemblies, sequences[0]);
      SubtractNeverLater(end, d, calendar);
      GroupEndNeverLater(calendar, assemblies, sequences[1..], Subtract(end, d, calendar), s);
    }
  }

  /** The end of a group, seen from a window: inside it for both calendars or for neither, and inside it the same. */
  lemma {:induction false} WindowedGroupEnd(calendar: Calendar, from: Date, to: Date, assemblies: seq<Assembly>,
                                            sequences: seq<int>, end: Date, s: int)
    requires end <= to + 1
    ensures var windowed := GroupEnd(Window(calendar, from, to), assemblies, sequences, end, s);
      var whole := GroupEnd(calendar, assemblies, sequences, end, s);
      (from <= windowed <==> from <= whole) && (from <= whole ==> windowed == whole)
  {
    if sequences != [] && sequences[0] != s {
      var d, window := GroupDays(assemblies, sequences[0]), Window(calendar, from, to);
      var next, other := Subtract(end, d, calendar), Subtract(end, d, window);
      WindowReaches(end, d, calendar, from, to);
      SubtractNeverLater(end, d, calendar);
      GroupEndNeverLater(calendar, assemblies, sequences[1..], next, s);
      GroupEndNeverLater(window, assemblies, sequences[1..], other, s);
      if from <= next { WindowedGroupEnd(calendar, from, to, assemblies, sequences[1..], next, s); }
    }
  }

  /**
   The 365-day calendar window gives a group the end date of the whole calendar whenever that date is inside it,
   which can be seen from the windowed date.
  */
  lemma WindowedEndsAreTrueEnds(calendar: Calendar, assemblies: seq<Assembly>, schedule: MachineSchedule, s: int)
    ensures var from := schedule.plannedEnd - 365;
      var windowed := EndOf(Window(calendar, from, schedule.plannedEnd + 30), assemblies, schedule, s);
      var whole := EndOf(calendar, assemblies, schedule, s);
      (from <= windowed <==> from <= whole) && (from <= whole ==> windowed == whole)
  {
    var from, to, f := schedule.plannedEnd - 365, schedule.plannedEnd + 30, FinalAssemblyDays(schedule.assemblyDays);
    var window, sequences := Window(calendar, from, to), SortedSequences(assemblies);
    var first, other := Subtract(schedule.plannedEnd, f, calendar), Subtract(schedule.plannedEnd, f, window);
    WindowReaches(schedule.plannedEnd, f, calendar, from, to);
    SubtractNeverLater(schedule.plannedEnd, f, calendar);
    GroupEndNeverLater(calendar, assemblies, sequences, first, s);
    GroupEndNeverLater(window, assemblies, sequences, other, s);
    if from <= first { WindowedGroupEnd(calendar, from, to, assemblies, sequences, first, s); }
  }

  /** The start that a row of this sequence and key cycle has on a calendar. */
  function StartOn(calendar: Calendar, assemblies: seq<Assembly>, schedule: MachineSchedule, s: int, cycle: int): Date {
    Subtract(EndOf(calendar, assemblies, schedule, s), WholeDays(cycle), calendar)
  }

  /**
   The same for starts: a built row starts where the whole calendar has it start, whenever that date is inside
   the window, which can be seen from the row.
  */
  lemma WindowedStartsAreTrueStarts(context: Context, calendar: Calendar, assemblies: seq<Assembly>,
                                    schedule: MachineSchedule, r: PartRow)
    requires context.calendar == Window(calendar, schedule.plannedEnd - 365, schedule.plannedEnd + 30)
    requires r in BuildRows(context, assemblies, schedule) && r.keyPart.Some?
    ensures var from := schedule.plannedEnd - 365;
      var start := StartOn(calendar, assemblies, schedule, r.productionSequence, r.keyPart.value.cycleDays);
      && r.plannedStart.Some? && (from <= r.plannedStart.value <==> from <= start)
      && (from <= start ==>
           r.plannedStart == Some(start) && r.plannedEnd == EndOf(calendar, assemblies, schedule, r.productionSequence))
  {
    var from, to, s := schedule.plannedEnd - 365, schedule.plannedEnd + 30, r.productionSequence;
    var days, end := WholeDays(r.keyPart.value.cycleDays), EndOf(calendar, assemblies, schedule, s);
    RowDates(context, assemblies, schedule, r);
    WindowedEndsAreTrueEnds(calendar, assemblies, schedule, s);
    SubtractNeverLater(end, days, calendar);
    EndNeverLater(calendar, assemblies, schedule, s);
    if from <= end { WindowReaches(end, days, calendar, from, to); }
  }

  lemma EndNeverLater(calendar: Calendar, assemblies: seq<Assembly>, schedule: MachineSchedule, s: int)
    ensures EndOf(calendar, assemblies, schedule, s) <= schedule.plannedEnd
  {
    var f := FinalAssemblyDays(schedule.assemblyDays);
    SubtractNeverLater(schedule.plannedEnd, f, calendar);
    GroupEndNeverLater(calendar, assemblies, SortedSequences(assemblies), Subtract(schedule.plannedEnd, f, calendar),
                       s);
  }
}
