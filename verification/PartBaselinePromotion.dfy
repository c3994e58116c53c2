/**
 From completed production orders to candidate history rows
 (app/baseline/part_cycle_baseline_service.py lines 109-232 and 257-294, app/common/part_cycle_precision.py).

 Instants are in microseconds, cycles and quantities in ten-thousandths, unit cycles in millionths.
*/
module PartBaselinePromotion {
  import opened Prelude
  import opened Sorting
  import opened Statistics
  import opened PartBaselineTable
  import opened PartCycleLookup

  const MICROS_PER_DAY := 86_400_000_000

  const MAX_VARIANCE_RATIO := 2 * SCALE_4

  const MIN_SAMPLE_COUNT := 1

  const HISTORY := "history"

  const MANUAL := "manual"

  datatype ProductionOrder = ProductionOrder(
    isCompleted: bool,
    machineModel: Option<string>,
    plant: Option<string>,
    materialDesc: Option<string>,
    start: Option<int>,
    finish: Option<int>,
    qty: Option<int>,
    lastModified: Option<int>)

  datatype Entry = Entry(cycleDays: int, unitCycleDays: int, desc: string, batchQty: int, updatedAt: int)

  /** part type, machine model, plant */
  type GroupKey = (string, string, string)

  datatype Verdict = Skipped(invalidCycle: bool) | Eligible(key: GroupKey, entry: Entry)

  predicate IsLoaded(o: ProductionOrder) {
    o.isCompleted && o.start.Some? && o.finish.Some? && o.qty.Some?
  }

  /** A non-positive span has no cycle. */
  function CycleDays(start: Option<int>, finish: Option<int>): Option<int> {
    if start.None? || finish.None? || finish.value - start.value <= 0 then None
    else Some(HalfUp((finish.value - start.value) * SCALE_4, MICROS_PER_DAY))
  }

  function Judge(o: ProductionOrder): Verdict {
    var model, plant, partType := Text(o.machineModel), Text(o.plant), ExtractPartType(o.materialDesc.GetOr(""));
    if model == "" || plant == "" || partType == "" then Skipped(false)
    else
      var cycle := CycleDays(o.start, o.finish);
      var qty := if o.qty.None? || o.qty.value == 0 then SCALE_4 else o.qty.value;
      if cycle.None? || cycle.value <= 0 || qty <= 0 then Skipped(true)
      else
        var updated := if o.lastModified.Some? then o.lastModified.value else o.finish.GetOr(0);
        Eligible((partType, model, plant),
                 Entry(cycle.value, HalfUp(cycle.value * SCALE_6, qty), Text(o.materialDesc), qty, updated))
  }

  // ---- grouping ----

  function GroupKeys(orders: seq<ProductionOrder>): seq<GroupKey> {
    if orders == [] then []
    else
      var n := |orders| - 1;
      var before := GroupKeys(orders[..n]);
      match Judge(orders[n])
      case Skipped(_) => before
      case Eligible(key, _) => if key in before then before else before + [key]
  }

  function Entries(orders: seq<ProductionOrder>, key: GroupKey): seq<Entry> {
    if orders == [] then []
    else
      var n := |orders| - 1;
      Entries(orders[..n], key) +
      match Judge(orders[n])
      case Skipped(_) => []
      case Eligible(k, entry) => if k == key then [entry] else []
  }

  lemma {:induction false} PartTypeHasNoBlanks(text: string)
    ensures forall i :: 0 <= i < |ExtractPartType(text)| ==> !IsBlank(ExtractPartType(text)[i])
  {
    if text != [] && '\U{4E00}' <= text[0] <= '\U{9FFF}' { PartTypeHasNoBlanks(text[1..]); }
  }

  lemma PartTypeIsStripped(text: string)
    ensures Strip(ExtractPartType(text)) == ExtractPartType(text)
  {
    PartTypeHasNoBlanks(text);
  }

  lemma {:induction false} KeysHaveEntries(orders: seq<ProductionOrder>, key: GroupKey)
    ensures NoDuplicates(GroupKeys(orders))
    ensures key in GroupKeys(orders) <==> Entries(orders, key) != []
  {
    if orders != [] {
      KeysHaveEntries(orders[..|orders| - 1], key);
    }
  }

  /** What every key is made of. */
  predicate IsNamed(key: GroupKey) {
    key.0 != "" && key.1 != "" && key.2 != "" && Strip(key.2) == key.2 && Strip(key.0) == key.0
  }

  lemma EligibleIsNamed(o: ProductionOrder)
    ensures Judge(o).Eligible? ==> IsNamed(Judge(o).key) && Judge(o).entry.cycleDays > 0 && Judge(o).entry.batchQty > 0
  {
    StripIdempotent(o.plant.GetOr(""));
    PartTypeIsStripped(o.materialDesc.GetOr(""));
  }

  lemma {:induction false} KeysAreNamed(orders: seq<ProductionOrder>, key: GroupKey)
    ensures key in GroupKeys(orders) ==> IsNamed(key)
    ensures forall e :: e in Entries(orders, key) ==> e.cycleDays > 0 && e.batchQty > 0
  {
    if orders != [] {
      KeysAreNamed(orders[..|orders| - 1], key);
      EligibleIsNamed(orders[|orders| - 1]);
    }
  }

  lemma GroupsHaveEntries(orders: seq<ProductionOrder>, key: GroupKey)
    ensures NoDuplicates(GroupKeys(orders))
    ensures key in GroupKeys(orders) <==> Entries(orders, key) != []
    ensures key in GroupKeys(orders) ==> IsNamed(key)
    ensures forall e :: e in Entries(orders, key) ==> e.cycleDays > 0 && e.batchQty > 0
  {
    KeysHaveEntries(orders, key);
    KeysAreNamed(orders, key);
  }

  datatype Stats = Stats(total: nat, eligible: nat, missingScope: nat, invalidCycle: nat)

  function Tally(s: Stats, v: Verdict): Stats {
    match v
    case Skipped(false) => s.(total := s.total + 1, missingScope := s.missingScope + 1)
    case Skipped(true) => s.(total := s.total + 1, invalidCycle := s.invalidCycle + 1)
    case Eligible(_, _) => s.(total := s.total + 1, eligible := s.eligible + 1)
  }

  function Count(orders: seq<ProductionOrder>): Stats {
    if orders == [] then Stats(0, 0, 0, 0) else Tally(Count(orders[..|orders| - 1]), Judge(orders[|orders| - 1]))
  }

  /** What the loop over the orders has collected from these. */
  ghost predicate Collected(orders: seq<ProductionOrder>, groups: map<GroupKey, seq<Entry>>, keys: seq<GroupKey>) {
    && keys == GroupKeys(orders)
    && (forall k :: k in groups <==> k in keys)
    && forall k :: k in groups ==> groups[k] == Entries(orders, k)
  }

  /** groups[key].append(entry), on a defaultdict of lists. */
  function AddEntry(groups: map<GroupKey, seq<Entry>>, key: GroupKey, entry: Entry): map<GroupKey, seq<Entry>> {
    groups[key := (if key in groups then groups[key] else []) + [entry]]
  }

  lemma SkipNext(before: seq<ProductionOrder>, o: ProductionOrder, k: GroupKey)
    requires Judge(o).Skipped?
    ensures GroupKeys(before + [o]) == GroupKeys(before) && Entries(before + [o], k) == Entries(before, k)
  {
    assert (before + [o])[..|before|] == before;
  }

  lemma AddNext(before: seq<ProductionOrder>, o: ProductionOrder, k: GroupKey)
    requires Judge(o).Eligible?
    ensures var v := Judge(o);
      && GroupKeys(before + [o]) == GroupKeys(before) + (if v.key in GroupKeys(before) then [] else [v.key])
      && Entries(before + [o], k) == Entries(before, k) + if v.key == k then [v.entry] else []
  {
    assert (before + [o])[..|before|] == before;
  }

  lemma CollectSkipped(before: seq<ProductionOrder>, o: ProductionOrder, groups: map<GroupKey, seq<Entry>>,
                       keys: seq<GroupKey>)
    requires Collected(before, groups, keys) && Judge(o).Skipped?
    ensures Collected(before + [o], groups, keys)
  {
    SkipNext(before, o, ("", "", ""));
    forall k | k in groups ensures groups[k] == Entries(before + [o], k) { SkipNext(before, o, k); }
  }

  lemma CollectAdded(before: seq<ProductionOrder>, longer: seq<ProductionOrder>, groups: map<GroupKey, seq<Entry>>,
                     keys: seq<GroupKey>, key: GroupKey, entry: Entry)
    requires Collected(before, groups, keys) && (key !in keys ==> Entries(before, key) == [])
    requires GroupKeys(longer) == if key in keys then keys else keys + [key]
    requires forall k :: Entries(longer, k) == Entries(before, k) + if k == key then [entry] else []
    ensures Collected(longer, AddEntry(groups, key, entry), if key in keys then keys else keys + [key])
  {
    forall k | k in AddEntry(groups, key, entry) ensures AddEntry(groups, key, entry)[k] == Entries(longer, k) {
      assert k in groups ==> groups[k] == Entries(before, k);
    }
  }

  lemma CollectEligible(before: seq<ProductionOrder>, o: ProductionOrder, groups: map<GroupKey, seq<Entry>>,
                        keys: seq<GroupKey>, key: GroupKey, entry: Entry)
    requires Collected(before, groups, keys) && Judge(o) == Eligible(key, entry)
    ensures Collected(before + [o], AddEntry(groups, key, entry), if key in keys then keys else keys + [key])
  {
    KeysHaveEntries(before, key);
    AddNext(before, o, key);
    forall k ensures Entries(before + [o], k) == Entries(before, k) + if k == key then [entry] else [] {
      AddNext(before, o, k);
    }
    CollectAdded(before, before + [o], groups, keys, key, entry);
  }

  lemma CountNext(before: seq<ProductionOrder>, o: ProductionOrder)
    ensures Count(before + [o]) == Tally(Count(before), Judge(o))
  {
    assert (before + [o])[..|before|] == before;
  }

  method CollectGroupEntries(orders: seq<ProductionOrder>)
    returns (groups: map<GroupKey, seq<Entry>>, keys: seq<GroupKey>, stats: Stats)
    ensures keys == GroupKeys(orders) && stats == Count(orders)
    ensures forall k :: k in groups <==> k in keys
    ensures forall k :: k in groups ==> groups[k] == Entries(orders, k)
  {
    groups, keys, stats := map[], [], Stats(0, 0, 0, 0);
    for i := 0 to |orders|
      invariant Collected(orders[..i], groups, keys) && stats == Count(orders[..i])
    {
      var verdict := Judge(orders[i]);
      CountNext(orders[..i], orders[i]);
      assert orders[..i + 1] == orders[..i] + [orders[i]];
      stats := Tally(stats, verdict);
      if verdict.Eligible? {
        CollectEligible(orders[..i], orders[i], groups, keys, verdict.key, verdict.entry);
        if verdict.key !in keys { keys := keys + [verdict.key]; }
        groups := AddEntry(groups, verdict.key, verdict.entry);
      } else {
        CollectSkipped(orders[..i], orders[i], groups, keys);
      }
    }
    assert orders[..|orders|] == orders;
  }

  // ---- promotion ----

  function Cycles(entries: seq<Entry>): seq<int> {
    Map(entries, (e: Entry) => e.cycleDays)
  }

  function UnitCycles(entries: seq<Entry>): seq<int> {
    Map(entries, (e: Entry) => e.unitCycleDays)
  }

  function BatchQtys(entries: seq<Entry>): seq<int> {
    Map(entries, (e: Entry) => e.batchQty)
  }

  /** max / min to four places; 999999 when the minimum is not positive. */
  function VarianceRatio(values: seq<int>): int {
    if values == [] then 0
    else if Minimum(values) <= 0 then 999_999 * SCALE_4
    else HalfUp(Maximum(values) * SCALE_4, Minimum(values))
  }

  /** The median rounded to the scale of its samples. */
  function Median(values: seq<int>): int
    requires values != []
  {
    HalfUp(TwiceMedian(values), 2)
  }

  /** Whole days, half up. */
  function NormalizeCycleDays(x: int): int { HalfUp(x, SCALE_4) * SCALE_4 }

  /** Tenths of a day, half up. */
  function NormalizeUnitCycleDays(x: int): int { HalfUp(x, SCALE_6 / 10) * (SCALE_6 / 10) }

  /** The first of the most recently updated entries. */
  function Representative(entries: seq<Entry>): Entry
    requires entries != []
  {
    if |entries| == 1 then entries[0]
    else
      var n := |entries| - 1;
      var before := Representative(entries[..n]);
      if entries[n].updatedAt > before.updatedAt then entries[n] else before
  }

  function Confidence(samples: nat, ratio: int): string {
    if samples >= 5 && ratio <= 15_000 then "high" else "medium"
  }

  function Remark(samples: nat, ratio: int): string {
    "samples=" + DecimalText(samples) + " ratio=" + DecimalText(if ratio >= 0 then ratio else 0)
  }

  predicate IsPromoted(entries: seq<Entry>) {
    |entries| >= MIN_SAMPLE_COUNT && VarianceRatio(Cycles(entries)) <= MAX_VARIANCE_RATIO
  }

  /** A candidate row; id 0 and instant 0 mean it is not stored yet. */
  function CandidateRow(key: GroupKey, samples: nat, ratio: int, batchQty: int, cycle: int, unitCycle: int,
                        desc: string, updatedAt: int): Baseline {
    Baseline(0, key.0, desc, key.0, Some(key.1), Some(key.2), batchQty,
             NormalizeCycleDays(cycle), NormalizeUnitCycleDays(unitCycle), samples, Some(updatedAt), HISTORY,
             "part_type_exact_with_plant", Confidence(samples, ratio), false, true, Remark(samples, ratio), 0)
  }

  /** The description a candidate takes from an entry. */
  function Described(key: GroupKey, e: Entry): string {
    if e.desc != "" then e.desc else key.0
  }

  /** The candidate row of a group. */
  function PromotedRow(key: GroupKey, entries: seq<Entry>): Baseline
    requires entries != []
  {
    var rep := Representative(entries);
    CandidateRow(key, |entries|, VarianceRatio(Cycles(entries)), Median(BatchQtys(entries)), Median(Cycles(entries)),
                 Median(UnitCycles(entries)), Described(key, rep), rep.updatedAt)
  }

  /** The candidate row of a group that passes. */
  function RowsOfGroup(orders: seq<ProductionOrder>): GroupKey -> seq<Baseline> {
    (key: GroupKey) =>
      var entries := Entries(orders, key);
      if entries != [] && IsPromoted(entries) then [PromotedRow(key, entries)] else []
  }

  function PromotedOf(orders: seq<ProductionOrder>, keys: seq<GroupKey>): seq<Baseline> {
    FlatMap(keys, RowsOfGroup(orders))
  }

  /** The candidate rows of all completed orders. */
  function Promoted(orders: seq<ProductionOrder>): seq<Baseline> {
    var loaded := Filter(orders, IsLoaded);
    PromotedOf(loaded, GroupKeys(loaded))
  }

  function HasFewSamples(orders: seq<ProductionOrder>): GroupKey -> bool {
    (key: GroupKey) => |Entries(orders, key)| < MIN_SAMPLE_COUNT
  }

  function IsSpread(orders: seq<ProductionOrder>): GroupKey -> bool {
    (key: GroupKey) => |Entries(orders, key)| >= MIN_SAMPLE_COUNT
      && VarianceRatio(Cycles(Entries(orders, key))) > MAX_VARIANCE_RATIO
  }

  function CountOf(keys: seq<GroupKey>, p: GroupKey -> bool): nat {
    if keys == [] then 0 else CountOf(keys[..|keys| - 1], p) + if p(keys[|keys| - 1]) then 1 else 0
  }

  lemma {:induction false} CountIsFiltered(keys: seq<GroupKey>, p: GroupKey -> bool)
    ensures CountOf(keys, p) == |Filter(keys, p)|
  {
    if keys != [] {
      var n := |keys| - 1;
      CountIsFiltered(keys[..n], p);
      FilterConcat(keys[..n], [keys[n]], p);
      assert keys == keys[..n] + [keys[n]];
    }
  }

  /** What a group comes to: a reason to skip it, or its row. */
  datatype Decision = TooFew | TooSpread | Promote(row: Baseline)

  function Decide(key: GroupKey, entries: seq<Entry>): Decision {
    if |entries| < MIN_SAMPLE_COUNT then TooFew
    else if VarianceRatio(Cycles(entries)) > MAX_VARIANCE_RATIO then TooSpread
    else Promote(PromotedRow(key, entries))
  }

  /** The decisions as the specification has them. */
  ghost predicate Means(d: Decision, rows: seq<Baseline>, isFew: bool, isSpread: bool) {
    isFew == d.TooFew? && isSpread == d.TooSpread? && rows == if d.Promote? then [d.row] else []
  }

  lemma DecisionMeans(orders: seq<ProductionOrder>, key: GroupKey)
    ensures Means(Decide(key, Entries(orders, key)), RowsOfGroup(orders)(key), HasFewSamples(orders)(key),
                  IsSpread(orders)(key))
  {
  }

  lemma CountNextKey(keys: seq<GroupKey>, key: GroupKey, p: GroupKey -> bool)
    ensures CountOf(keys + [key], p) == CountOf(keys, p) + if p(key) then 1 else 0
  {
    assert (keys + [key])[..|keys|] == keys;
  }

  /** The loop over the groups, however they are decided. */
  method BuildRows(groups: map<GroupKey, seq<Entry>>, keys: seq<GroupKey>, decide: (GroupKey, seq<Entry>) -> Decision,
                   ghost rowsOf: GroupKey -> seq<Baseline>, ghost few: GroupKey -> bool, ghost spread: GroupKey -> bool)
    returns (promoted: seq<Baseline>, skippedLowSample: nat, skippedHighVariance: nat)
    requires forall k :: k in keys ==> k in groups && Means(decide(k, groups[k]), rowsOf(k), few(k), spread(k))
    ensures promoted == FlatMap(keys, rowsOf)
    ensures skippedLowSample == CountOf(keys, few) && skippedHighVariance == CountOf(keys, spread)
    ensures |promoted| + skippedLowSample + skippedHighVariance == |keys|
  {
    promoted, skippedLowSample, skippedHighVariance := [], 0, 0;
    for i := 0 to |keys|
      invariant promoted == FlatMap(keys[..i], rowsOf)
      invariant skippedLowSample == CountOf(keys[..i], few) && skippedHighVariance == CountOf(keys[..i], spread)
      invariant |promoted| + skippedLowSample + skippedHighVariance == i
    {
      assert keys[..i + 1] == keys[..i] + [keys[i]];
      FlatMapNext(keys[..i], keys[i], rowsOf);
      CountNextKey(keys[..i], keys[i], few);
      CountNextKey(keys[..i], keys[i], spread);
      assert keys[i] in keys;
      match decide(keys[i], groups[keys[i]]) {
        case TooFew => skippedLowSample := skippedLowSample + 1;
        case TooSpread => skippedHighVariance := skippedHighVariance + 1;
        case Promote(row) => promoted := promoted + [row];
      }
    }
    assert keys[..|keys|] == keys;
  }

  method BuildPromotedRows(ghost orders: seq<ProductionOrder>, groups: map<GroupKey, seq<Entry>>, keys: seq<GroupKey>)
    returns (promoted: seq<Baseline>, skippedLowSample: nat, skippedHighVariance: nat)
    requires forall k :: k in keys ==> k in groups && groups[k] == Entries(orders, k)
    ensures promoted == PromotedOf(orders, keys)
    ensures skippedLowSample == |Filter(keys, HasFewSamples(orders))|
    ensures skippedHighVariance == |Filter(keys, IsSpread(orders))|
    ensures |promoted| + skippedLowSample + skippedHighVariance == |keys|
  {
    forall k | k in keys
      ensures Means(Decide(k, groups[k]), RowsOfGroup(orders)(k), HasFewSamples(orders)(k), IsSpread(orders)(k))
    {
      DecisionMeans(orders, k);
    }
    CountIsFiltered(keys, HasFewSamples(orders));
    CountIsFiltered(keys, IsSpread(orders));
    promoted, skippedLowSample, skippedHighVariance :=
      BuildRows(groups, keys, Decide, RowsOfGroup(orders), HasFewSamples(orders), IsSpread(orders));
  }

  // ---- rounding ----

  /** Half-up rounding is within half a unit. */
  lemma HalfUpNear(x: int, den: int)
    requires den > 0
    ensures -den <= 2 * (HalfUp(x, den) * den) - 2 * x <= den
  {
    var y := if x >= 0 then x else -x;
    var q := (2 * y + den) / (2 * den);
    assert q * (2 * den) <= 2 * y + den < (q + 1) * (2 * den);
    assert q * (2 * den) == 2 * (q * den);
    if x < 0 {
      assert HalfUp(x, den) * den == -(q * den);
    }
  }

  /** A multiple of the unit is its own rounding. */
  lemma HalfUpOfMultiple(k: int, den: int)
    requires den > 0
    ensures HalfUp(k * den, den) == k
  {
    if k >= 0 {
      HalfUpOfProduct(k, den, k * den);
    } else {
      assert -(k * den) == (-k) * den;
      HalfUpOfProduct(-k, den, -(k * den));
      assert k * den < 0;
    }
  }

  lemma HalfUpOfProduct(m: nat, den: int, x: int)
    requires den > 0 && x == m * den
    ensures (2 * x + den) / (2 * den) == m && x >= 0
  {
    DoubledProduct(m, den);
    QuotientUnique(2 * x + den, 2 * den, m);
  }

  lemma NormalizedIsFixed(x: int)
    ensures NormalizeCycleDays(NormalizeCycleDays(x)) == NormalizeCycleDays(x)
    ensures NormalizeUnitCycleDays(NormalizeUnitCycleDays(x)) == NormalizeUnitCycleDays(x)
  {
    HalfUpOfMultiple(HalfUp(x, SCALE_4), SCALE_4);
    HalfUpOfMultiple(HalfUp(x, SCALE_6 / 10), SCALE_6 / 10);
  }

  lemma HalfUpMonotone(x: int, y: int)
    requires x <= y
    ensures NormalizeCycleDays(x) <= NormalizeCycleDays(y)
  {
  }

  lemma RatioBound(high: int, low: int)
    requires low > 0 && HalfUp(high * SCALE_4, low) <= MAX_VARIANCE_RATIO
    ensures 100_000 * high <= 200_005 * low
  {
    HalfUpNear(high * SCALE_4, low);
    MulMonotone(HalfUp(high * SCALE_4, low), MAX_VARIANCE_RATIO, low);
  }

  /** Samples whose variance ratio rounds to at most 2 stay within a factor 2.00005 of each other. */
  lemma VarianceBoundsTheSpread(values: seq<int>)
    requires values != [] && Minimum(values) > 0 && VarianceRatio(values) <= MAX_VARIANCE_RATIO
    ensures 100_000 * Maximum(values) <= 200_005 * Minimum(values)
  {
    RatioBound(Maximum(values), Minimum(values));
  }

  /** The double rounding of a doubled median m2 that lies between low and high. */
  lemma RoundedMedian(low: int, high: int, m2: int)
    requires 2 * low <= m2 <= 2 * high
    ensures NormalizeCycleDays(low) <= NormalizeCycleDays(HalfUp(m2, 2)) <= NormalizeCycleDays(high)
    ensures Abs(2 * NormalizeCycleDays(HalfUp(m2, 2)) - m2) * 100_000 <= 2 * 50_005 * SCALE_4
  {
    HalfUpNear(m2, 2);
    HalfUpNear(HalfUp(m2, 2), SCALE_4);
    HalfUpMonotone(low, HalfUp(m2, 2));
    HalfUpMonotone(HalfUp(m2, 2), high);
  }

  ghost predicate AllPositive(values: seq<int>) {
    forall v :: v in values ==> v > 0
  }

  lemma SamplesNearMedian(values: seq<int>)
    requires values != [] && AllPositive(values) && VarianceRatio(values) <= MAX_VARIANCE_RATIO
    ensures forall v :: v in values ==> NearMedian(v, TwiceMedian(values))
  {
    MedianLiesBetween(values);
    VarianceBoundsTheSpread(values);
  }

  lemma CyclesArePositive(entries: seq<Entry>)
    requires forall e :: e in entries ==> e.cycleDays > 0
    ensures AllPositive(Cycles(entries))
  {
    forall v | v in Cycles(entries) ensures v > 0 {
      var i :| 0 <= i < |entries| && Cycles(entries)[i] == v;
      assert entries[i] in entries;
    }
  }

  /**
   The promoted cycle of a group: between the rounded extremes, within 0.50005 days of the true median, and
   with every sample within a factor 2.00005 of that median.
  */
  lemma PromotedCycleIsCloseToTheMedian(key: GroupKey, entries: seq<Entry>)
    requires entries != [] && IsPromoted(entries) && forall e :: e in entries ==> e.cycleDays > 0
    ensures var cycles, days := Cycles(entries), PromotedRow(key, entries).cycleDays;
      && NormalizeCycleDays(Minimum(cycles)) <= days <= NormalizeCycleDays(Maximum(cycles))
      && Abs(2 * days - TwiceMedian(cycles)) * 100_000 <= 2 * 50_005 * SCALE_4
      && forall c :: c in cycles ==> NearMedian(c, TwiceMedian(cycles))
  {
    var cycles := Cycles(entries);
    CyclesArePositive(entries);
    SamplesNearMedian(cycles);
    MedianLiesBetween(cycles);
    RoundedMedian(Minimum(cycles), Maximum(cycles), TwiceMedian(cycles));
  }

  /** c is at most 2.00005 times the median, and the median at most 2.00005 times c. */
  predicate NearMedian(c: int, twiceMedian: int) {
    2 * c * 100_000 <= 200_005 * twiceMedian && twiceMedian * 100_000 <= 200_005 * (2 * c)
  }

  function ScopeTriple(row: Baseline): (string, Option<string>, Option<string>) {
    (row.materialNo, row.machineModel, row.plant)
  }

  /** A candidate says what the rebuild promises of every history row it writes. */
  ghost predicate IsCandidate(row: Baseline) {
    && row.cycleSource == HISTORY && row.isActive && row.machineModel.Some?
    && row.plant == NormalizePlant(row.plant) && row.materialNo == row.corePartName
    && Strip(row.materialNo) == row.materialNo
    && row.cycleDays == NormalizeCycleDays(row.cycleDays)
    && row.unitCycleDays == NormalizeUnitCycleDays(row.unitCycleDays)
  }

  /** Candidates only, and no two of the same scope. */
  ghost predicate WellPromoted(rows: seq<Baseline>) {
    (forall i :: 0 <= i < |rows| ==> IsCandidate(rows[i])) && DistinctScopes(rows)
  }

  ghost predicate DistinctScopes(rows: seq<Baseline>) {
    forall i, j :: 0 <= i < j < |rows| ==> ScopeTriple(rows[i]) != ScopeTriple(rows[j])
  }

  lemma PromotedRowIsCandidate(orders: seq<ProductionOrder>, key: GroupKey)
    requires Entries(orders, key) != []
    ensures IsCandidate(PromotedRow(key, Entries(orders, key)))
  {
    GroupsHaveEntries(orders, key);
    NormalizedIsFixed(Median(Cycles(Entries(orders, key))));
    NormalizedIsFixed(Median(UnitCycles(Entries(orders, key))));
  }

  function KeyTriple(key: GroupKey): (string, Option<string>, Option<string>) {
    (key.0, Some(key.1), Some(key.2))
  }

  lemma {:induction false} PromotedRowsComeFromKeys(orders: seq<ProductionOrder>, keys: seq<GroupKey>, i: nat)
    returns (k: nat)
    requires i < |PromotedOf(orders, keys)|
    ensures k < |keys| && Entries(orders, keys[k]) != [] && IsPromoted(Entries(orders, keys[k]))
    ensures PromotedOf(orders, keys)[i] == PromotedRow(keys[k], Entries(orders, keys[k]))
    ensures ScopeTriple(PromotedOf(orders, keys)[i]) == KeyTriple(keys[k])
  {
    var n := |keys| - 1;
    if i < |PromotedOf(orders, keys[..n])| {
      k := PromotedRowsComeFromKeys(orders, keys[..n], i);
    } else {
      k := n;
    }
  }

  lemma {:induction false} PromotedScopesAreDistinct(orders: seq<ProductionOrder>, keys: seq<GroupKey>)
    requires NoDuplicates(keys)
    ensures DistinctScopes(PromotedOf(orders, keys))
  {
    if keys != [] {
      var n := |keys| - 1;
      var before := PromotedOf(orders, keys[..n]);
      PromotedScopesAreDistinct(orders, keys[..n]);
      forall i | 0 <= i < |before| ensures ScopeTriple(before[i]) != KeyTriple(keys[n]) {
        var k := PromotedRowsComeFromKeys(orders, keys[..n], i);
        assert keys[..n][k] == keys[k] != keys[n];
      }
    }
  }

  lemma PromotedRowsAreWellFormed(orders: seq<ProductionOrder>)
    ensures WellPromoted(Promoted(orders))
  {
    var loaded := Filter(orders, IsLoaded);
    GroupsHaveEntries(loaded, ("", "", ""));
    PromotedScopesAreDistinct(loaded, GroupKeys(loaded));
    forall i | 0 <= i < |Promoted(orders)| ensures IsCandidate(Promoted(orders)[i]) {
      var k := PromotedRowsComeFromKeys(loaded, GroupKeys(loaded), i);
      PromotedRowIsCandidate(loaded, GroupKeys(loaded)[k]);
    }
  }

  // ---- what an order contributes ----

  /** Microseconds from the start of an order to its finish. */
  function Span(o: ProductionOrder): int {
    if o.start.Some? && o.finish.Some? then o.finish.value - o.start.value else 0
  }

  /** Model, plant and part type are all known. */
  predicate IsScoped(o: ProductionOrder) {
    Text(o.machineModel) != "" && Text(o.plant) != "" && ExtractPartType(o.materialDesc.GetOr("")) != ""
  }

  lemma HalfUpVanishes(num: nat, den: int)
    requires den > 0
    ensures HalfUp(num, den) <= 0 <==> 2 * num < den
  {
    HalfUpIsNearest(num, den, HalfUp(num, den));
    HalfUpIsNearest(num, den, 0);
    if HalfUp(num, den) < 0 { MulMonotone(HalfUp(num, den), -1, den); }
  }

  /**
   Which orders are skipped: those without a scope, and those whose span is under half a ten-thousandth of a day or
   whose quantity is negative.
  */
  lemma SkippedExactly(o: ProductionOrder)
    ensures Judge(o) == Skipped(false) <==> !IsScoped(o)
    ensures Judge(o) == Skipped(true) <==>
      IsScoped(o) && (2 * (Span(o) * 10_000) < 86_400_000_000 || o.qty.GetOr(0) < 0)
  {
    if Span(o) > 0 { HalfUpVanishes(Span(o) * 10_000, 86_400_000_000); }
  }

  /**
   An eligible order counts with its span in days, rounded half up to four places, and with the share of that which
   one unit takes, rounded half up to six; a day has 86400 seconds.
  */
  lemma EntryMeasuresItsOrder(o: ProductionOrder)
    requires Judge(o).Eligible?
    ensures var e := Judge(o).entry;
      && -86_400_000_000 < 2 * (e.cycleDays * 86_400_000_000) - 2 * (Span(o) * 10_000) <= 86_400_000_000
      && e.batchQty == (if o.qty.GetOr(0) == 0 then 10_000 else o.qty.value)
      && -e.batchQty < 2 * (e.unitCycleDays * e.batchQty) - 2 * (e.cycleDays * 1_000_000) <= e.batchQty
      && e.desc == Strip(o.materialDesc.GetOr(""))
      && (o.lastModified == Some(e.updatedAt) || (o.lastModified.None? && o.finish == Some(e.updatedAt)))
    ensures Judge(o).key == (ExtractPartType(o.materialDesc.GetOr("")), Text(o.machineModel), Text(o.plant))
  {
    var e := Judge(o).entry;
    HalfUpIsNearest(Span(o) * 10_000, 86_400_000_000, e.cycleDays);
    HalfUpIsNearest(e.cycleDays * 1_000_000, e.batchQty, e.unitCycleDays);
  }

  /** k days are k days, and the share of a unit is exact when it is a number of tenths. */
  lemma WholeSpansAreExact(o: ProductionOrder, k: nat)
    requires Judge(o).Eligible? && Span(o) == k * 86_400_000_000
    ensures Judge(o).entry.cycleDays == k * 10_000
  {
    HalfUpIsNearest(Span(o) * 10_000, 86_400_000_000, k * 10_000);
  }

  lemma WholeSharesAreExact(o: ProductionOrder, k: nat, n: nat, t: nat)
    requires Judge(o).Eligible? && Span(o) == k * 86_400_000_000 && o.qty == Some(n * 10_000)
    requires n > 0 && 10 * k == t * n
    ensures Judge(o).entry.batchQty == n * 10_000 && Judge(o).entry.unitCycleDays == t * 100_000
  {
    WholeSpansAreExact(o, k);
    TenthsShare(k, n, t);
    HalfUpIsNearest(k * 10_000 * 1_000_000, n * 10_000, t * 100_000);
  }

  lemma TenthsShare(k: nat, n: nat, t: nat)
    requires 10 * k == t * n
    ensures (t * 100_000) * (n * 10_000) == k * 10_000 * 1_000_000
  {
    assert (t * 100_000) * (n * 10_000) == (t * n) * 1_000_000_000;
  }

  /** The entries of a group are those of its eligible orders, in the order read. */
  lemma {:induction false} EntryHasAnOrder(orders: seq<ProductionOrder>, key: GroupKey, e: Entry)
    ensures e in Entries(orders, key) <==> exists o :: o in orders && Judge(o) == Eligible(key, e)
  {
    if orders != [] {
      var n := |orders| - 1;
      assert orders == orders[..n] + [orders[n]];
      EntryHasAnOrder(orders[..n], key, e);
    }
  }

  /** How many orders a group has. */
  function InGroup(key: GroupKey): ProductionOrder -> bool {
    (o: ProductionOrder) => Judge(o).Eligible? && Judge(o).key == key
  }

  lemma {:induction false} EntriesCountTheGroup(orders: seq<ProductionOrder>, key: GroupKey)
    ensures |Entries(orders, key)| == |Filter(orders, InGroup(key))|
  {
    if orders != [] {
      var before, o := orders[..|orders| - 1], orders[|orders| - 1];
      assert orders == before + [o];
      EntriesCountTheGroup(before, key);
      FilterOne(before, o, InGroup(key));
    }
  }

  // ---- what a promoted row says ----

  lemma RoundedToUnit(x: nat, unit: int)
    requires unit > 0
    ensures var r := HalfUp(x, unit) * unit; -unit < 2 * r - 2 * x <= unit && r % unit == 0
  {
    HalfUpIsNearest(x, unit, HalfUp(x, unit));
    ProductDivides(HalfUp(x, unit), unit);
  }

  lemma ProductDivides(m: int, unit: int)
    requires unit > 0
    ensures (m * unit) % unit == 0
  {
    QuotientUnique(m * unit, unit, m);
  }

  /** Rounding to whole days, and to tenths, takes the nearest and the upper one of two. */
  lemma NormalizedIsNearest(x: nat)
    ensures -10_000 < 2 * NormalizeCycleDays(x) - 2 * x <= 10_000 && NormalizeCycleDays(x) % 10_000 == 0
    ensures -100_000 < 2 * NormalizeUnitCycleDays(x) - 2 * x <= 100_000 && NormalizeUnitCycleDays(x) % 100_000 == 0
  {
    RoundedToUnit(x, 10_000);
    RoundedToUnit(x, 100_000);
  }

  lemma RoundedRatioAtMost(high: nat, low: nat, bound: nat)
    requires low > 0
    ensures HalfUp(high * 10_000, low) <= bound <==> 20_000 * high < (2 * bound + 1) * low
  {
    var r := HalfUp(high * 10_000, low);
    HalfUpIsNearest(high * 10_000, low, r);
    MulMonotone(r, bound, low);
    MulMonotone(bound + 1, r, low);
    SuccessorProducts(bound, low);
  }

  lemma SuccessorProducts(m: nat, low: nat)
    ensures (m + 1) * low == m * low + low && (2 * m + 1) * low == 2 * (m * low) + low
  {
  }

  lemma RatioAtMost(values: seq<int>, bound: nat)
    requires values != [] && Minimum(values) > 0
    ensures VarianceRatio(values) <= bound <==> 20_000 * Maximum(values) < (2 * bound + 1) * Minimum(values)
  {
    var high, low := Maximum(values), Minimum(values);
    assert high >= low;
    RoundedRatioAtMost(high, low, bound);
  }

  /**
   A group is promoted exactly when its longest cycle is less than 2.00005 times its shortest; confidence is high from
   five samples on when it is less than 1.50005 times.
  */
  lemma PromotedIff(key: GroupKey, entries: seq<Entry>)
    requires entries != [] && forall e :: e in entries ==> e.cycleDays > 0
    ensures var longest, shortest := Maximum(Cycles(entries)), Minimum(Cycles(entries));
      && (IsPromoted(entries) <==> 20_000 * longest < 40_001 * shortest)
      && PromotedRow(key, entries).confidenceLevel
        == if |entries| >= 5 && 20_000 * longest < 30_001 * shortest then "high" else "medium"
  {
    CyclesArePositive(entries);
    RatioAtMost(Cycles(entries), 20_000);
    RatioAtMost(Cycles(entries), 15_000);
  }

  /** The first of the most recently updated entries. */
  ghost predicate IsLatest(entries: seq<Entry>, k: int) {
    && 0 <= k < |entries|
    && (forall i :: 0 <= i < |entries| ==> entries[i].updatedAt <= entries[k].updatedAt)
    && (forall i :: 0 <= i < k ==> entries[i].updatedAt < entries[k].updatedAt)
  }

  lemma {:induction false} RepresentativeIsLatest(entries: seq<Entry>) returns (k: nat)
    requires entries != []
    ensures IsLatest(entries, k) && Representative(entries) == entries[k]
  {
    k := 0;
    if |entries| > 1 {
      var n := |entries| - 1;
      var j := RepresentativeIsLatest(entries[..n]);
      assert forall i :: 0 <= i < n ==> entries[..n][i] == entries[i];
      k := if entries[n].updatedAt > entries[j].updatedAt then n else j;
    }
  }

  lemma RoundedTwice(m2: int, unit: int)
    requires unit > 0
    ensures Abs(2 * (HalfUp(HalfUp(m2, 2), unit) * unit) - m2) <= unit + 1 && Abs(2 * HalfUp(m2, 2) - m2) <= 1
  {
    HalfUpNear(m2, 2);
    HalfUpNear(HalfUp(m2, 2), unit);
  }

  lemma RoundedMediansAreNear(entries: seq<Entry>)
    requires entries != []
    ensures Abs(2 * Median(BatchQtys(entries)) - TwiceMedian(BatchQtys(entries))) <= 1
    ensures Abs(2 * NormalizeCycleDays(Median(Cycles(entries))) - TwiceMedian(Cycles(entries))) <= 10_001
    ensures Abs(2 * NormalizeUnitCycleDays(Median(UnitCycles(entries))) - TwiceMedian(UnitCycles(entries))) <= 100_001
  {
    RoundedTwice(TwiceMedian(BatchQtys(entries)), 1);
    RoundedTwice(TwiceMedian(Cycles(entries)), 10_000);
    RoundedTwice(TwiceMedian(UnitCycles(entries)), 100_000);
  }

  /** Every column of a promoted row. */
  lemma PromotedRowSays(key: GroupKey, entries: seq<Entry>) returns (k: nat)
    requires entries != []
    ensures var r := PromotedRow(key, entries);
      && IsLatest(entries, k)
      && r.materialNo == r.corePartName == key.0 && r.machineModel == Some(key.1) && r.plant == Some(key.2)
      && r.materialDesc == (if entries[k].desc != "" then entries[k].desc else key.0)
      && r.sourceUpdatedAt == Some(entries[k].updatedAt) && r.sampleCount == |entries|
      && Abs(2 * r.refBatchQty - TwiceMedian(BatchQtys(entries))) <= 1
      && Abs(2 * r.cycleDays - TwiceMedian(Cycles(entries))) <= 10_001
      && Abs(2 * r.unitCycleDays - TwiceMedian(UnitCycles(entries))) <= 100_001
      && r.cycleSource == "history" && r.matchRule == "part_type_exact_with_plant" && r.isActive && !r.isDefault
  {
    k := RepresentativeIsLatest(entries);
    RoundedMediansAreNear(entries);
  }

  lemma MedianOfEqual(values: seq<int>, v: nat)
    requires values != [] && forall x :: x in values ==> x == v
    ensures Median(values) == v
  {
    MedianLiesBetween(values);
    HalfUpIsNearest(TwiceMedian(values), 2, v);
  }

  lemma PassingKey(orders: seq<ProductionOrder>, key: GroupKey, r: Baseline) returns (k: nat)
    requires IsRowOf(orders, key, r)
    ensures k < |GroupKeys(orders)| && GroupKeys(orders)[k] == key
  {
    KeysHaveEntries(orders, key);
    k :| 0 <= k < |GroupKeys(orders)| && GroupKeys(orders)[k] == key;
  }

  /** The group of this key passes and gives this row. */
  ghost predicate IsRowOf(orders: seq<ProductionOrder>, key: GroupKey, r: Baseline) {
    var entries := Entries(orders, key);
    entries != [] && IsPromoted(entries) && r == PromotedRow(key, entries)
  }

  /** Every candidate is the row of a group that passes ... */
  lemma KeyOfRow(orders: seq<ProductionOrder>, r: Baseline) returns (key: GroupKey)
    requires r in Promoted(orders)
    ensures IsRowOf(Filter(orders, IsLoaded), key, r)
  {
    var loaded := Filter(orders, IsLoaded);
    var i :| 0 <= i < |Promoted(orders)| && Promoted(orders)[i] == r;
    var k := PromotedRowsComeFromKeys(loaded, GroupKeys(loaded), i);
    key := GroupKeys(loaded)[k];
  }

  /** ... and every group that passes gives its row. */
  lemma RowOfKey(orders: seq<ProductionOrder>, key: GroupKey, r: Baseline)
    requires IsRowOf(Filter(orders, IsLoaded), key, r)
    ensures r in Promoted(orders)
  {
    var loaded := Filter(orders, IsLoaded);
    var k := PassingKey(loaded, key, r);
    PassingRow(loaded, key, r);
    FlatMapMembers(GroupKeys(loaded), RowsOfGroup(loaded), k, r);
  }

  lemma PassingRow(orders: seq<ProductionOrder>, key: GroupKey, r: Baseline)
    requires IsRowOf(orders, key, r)
    ensures r in RowsOfGroup(orders)(key)
  {
  }

  /** The completed orders a candidate was made from. */
  ghost predicate Feeds(o: ProductionOrder, r: Baseline) {
    && o.isCompleted && o.start.Some? && o.finish.Some? && o.qty.Some? && Judge(o).Eligible?
    && r.materialNo == ExtractPartType(o.materialDesc.GetOr(""))
    && r.machineModel == Some(Text(o.machineModel)) && r.plant == Some(Text(o.plant))
  }

  /** The row has the scope of the key and the normalized medians of the entries. */
  ghost predicate Summarizes(r: Baseline, key: GroupKey, entries: seq<Entry>)
    requires entries != []
  {
    && r.materialNo == key.0 && r.machineModel == Some(key.1) && r.plant == Some(key.2)
    && r.cycleDays == NormalizeCycleDays(Median(Cycles(entries)))
    && r.unitCycleDays == NormalizeUnitCycleDays(Median(UnitCycles(entries)))
    && r.refBatchQty == Median(BatchQtys(entries))
  }

  lemma RowSummarizesItsGroup(orders: seq<ProductionOrder>, r: Baseline) returns (key: GroupKey, entries: seq<Entry>)
    requires r in Promoted(orders)
    ensures entries == Entries(Filter(orders, IsLoaded), key) && entries != [] && Summarizes(r, key, entries)
  {
    key := KeyOfRow(orders, r);
    entries := Entries(Filter(orders, IsLoaded), key);
  }

  lemma EntryFeedsItsRow(orders: seq<ProductionOrder>, key: GroupKey, r: Baseline, e: Entry)
    returns (o: ProductionOrder)
    requires e in Entries(Filter(orders, IsLoaded), key)
    requires r.materialNo == key.0 && r.machineModel == Some(key.1) && r.plant == Some(key.2)
    ensures o in orders && Judge(o) == Eligible(key, e) && Feeds(o, r)
  {
    EntryHasAnOrder(Filter(orders, IsLoaded), key, e);
    o :| o in Filter(orders, IsLoaded) && Judge(o) == Eligible(key, e);
    FilterMembers(orders, IsLoaded);
    EntryMeasuresItsOrder(o);
  }

  lemma NormalizedWhole(k: nat, t: nat)
    ensures NormalizeCycleDays(k * 10_000) == k * 10_000 && NormalizeUnitCycleDays(t * 100_000) == t * 100_000
  {
    HalfUpIsNearest(k * 10_000, 10_000, k);
    HalfUpIsNearest(t * 100_000, 100_000, t);
  }

  /** From the orders to the row: when all orders of a candidate took k days, so does the candidate. */
  lemma EqualSpansArePromoted(orders: seq<ProductionOrder>, r: Baseline, k: nat)
    requires r in Promoted(orders)
    requires forall o :: o in orders && Feeds(o, r) ==> Span(o) == k * 86_400_000_000
    ensures r.cycleDays == k * 10_000
  {
    var key, entries := RowSummarizesItsGroup(orders, r);
    GroupOfEqualSpans(orders, key, r, k);
    MedianOfEqual(Cycles(entries), k * 10_000);
    NormalizedWhole(k, 0);
  }

  lemma GroupOfEqualSpans(orders: seq<ProductionOrder>, key: GroupKey, r: Baseline, k: nat)
    requires r.materialNo == key.0 && r.machineModel == Some(key.1) && r.plant == Some(key.2)
    requires forall o :: o in orders && Feeds(o, r) ==> Span(o) == k * 86_400_000_000
    ensures forall v :: v in Cycles(Entries(Filter(orders, IsLoaded), key)) ==> v == k * 10_000
  {
    var entries := Entries(Filter(orders, IsLoaded), key);
    forall v | v in Cycles(entries) ensures v == k * 10_000 {
      var i :| 0 <= i < |entries| && Cycles(entries)[i] == v;
      var o := EntryFeedsItsRow(orders, key, r, entries[i]);
      WholeSpansAreExact(o, k);
    }
  }

  lemma SummaryOfEqualEntries(r: Baseline, key: GroupKey, entries: seq<Entry>, batch: nat, t: nat)
    requires entries != [] && Summarizes(r, key, entries)
    requires forall v :: v in BatchQtys(entries) ==> v == batch
    requires forall v :: v in UnitCycles(entries) ==> v == t * 100_000
    ensures r.refBatchQty == batch && r.unitCycleDays == t * 100_000
  {
    MedianOfEqual(BatchQtys(entries), batch);
    MedianOfEqual(UnitCycles(entries), t * 100_000);
    NormalizedWhole(0, t);
  }

  /** When besides each made n units, the batch is n and one unit takes its share of the k days. */
  lemma EqualSharesArePromoted(orders: seq<ProductionOrder>, r: Baseline, k: nat, n: nat, t: nat)
    requires r in Promoted(orders) && n > 0 && 10 * k == t * n
    requires forall o :: o in orders && Feeds(o, r) ==> Span(o) == k * 86_400_000_000 && o.qty == Some(n * 10_000)
    ensures r.refBatchQty == n * 10_000 && r.unitCycleDays == t * 100_000
  {
    var key, entries := RowSummarizesItsGroup(orders, r);
    GroupOfEqualShares(orders, key, r, k, n, t);
    SummaryOfEqualEntries(r, key, entries, n * 10_000, t);
  }

  lemma GroupOfEqualShares(orders: seq<ProductionOrder>, key: GroupKey, r: Baseline, k: nat, n: nat, t: nat)
    requires r.materialNo == key.0 && r.machineModel == Some(key.1) && r.plant == Some(key.2)
    requires n > 0 && 10 * k == t * n
    requires forall o :: o in orders && Feeds(o, r) ==> Span(o) == k * 86_400_000_000 && o.qty == Some(n * 10_000)
    ensures var entries := Entries(Filter(orders, IsLoaded), key);
      && (forall v :: v in BatchQtys(entries) ==> v == n * 10_000)
      && (forall v :: v in UnitCycles(entries) ==> v == t * 100_000)
  {
    var entries := Entries(Filter(orders, IsLoaded), key);
    forall i | 0 <= i < |entries| ensures entries[i].batchQty == n * 10_000 && entries[i].unitCycleDays == t * 100_000 {
      var o := EntryFeedsItsRow(orders, key, r, entries[i]);
      WholeSharesAreExact(o, k, n, t);
    }
  }

  predicate IsEligible(o: ProductionOrder) { Judge(o).Eligible? }

  function LacksScope(): ProductionOrder -> bool { (o: ProductionOrder) => !IsScoped(o) }

  function LacksCycle(): ProductionOrder -> bool { (o: ProductionOrder) => IsScoped(o) && !IsEligible(o) }

  /** Each counter is the number of orders of its kind. */
  lemma {:induction false} CountExactly(orders: seq<ProductionOrder>)
    ensures var s := Count(orders);
      && s.total == |orders| && s.eligible == |Filter(orders, IsEligible)|
      && s.missingScope == |Filter(orders, LacksScope())| && s.invalidCycle == |Filter(orders, LacksCycle())|
  {
    if orders != [] {
      var before, o := orders[..|orders| - 1], orders[|orders| - 1];
      assert orders == before + [o];
      CountExactly(before);
      SkippedExactly(o);
      FilterOne(before, o, IsEligible);
      FilterOne(before, o, LacksScope());
      FilterOne(before, o, LacksCycle());
    }
  }

  lemma FilterOne(before: seq<ProductionOrder>, o: ProductionOrder, p: ProductionOrder -> bool)
    ensures |Filter(before + [o], p)| == |Filter(before, p)| + if p(o) then 1 else 0
  {
    FilterConcat(before, [o], p);
    assert Filter([o], p) == if p(o) then [o] else [];
  }

  /** No order is counted twice or dropped: eligible and skipped orders add up to the orders read. */
  lemma {:induction false} CountsAddUp(orders: seq<ProductionOrder>)
    ensures var s := Count(orders); s.total == |orders| == s.eligible + s.missingScope + s.invalidCycle
  {
    if orders != [] { CountsAddUp(orders[..|orders| - 1]); }
  }
}
