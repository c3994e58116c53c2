# Verified model of the scheduling engine

A Dafny model of the parts of the auto-scheduling system where a mistake would be hard to see in one function:
the backward scheduling of machines and parts, the rebuilding of cycle baselines, the small concurrent
protocols around them, and the calendar statistics. Check it with `dafny verify dfyconfig.toml`.

## What is modelled

**Backward scheduling.** `WorkCalendar` is workday arithmetic over a partial calendar with a weekday fallback and
an iteration cap. `BomWalk` expands an assembly's bill of materials, which may contain cycles. `PartCycleLookup`
finds the cycle of a part and the key part of an assembly. `PartSchedule` walks the assemblies back from the
machine end date. `ScheduleCheck` holds the two services that compute the trigger date and the planned start.

**Baselines.** `PartBaselineTable`, `PartBaselinePromotion` and `PartBaselineRebuild` turn completed production
orders into history rows and merge them into a table with protected manual rows; `PartBaselineReordering` is about
reading the same orders in another order. `MachineBaseline` keeps one active row per model and quantity, and
`MachineCycleLookup` reads it in three ways. `Statistics` is the median.

**Protocols.** `SkipLocked` is claiming with FOR UPDATE SKIP LOCKED as interleaved transactions; `TaskQueue` and
`BomQueue` are its two queues. `CircuitBreaker` is the breaker and the retry loop. `PollChains` is the
generation-guarded polling of the sync console.

**Statistics.** `CalendarAggregates` is the per-day statistics in their three written forms.

`Prelude` and `Sorting` hold text trimming, exact decimals, filtering and stable sorting.

## How it is modelled

Code that changes things step by step is a class or a method with loops, proved equal to a specification
function; the promises are lemmas about that function. Beside the laws, each operation has lemmas that say what it
computes in terms of the columns, dates and numbers of the source, with its constants written out. Dates are ordinals and decimals are scaled integers, so
rounding is exact. A table is a sequence of rows (a map by id where order plays no part); WHERE, ORDER BY and
LIMIT are `Filter`, the stable `SortBy` and a prefix. Clocks, and what an HTTP attempt meets, are parameters.

Where the code is less than one might expect, the code is followed:

- A request passes the breaker once, so a retry may go out while the breaker is open (`RetrySentWhileCooling`);
  `SentWhileCoolingExactly` says when, and that a first attempt never does: in its coroutine nothing is suspended
  between the check and the first attempt.
- The trailing RuntimeError of a request is reachable, exactly when max_retries is negative (`Request`).
- Enqueueing checks and then inserts, so two sessions that interleave can both insert
  (`InterleavedEnqueuesDuplicate`); and a worker marks its task failed without looking at its status, so a slow
  worker can reopen a task that another one finished (`LateFailureDuplicates`). `OneActiveThroughoutIff` is the
  exact condition for both.
- The in-memory lookup goes by `core_part_name` and the queries by `material_no`. Rebuild and manual saving write
  both alike, but the repair of garbled text rewrites `core_part_name` alone
  (services/api/app/services/historical_text_backfill_service.py:65-70), which splits them
  (`OddCoreNameSplitsThePaths`); `LookupAgreesIff` is the exact condition.
- The query that loads the production orders has no ORDER BY, so two latest orders of a group with different
  descriptions can make a second rebuild write a row (`SecondRunMayWrite`, `SecondRunIsSilentIff`).
- Saving a machine baseline forces an existing row active but creates a new one as active as it was sent, so an
  inactive save can leave a new pair without an active row (`InactiveSavePublishesNothing`, `UpsertKeepsOneActive`).
- When the order has no assemblies, its old part rows are not deleted, and a machine assembly time of zero counts
  as three days (`PartScheduleService.Build`, `FinalAssemblyDays`).
- A timeout that has run stays in the timer map, so the timer map alone does not tell what is armed.

## Model

| member | source | states |
|---|---|---|
| WorkCalendar.SubtractWorkdays | services/api/app/common/calendar_utils.py:13-28 | the loop with its iteration cap lands where the specification function says, for whole and fractional day counts (a fraction is rounded up) |
| WorkCalendar.AddWorkdays | services/api/app/common/calendar_utils.py:31-46 | the same for the forward loop |
| WorkCalendar.SubtractIsTheOnlyLanding | services/api/app/common/calendar_utils.py:13-28 | the result is the one date described by counting: the n-th workday before the start, or the date 1001 days back when fewer than n workdays lie in between |
| WorkCalendar.AddIsTheOnlyLanding | services/api/app/common/calendar_utils.py:31-46 | the same for the forward walk |
| WorkCalendar.SubtractLandsOnOpenDay | services/api/app/common/calendar_utils.py:7-28 | the same in terms of the calendar itself: the result is the n-th date before the start that the calendar calls a workday or, where it is silent, that is a Monday to Friday; or the date 1001 days back when there are fewer |
| WorkCalendar.AddLandsOnOpenDay | services/api/app/common/calendar_utils.py:7-46 | the same for the forward walk |
| WorkCalendar.OneDayReadsTheCalendar | services/api/app/common/calendar_utils.py:7-46 | one workday back is the day before if and only if the calendar says so or, where it is silent, the weekday does; likewise one workday forward |
| WorkCalendar.FiveDaysBackAreAWeek | services/api/app/common/calendar_utils.py:7-28 | over dates the calendar does not mention, five workdays back from a weekday are a week, up to 143 weeks |
| WorkCalendar.FiveDaysForwardAreAWeek | services/api/app/common/calendar_utils.py:7-46 | likewise forward |
| WorkCalendar.WeekendsAreSkipped | services/api/app/common/calendar_utils.py:7-46 | the workday before a Monday is the Friday, the one after a Friday the Monday |
| WorkCalendar.FractionsRoundUp | services/api/app/common/calendar_utils.py:15 | a fractional day count is rounded up to the next whole one |
| WorkCalendar.SubtractWithinReach | services/api/app/common/calendar_utils.py:21-27 | a positive subtraction ends on a workday with exactly n workdays up to the start if and only if the cap is not what stopped it |
| WorkCalendar.SubtractMonotoneInDate | services/api/app/common/calendar_utils.py:13-28 | a later start never gives an earlier result, cap or no cap |
| WorkCalendar.SubtractAntitoneInDays | services/api/app/common/calendar_utils.py:13-28 | more days never give a later result, cap or no cap |
| WorkCalendar.SubtractComposes | services/api/app/common/calendar_utils.py:13-28 | within reach, subtracting a and then b days is subtracting a + b |
| WorkCalendar.AddUndoesSubtract | services/api/app/common/calendar_utils.py:13-46 | n days back and n forward end on the first workday on or after the start |
| WorkCalendar.SubtractUndoesAdd | services/api/app/common/calendar_utils.py:13-46 | n days forward and n back end on the last workday on or before the start |
| WorkCalendar.WindowHarmlessWhenItReaches | services/api/app/common/calendar_utils.py:7-28 | a calendar window that reaches back to the result gives the result of the whole calendar |
| WorkCalendar.WindowHidesTheRest | services/api/app/common/calendar_utils.py:7-28 | two calendars that agree inside a window give the same result through it, whatever they say outside |
| WorkCalendar.WindowKeepsLandingOutside | services/api/app/common/calendar_utils.py:7-28 | a window that does not reach cannot pull the result inside itself |
| WorkCalendar.WindowReaches | services/api/app/common/calendar_utils.py:7-28 | whether a window reaches the landing can be seen from the windowed landing itself, and then the two are equal |
| BomWalk.BuildChildrenIndex | services/api/app/scheduler/key_part_identify_service.py:39-55 | the dict filled and then sorted in place maps each parent to its rows in sibling order, and has no other keys |
| BomWalk.PartCollector.Walk | services/api/app/scheduler/key_part_identify_service.py:71-118 | on every bill, cyclic or not, the recursive walk terminates and appends exactly the nodes of the trails below its frame |
| BomWalk.CollectRecursiveSelfMadeParts | services/api/app/scheduler/key_part_identify_service.py:57-128 | index and walk together return the rendered trails of the assembly |
| BomWalk.TrailsAreThePartPaths | services/api/app/scheduler/key_part_identify_service.py:79-118 | a row path is listed if and only if it leads from the root to a self-made row through real, unvisited, never repeated materials |
| BomWalk.TrailsAreDistinct | services/api/app/scheduler/key_part_identify_service.py:79-118 | no path is listed twice when row ids are unique |
| BomWalk.TrailsAreInPreOrder | services/api/app/scheduler/key_part_identify_service.py:39-118 | paths are listed before those they lead on to, and otherwise by the sibling order of the rows where they part |
| BomWalk.SiblingsAscend | services/api/app/scheduler/key_part_identify_service.py:39-55 | siblings are ordered by level (0 if missing), then component number as text, then id |
| BomWalk.EmittedNodesAreThePartPaths | services/api/app/scheduler/key_part_identify_service.py:57-128 | the emitted nodes correspond one to one to the part paths; each has the last row of its path, level equal to path length, the right parent and the joined path text |
| BomWalk.NodeTexts | services/api/app/scheduler/key_part_identify_service.py:66-108 | bom_path joins the title of the assembly and name(number) of every row; bom_path_key joins root:number and the id of every row, or parent->child for a row without one |
| BomWalk.PathKeyDeterminesTrail | services/api/app/scheduler/key_part_identify_service.py:92-108 | the bom_path_key text can be read back: equal keys mean equal row paths |
| BomWalk.PathKeysAreDistinct | services/api/app/scheduler/key_part_identify_service.py:92-108 | all bom_path_keys of an assembly are distinct texts when ids are unique and positive |
| BomWalk.PartsForgetAssemblyName | services/api/app/scheduler/key_part_identify_service.py:64-108 | the name an assembly goes by shows in path texts and parent names only |
| BomWalk.IndexForgetsRowOrder | services/api/app/scheduler/key_part_identify_service.py:39-55 | permuting the input rows leaves the children index unchanged |
| BomWalk.EmittedListForgetsRowOrder | services/api/app/scheduler/key_part_identify_service.py:39-128 | permuting the input rows leaves the emitted list unchanged, order included |
| PartBaselineTable.RankedQueryReadsTheList | services/api/app/repository/part_cycle_baseline_repo.py:27-80 | a ranked query with one more condition returns the first row of the ranked active list that meets it |
| PartCycleLookup.BuildCycleLookup | services/api/app/scheduler/key_part_identify_service.py:199-211 | exact_map leads every non-blank type to the first active baseline of that type in rank order |
| PartCycleLookup.PartTypeIsTheChinesePrefix | services/api/app/common/text_parse_utils.py:25-35 | the part type is the longest prefix of the description that consists of Chinese characters |
| PartCycleLookup.QueriedCycleExactly | services/api/app/scheduler/key_part_identify_service.py:321-343 | by query: the cycle of the best active baseline of the model that is for this plant or for all and is filed under the type, else of the best whose description begins with it, else one day by default; best is own plant, then samples, then update, then id |
| PartCycleLookup.RememberedCycleExactly | services/api/app/scheduler/key_part_identify_service.py:213-233 | from memory: the first ranked baseline whose core name, or material number when that is blank, is the type; else the first whose description begins with it; else one day by default |
| PartCycleLookup.LookupAgreesIff | services/api/app/scheduler/key_part_identify_service.py:199-233 | on every table with unique ids, memory and queries give the same answer if and only if the first row typed so and the first row filed so are both missing or have the same cycle |
| PartCycleLookup.LookupAgreesWithQueries | services/api/app/scheduler/key_part_identify_service.py:213-233 | days, default flag and match rule from memory equal those of the two ranked queries, for every description and plant, on a table typed by material |
| PartCycleLookup.OddCoreNameSplitsThePaths | services/api/app/scheduler/key_part_identify_service.py:201-205 | they differ on every table where an active row has the effective type but none is filed under it, as when garbled core names are repaired and material numbers are not |
| PartCycleLookup.IdentifyFromRecursiveNodes | services/api/app/scheduler/key_part_identify_service.py:266-303 | the loop returns the key part of the specification, or none |
| PartCycleLookup.KeyNodeIn | services/api/app/scheduler/key_part_identify_service.py:275-289 | the chosen node has the longest cycle and is the earliest of those; none is chosen exactly when no cycle exceeds minus one day |
| PartCycleLookup.KeyNodeUnique | services/api/app/scheduler/key_part_identify_service.py:275-289 | a node is the key node if and only if it is the earliest of the longest-cycle nodes |
| PartCycleLookup.KeyPartDescribesItsNode | services/api/app/scheduler/key_part_identify_service.py:285-303 | the key part carries number, name, path and parent of its node and the cycle found for it |
| PartCycleLookup.KeyPartForgetsRowOrder | services/api/app/scheduler/key_part_identify_service.py:266-303 | permuting the bill rows does not change the key part |
| PartSchedule.GroupBySequence | services/api/app/scheduler/part_schedule_service.py:72-78 | each sequence maps to its assemblies in order; keys are exactly the sequences that occur |
| PartSchedule.WalkGroups | services/api/app/scheduler/part_schedule_service.py:80-184 | the nested loops emit the specified rows group by group while walking the end date back |
| PartSchedule.PartScheduleService.Build | services/api/app/scheduler/part_schedule_service.py:28-187 | early exits leave the table alone (no assemblies: nothing is deleted; a foreign machine schedule is an error); otherwise the rows of the order are replaced by the built ones |
| PartSchedule.EndDateClosedForm | services/api/app/scheduler/part_schedule_service.py:80-88 | while the walk stays within the cap, a group ends at the machine end minus final assembly plus the slowest assembly of every higher sequence, in one subtraction |
| PartSchedule.HighestSequenceEndsBeforeFinalAssembly | services/api/app/scheduler/part_schedule_service.py:80-84 | rows of the highest sequence end the whole days of the final assembly before the machine: three when the time is missing or zero, none when it is negative |
| PartSchedule.NextSequenceEndsBeforeTheSlowest | services/api/app/scheduler/part_schedule_service.py:86-184 | the next lower sequence ends the whole days of the slowest assembly of this one earlier |
| PartSchedule.RowDates | services/api/app/scheduler/part_schedule_service.py:102-111 | every row ends with its group, starts its key-part cycle earlier, never after its end, and belongs to an assembly of its sequence |
| PartSchedule.StartIsTheKeyPartBefore | services/api/app/scheduler/part_schedule_service.py:102-111 | a row starts the whole days of its key part before its end, and has no start exactly when it has no key part |
| PartSchedule.BuiltRowSays | services/api/app/scheduler/part_schedule_service.py:93-181 | every row carries the columns of an assembly of the order, of one of its parts with the cycle found for it, and of its key part, and reports exactly the defaults that were used |
| PartSchedule.LastOfANumberNamesTheParts | services/api/app/scheduler/key_part_identify_service.py:169-181 | the parts of a component number are expanded under the name of the last assembly of that number |
| PartSchedule.UntrimmedNumbersFindNothing | services/api/app/scheduler/part_schedule_service.py:93 | an assembly whose number is missing or has blanks around it is given no parts |
| PartSchedule.EndsNeverRiseAsSequenceFalls | services/api/app/scheduler/part_schedule_service.py:86-184 | lower sequences never end later and nothing ends after the machine, cap or no cap |
| PartSchedule.DatesForgetAssemblyOrder | services/api/app/scheduler/part_schedule_service.py:86-184 | reordering the assemblies moves no end date |
| PartSchedule.RowDatesForgetAssemblyOrder | services/api/app/scheduler/part_schedule_service.py:72-184 | each assembly's rows have the same start and end dates whatever the order of the assemblies, shared components included |
| PartSchedule.BuiltRowsForgetAssemblyOrder | services/api/app/scheduler/part_schedule_service.py:72-184 | reordering the assemblies rearranges the built rows and changes nothing in them but the texts that show the name of a shared component |
| PartSchedule.WindowedEndsAreTrueEnds | services/api/app/scheduler/part_schedule_service.py:55-58 | the end from the 365-day calendar window and the end from the whole calendar are inside the window together, and then they are equal |
| PartSchedule.WindowedStartsAreTrueStarts | services/api/app/scheduler/part_schedule_service.py:55-111 | the same for the start of every built row |
| PartSchedule.AssemblyFlagsOneLongestPart | services/api/app/scheduler/part_schedule_service.py:126-181 | an assembly yields max(1, parts) rows; exactly one is flagged when it has parts, and that row has the longest cycle |
| PartSchedule.PathKeysDistinctPerAssembly | services/api/app/scheduler/part_schedule_service.py:163-165 | inside every assembly of a build the path keys compared for the flag are distinct |
| PartSchedule.EveryAssemblyIsScheduledOnce | services/api/app/scheduler/part_schedule_service.py:72-184 | grouping loses and duplicates nothing: the number of rows is the sum over all assemblies |
| PartSchedule.PartsForgetRowOrder | services/api/app/scheduler/key_part_identify_service.py:156-181 | the parts of all assemblies do not depend on the order of the bill rows |
| Statistics.MedianHalvesTheValues | services/api/app/baseline/part_cycle_baseline_service.py:281-283 | at least half of the samples are at or below the median and at least half at or above |
| Statistics.MedianIsTheMiddle | services/api/app/baseline/part_cycle_baseline_service.py:281-283 | the median is the middle value by rank, or the mean of the two middle values |
| Statistics.RankIsUnique | services/api/app/baseline/part_cycle_baseline_service.py:281-283 | only one value has a given rank, so that description defines the median |
| Statistics.MedianForgetsOrder | services/api/app/baseline/part_cycle_baseline_service.py:281-283 | the median does not depend on the order of the samples |
| PartBaselinePromotion.CollectGroupEntries | services/api/app/baseline/part_cycle_baseline_service.py:121-166 | the loop groups eligible orders under part type, model and plant in first-seen order and counts the rest |
| PartBaselinePromotion.CountsAddUp | services/api/app/baseline/part_cycle_baseline_service.py:160-166 | eligible, scope-less and invalid orders add up to the orders read |
| PartBaselinePromotion.CountExactly | services/api/app/baseline/part_cycle_baseline_service.py:126-166 | each counter is the number of orders of its kind: read, eligible, without scope, with a scope but without a cycle |
| PartBaselinePromotion.SkippedExactly | services/api/app/baseline/part_cycle_baseline_service.py:131-148 | an order is skipped for its scope exactly when model, plant or part type is blank, and for its cycle exactly when its span is under half a ten-thousandth of a day of 86400 seconds or its quantity is negative |
| PartBaselinePromotion.EntryMeasuresItsOrder | services/api/app/baseline/part_cycle_baseline_service.py:131-158 | an entry has the span of its order in days, half up to four places, and the share of one unit, half up to six; its key, text, quantity and instant are those of the order |
| PartBaselinePromotion.EntryHasAnOrder | services/api/app/baseline/part_cycle_baseline_service.py:149-158 | the entries of a group come from its eligible orders and from no others |
| PartBaselinePromotion.EntriesCountTheGroup | services/api/app/baseline/part_cycle_baseline_service.py:149-158 | and there are as many |
| PartBaselinePromotion.BuildPromotedRows | services/api/app/baseline/part_cycle_baseline_service.py:168-232 | the promoted rows are those of the groups that pass; each skip counter is the number of groups skipped for its reason, and the three add up to all groups |
| PartBaselinePromotion.KeyOfRow | services/api/app/baseline/part_cycle_baseline_service.py:177-223 | every candidate is the row of a group that passes |
| PartBaselinePromotion.RowOfKey | services/api/app/baseline/part_cycle_baseline_service.py:177-223 | every group that passes gives its candidate |
| PartBaselinePromotion.PromotedIff | services/api/app/baseline/part_cycle_baseline_service.py:197-202 | a group passes exactly when its longest cycle is under 2.00005 times its shortest; confidence is high exactly from five samples on and under 1.50005 times |
| PartBaselinePromotion.PromotedRowSays | services/api/app/baseline/part_cycle_baseline_service.py:204-223 | every column: scope, medians up to rounding, sample count, text and instant of the first of the latest entries, and the fixed values |
| PartBaselinePromotion.EqualSpansArePromoted | services/api/app/baseline/part_cycle_baseline_service.py:121-223 | when all orders of a candidate took k days, its cycle is k days |
| PartBaselinePromotion.EqualSharesArePromoted | services/api/app/baseline/part_cycle_baseline_service.py:121-223 | when besides each made n units, its batch is n and its unit cycle the nth part, for parts that are tenths of a day |
| PartBaselinePromotion.PromotedRowsAreWellFormed | services/api/app/baseline/part_cycle_baseline_service.py:204-223 | candidates are active normalized history rows of pairwise different scopes |
| PartBaselinePromotion.PromotedCycleIsCloseToTheMedian | services/api/app/baseline/part_cycle_baseline_service.py:179-214 | the promoted cycle lies between the rounded extremes and within 0.50005 days of the true median despite double rounding; every sample is within a factor 2.00005 of it |
| PartBaselinePromotion.NormalizedIsFixed | services/api/app/common/part_cycle_precision.py:16-21 | half-up normalization of cycles is idempotent |
| PartBaselineRebuild.PartCycleBaselineRepo.BulkUpsertHistoryRows | services/api/app/repository/part_cycle_baseline_repo.py:222-236 | the fallback loop produces the specified table, manual rows skipped |
| PartBaselineRebuild.PartCycleBaselineRepo.Classify | services/api/app/baseline/part_cycle_baseline_service.py:64-76 | every candidate is written, unchanged or manual-protected, and kept and changed scopes follow |
| PartBaselineRebuild.PartCycleBaselineRepo.Merge | services/api/app/baseline/part_cycle_baseline_service.py:58-89 | classification, upserts and deactivation give the rebuilt table, the changed scopes and the counters |
| PartBaselineRebuild.PartCycleBaselineRepo.Rebuild | services/api/app/baseline/part_cycle_baseline_service.py:33-107 | the table becomes the rebuilt table; every counter, the deactivated and the skipped ones included, and the changed scopes are exact; a dry run changes nothing |
| PartBaselineRebuild.DeactivatedAreTheStale | services/api/app/baseline/part_cycle_baseline_service.py:82-89 | the rows the final UPDATE matches are as many as the stale rows before the rebuild |
| PartBaselineRebuild.RebuildChangesOnlyChangedScopes | services/api/app/baseline/part_cycle_baseline_service.py:58-97 | manual rows and rows of scopes not reported as changed stay exactly as they were; new rows are of changed scopes; ids and scopes stay unique |
| PartBaselineRebuild.ActiveHistoryIsTheUnownedPromotion | services/api/app/baseline/part_cycle_baseline_service.py:58-89 | afterwards the scopes with an active history row are exactly the candidate scopes that no manual row owns |
| PartBaselineRebuild.CandidatesAreReflected | services/api/app/baseline/part_cycle_baseline_service.py:64-78 | every candidate without manual owner is in the table with all its compared values |
| PartBaselineRebuild.RowOfACandidate | services/api/app/baseline/part_cycle_baseline_service.py:64-78 | row by row: a row whose scope has a candidate becomes the candidate, keeping its id, or stays as it is when it has all its values already; manual rows aside |
| PartBaselineRebuild.RowWithoutCandidate | services/api/app/baseline/part_cycle_baseline_service.py:79-89 | a row whose scope has none is switched off and stamped if it is active history, and otherwise keeps everything |
| PartBaselineRebuild.ManualRowStays | services/api/app/baseline/part_cycle_baseline_service.py:66-68 | a manual row keeps everything, whatever the candidates are |
| PartBaselineRebuild.AddedRowIsACandidate | services/api/app/repository/part_cycle_baseline_repo.py:222-236 | every added row is a candidate whose scope had no row |
| PartBaselineRebuild.MissingCandidateIsAdded | services/api/app/repository/part_cycle_baseline_repo.py:222-236 | every candidate whose scope had no row is added |
| PartBaselineRebuild.ChangedScopesExactly | services/api/app/baseline/part_cycle_baseline_service.py:60-86 | the scopes reported as changed are exactly those of the rows that are new or not what they were |
| PartBaselineRebuild.OrdersOfKDaysAreStored | services/api/app/baseline/part_cycle_baseline_service.py:33-107 | from the orders to the table: orders that took k days leave an active history row of k days |
| PartBaselineRebuild.RebuildIsIdempotent | services/api/app/baseline/part_cycle_baseline_service.py:58-97 | a second run with the same candidates in any order, apart from scopes that manual rows own, writes nothing, deactivates nothing, reports no change and leaves the table as it is |
| PartBaselineRebuild.RebuildFromOrders | services/api/app/baseline/part_cycle_baseline_service.py:33-97 | the three promises together, for every valid table and every list of orders |
| PartBaselineReordering.RebuildIsIdempotentInAnyOrder | services/api/app/baseline/part_cycle_baseline_service.py:58-119 | the same for the same orders read in any order, when the latest entries of each promoted unowned group have one description |
| PartBaselineReordering.SecondRunIsSilentIff | services/api/app/baseline/part_cycle_baseline_service.py:58-119 | that condition is exact: the table stays as it is for every arrangement of the orders if and only if it holds |
| PartBaselineReordering.SecondRunMayWrite | services/api/app/baseline/part_cycle_baseline_service.py:109-119 | two orders alike but for their descriptions are not settled: read the other way round, they make the second run write a row |
| PartBaselineRebuild.RebuiltHistoryIsTyped | services/api/app/baseline/part_cycle_baseline_service.py:204-207 | every active history row left by a rebuild carries its type in material_no and the values of a candidate |
| PartBaselineRebuild.LookupsAgreeAfterRebuild | services/api/app/scheduler/key_part_identify_service.py:321-343 | hence after a rebuild the in-memory and the querying cycle lookups agree |
| MachineBaseline.MachineBaselineRepo.DeactivateDuplicateActiveRows | services/api/app/repository/machine_cycle_baseline_repo.py:50-66 | the loop deactivates exactly the active rows outranked within their pair and returns their number |
| MachineBaseline.DeactivationKeepsTheBest | services/api/app/repository/machine_cycle_baseline_repo.py:50-66 | from any table: at most one active row per pair, a pair keeps one exactly when it had one, and it is the untouched best-ranked row |
| MachineBaseline.SurvivorIsBetter | services/api/app/repository/machine_cycle_baseline_repo.py:50-66 | the surviving row has more samples than any other active row of its pair, or as many and the later update, or those alike and the higher id |
| MachineBaseline.DeactivationOnlySwitchesOff | services/api/app/repository/machine_cycle_baseline_repo.py:50-66 | a deactivated row is switched off, stamped and remarked, and keeps everything else |
| MachineBaseline.MachineBaselineRepo.UpsertBaseline | services/api/app/repository/machine_cycle_baseline_repo.py:68-109 | target search, update, deactivation of the other rows or insertion give the specified table, the activity and the remark of the data included |
| MachineBaseline.TargetIsTheFirst | services/api/app/repository/machine_cycle_baseline_repo.py:75-87 | the row written over is of the same series if there is one, and among those the active and better one |
| MachineBaseline.UpsertStampsWhatItChanges | services/api/app/repository/machine_cycle_baseline_repo.py:89-109 | what an upsert changes is stamped and keeps id, model and quantity; what it adds carries the data |
| MachineBaseline.UpsertKeepsOneActive | services/api/app/repository/machine_cycle_baseline_repo.py:68-109 | every upsert keeps at most one active row per pair and leaves other pairs untouched; its pair is active afterwards if and only if the data is active or the pair had a row, and then the active row carries the data |
| MachineBaseline.ActiveUpsertPublishes | services/api/app/repository/machine_cycle_baseline_repo.py:68-109 | with active data, as a rebuild writes, the pair has exactly one active row and it carries the data |
| MachineBaseline.InactiveSavePublishesNothing | services/api/app/repository/machine_cycle_baseline_repo.py:100-109 | an inactive save of a pair without rows leaves the pair without an active row |
| MachineBaseline.MachineBaselineRepo.Rebuild | services/api/app/baseline/machine_cycle_baseline_service.py:21-52 | the table becomes the rebuilt table and the two counters are exact |
| MachineBaseline.CycleValuesAreTheHistory | services/api/app/baseline/machine_cycle_baseline_service.py:24-33 | the samples of a group are the cycles of the history rows of its series, model and quantity, each as often |
| MachineBaseline.SummaryIsTheRoundedMedian | services/api/app/baseline/machine_cycle_baseline_service.py:35-49 | the median is rounded to the nearest ten-thousandth, the even one of two, and the row counts its samples |
| MachineBaseline.GroupsInOrderMet | services/api/app/baseline/machine_cycle_baseline_service.py:24-35 | groups are processed in the order in which the history meets them |
| MachineBaseline.RebuildLeavesOneActivePerPair | services/api/app/baseline/machine_cycle_baseline_service.py:21-49 | from any table: exactly one active row for every pair of the history, at most one for any other |
| MachineBaseline.LaterSavesKeepTheRebuild | services/api/app/baseline/machine_cycle_baseline_service.py:21-49 | whatever is saved after a rebuild, active or not, every pair of the history keeps exactly one active row and every other pair has at most one |
| MachineBaseline.LastGroupOfAPairWins | services/api/app/baseline/machine_cycle_baseline_service.py:35-49 | when several series share a pair, the active row is that of the series processed last |
| MachineCycleLookup.FindAllByModel | services/api/app/repository/machine_cycle_baseline_repo.py:38-48 | the deduplicated list has the best-ranked row of every quantity, by ascending quantity |
| MachineCycleLookup.LoadMachineCycleBaselines | services/api/app/services/schedule_snapshot_refresh_context_loader.py:115-136 | the separately written loader has a list for every model with active rows, and each of its lists is what find_all_by_model returns |
| MachineCycleLookup.NearestMeaning | services/api/app/scheduler/schedule_check_service.py:154 | the nearest baseline is the first of those at minimal distance |
| MachineCycleLookup.CycleExactly | services/api/app/scheduler/machine_schedule_service.py:96-112 | in terms of the table: ninety days by default without a model or active rows of it; the median of the best active row of the quantity (one if missing or zero); else that of the nearest quantity, scaled |
| MachineCycleLookup.ScaledIsProportional | services/api/app/scheduler/machine_schedule_service.py:105-110 | the scaled median is proportional to the quantity up to rounding to four places |
| MachineCycleLookup.CyclePathsAgree | services/api/app/scheduler/schedule_check_service.py:135-173 | the preloaded lookup and the querying lookup, which the builder shares, return the same cycle for every model and quantity |
| MachineCycleLookup.RebuildDecidesTheCycle | services/api/app/scheduler/machine_schedule_service.py:96-103 | after a rebuild an order for a known quantity is given the median of the last group of its pair |
| ScheduleCheck.MachineScheduleService.Build | services/api/app/scheduler/machine_schedule_service.py:33-94 | nothing without a delivery date; otherwise the cycle is looked up in the baselines and the row with start, trigger and end is stored under the order |
| ScheduleCheck.BuiltRowSpansTheCycle | services/api/app/scheduler/machine_schedule_service.py:47-94 | the row ends at delivery and starts, and triggers, the whole days of the cycle earlier; it reports exactly the defaults that were used |
| ScheduleCheck.RefusedExactly | services/api/app/scheduler/schedule_check_service.py:49-103 | not found, no delivery date, drawing not released, no bill: each verdict is given if and only if its gate refuses and the ones before it do not |
| ScheduleCheck.SchedulableExactly | services/api/app/scheduler/schedule_check_service.py:97-133 | schedulable if and only if all gates pass and the date the whole days of the cycle before delivery, on the whole calendar, has come; otherwise the pending trigger is that date and carries the cycle |
| ScheduleCheck.SchedulableOnGivenCalendar | services/api/app/scheduler/schedule_check_service.py:97-133 | the same on a calendar that is handed in, unless it is empty |
| ScheduleCheck.WindowNeverChangesTheVerdict | services/api/app/scheduler/schedule_check_service.py:97-133 | for every order the verdict from the loaded window is the verdict from the whole work calendar |
| ScheduleCheck.TriggerEqualsPlannedStart | services/api/app/scheduler/machine_schedule_service.py:47-58 | the check, looking its cycle up in preloaded lists or by query, and the builder, querying, give the same cycle and, when both windows reach their dates, the same date, that of the whole calendar |
| SkipLocked.NoRowIsClaimedTwice | services/api/app/repository/background_task_repo.py:32-51 | in every interleaving no row is held by two open claims, nor claimed twice without being made claimable in between |
| SkipLocked.StepKeepsInv | services/api/app/repository/background_task_repo.py:32-51 | each insert, claim, commit, rollback, write or clock step keeps the exclusion invariant |
| TaskQueue.ClaimAvailable | services/api/app/repository/background_task_repo.py:32-51 | selects the oldest due unlocked pending tasks up to the limit and marks each with status, time, worker and attempt |
| TaskQueue.SelectedWaitLongest | services/api/app/repository/background_task_repo.py:32-51 | a claim takes pending, due, unlocked tasks in the order in which they wait, and leaves one only when its limit is filled by tasks that wait longer |
| TaskQueue.ActiveFoundIffPresent | services/api/app/repository/background_task_repo.py:18-30 | an active task is found exactly when one with the key exists, and it is the one with the highest id |
| TaskQueue.FoundTaskIsUnfinished | services/api/app/repository/background_task_repo.py:18-30 | the task found is pending or running; when none is found all tasks of the key have ended |
| TaskQueue.DispatchService.Enqueue | services/api/app/services/background_task_dispatch_service.py:23-86 | returns the active task and its job, or adds a pending task and, if asked for, a queued job |
| TaskQueue.QueueIsSafe | services/api/app/repository/background_task_repo.py:32-51 | in every run from the empty queue, split enqueues and late marks included, open claims are disjoint, claims alternate with reopenings and attempt_count is the number of committed claims |
| TaskQueue.AttemptsAreLimited | services/api/app/services/background_task_worker_service.py:257-286 | in every run a task is claimed at most max(max_attempts, 1) times; a pending one has an attempt left and a failed one has none |
| TaskQueue.MarksWriteTheirTask | services/api/app/services/background_task_worker_service.py:115-286 | a failure or a recovery makes its task pending after the delay and unowned, or failed for good; no step but a commit touches another task |
| TaskQueue.OrderlyRunsKeepOneActive | services/api/app/repository/background_task_repo.py:18-51 | with atomic enqueues and failures of running tasks only, a dedupe key never has two pending or running tasks |
| TaskQueue.NoTwoUnfinishedTasks | services/api/app/repository/background_task_repo.py:18-51 | in terms of the table: two pending or running tasks of one key are one task |
| TaskQueue.OneActiveThroughoutIff | services/api/app/services/background_task_dispatch_service.py:34-76 | a run never shows two active tasks of a key if and only if every unchecked insert finds no active task of its key and every failure that reopens its task finds no other one |
| TaskQueue.InsertKeepsOneActiveIff | services/api/app/services/background_task_dispatch_service.py:34-46 | an insert keeps one active task per key if and only if no active task has the key at that moment |
| TaskQueue.WriteKeepsOneActiveIff | services/api/app/services/background_task_worker_service.py:257-288 | a write keeps one active task per key if and only if its row ends up inactive or alone with its key |
| TaskQueue.LateFailureDuplicates | services/api/app/services/background_task_worker_service.py:257-276 | a run in which a superseded worker marks a succeeded task failed, so that it is pending again beside a newer task of its key |
| TaskQueue.SplitRunsKeepOneActiveIff | services/api/app/services/background_task_dispatch_service.py:34-76 | enqueues that look first and add later are runs of the queue, with the same exact condition |
| TaskQueue.InterleavedEnqueuesDuplicate | services/api/app/services/background_task_dispatch_service.py:34-76 | a run of two sessions that both look before either adds, which leaves two active tasks of one key |
| TaskQueue.NothingGetsAhead | services/api/app/services/background_task_dispatch_service.py:64-76 | no step puts a task ahead of a due pending one |
| TaskQueue.CommitServesTheFront | services/api/app/repository/background_task_repo.py:34-51 | committing a claim that met no locks removes its whole limit from the tasks ahead of one it did not take |
| TaskQueue.OvertakingIsBounded | services/api/app/repository/background_task_repo.py:32-51 | the limits of the lock-free claims committed while a due task waits add up to at most the tasks ahead of it at the start |
| BomQueue.ClaimBatch | services/api/app/repository/bom_backfill_queue_repo.py:46-73 | selects pending and due waiting items by priority, detection time and id, and marks each as processing |
| BomQueue.BatchTakesTheFirst | services/api/app/repository/bom_backfill_queue_repo.py:46-67 | a batch takes ready items in order of priority, detection and id, and leaves one only when it is full of earlier ones |
| BomQueue.BatchIsAClaim | services/api/app/repository/bom_backfill_queue_repo.py:46-67 | what the query selects is a claim the protocol allows |
| BomQueue.BatchesAreExclusive | services/api/app/repository/bom_backfill_queue_repo.py:46-73 | batches of concurrent workers are disjoint and no item is processed twice without being opened again |
| CircuitBreaker.CircuitRegistry.CheckCircuit | services/api/app/integration/http_client.py:138-154 | refuses an open circuit within the cooldown, half-opens it afterwards, leaves other services alone |
| CircuitBreaker.CircuitRegistry.RecordCircuitResult | services/api/app/integration/http_client.py:156-173 | a success closes, a failure counts and opens from the fifth on, other services are left alone |
| CircuitBreaker.CircuitRegistry.Request | services/api/app/integration/http_client.py:54-136 | at most max_retries + 1 attempts; every attempt but the last was retryable; a response or RequestError records exactly one outcome; the trailing RuntimeError is reached if and only if max_retries is negative |
| CircuitBreaker.RecordedExactly | services/api/app/integration/http_client.py:88-133 | a status from 200 to 299 is reported as a success, any other and a RequestError as a failure |
| CircuitBreaker.RequestEndIsDetermined | services/api/app/integration/http_client.py:68-136 | what a request promises of its end leaves exactly one end possible: the one reached by going through its attempts |
| CircuitBreaker.RequestRunsLegally | services/api/app/integration/http_client.py:54-173 | the check, the attempts and the report that Request promises form a legal run and lead to the circuit it promises |
| CircuitBreaker.CircuitCountsFailures | services/api/app/integration/http_client.py:156-173 | over any trace failure_count is the number of failures since the last success, and the circuit is closed exactly below five |
| CircuitBreaker.HalfOpenExactly | services/api/app/integration/http_client.py:138-173 | over any trace the circuit is half open if and only if five failures were reported since the last success and a check sixty seconds or more after the last of them has not been followed by a report |
| CircuitBreaker.RefusesExactlyWhileCooling | services/api/app/integration/http_client.py:138-154 | under a running clock a check refuses if and only if five failures were reported since the last success and the last is under sixty seconds old |
| CircuitBreaker.SentWhileCoolingIff | services/api/app/integration/http_client.py:66-72 | a request admitted at c sends while the breaker cools if and only if a failure reported since c left the breaker open, is under sixty seconds old and was followed by no success |
| CircuitBreaker.SentWhileCoolingExactly | services/api/app/integration/http_client.py:66-133 | in every legal interleaving each send has its admitted check, meets that exact condition, and if it goes out while the breaker cools it is a retry; with max_retries zero it never does |
| CircuitBreaker.NothingSentWhileCooling | services/api/app/integration/http_client.py:66-72 | in particular nothing is sent while the breaker cools if no failure was reported since the check |
| CircuitBreaker.RetrySentWhileCooling | services/api/app/integration/http_client.py:66-86 | a legal run in which it happens: five other requests are checked, sent and fail while request 0 backs off, and its retry is sent within sixty seconds |
| PollChains.SyncConsole.ClearPollTimer | apps/web/src/composables/useSyncConsolePage.ts:363-374 | cancels the timer of the source and starts a new generation |
| PollChains.SyncConsole.OnTimeout | apps/web/src/composables/useSyncConsolePage.ts:398-409 | a timeout that fires becomes one poll of the generation it was armed for |
| PollChains.SyncConsole.ClearAllPollTimers | apps/web/src/composables/useSyncConsolePage.ts:363-378 | unmounting cancels every timer and starts a new generation of every source |
| PollChains.SyncConsole.OnReply | apps/web/src/composables/useSyncConsolePage.ts:398-428 | a stale reply changes nothing, a running job re-arms one chained poll, an ended or failed one clears the chain |
| PollChains.SyncConsole.LoadActiveSyncJobs | apps/web/src/composables/useSyncConsolePage.ts:430-450 | each known running job restarts the chain of its source |
| PollChains.HappenKeepsInv | apps/web/src/composables/useSyncConsolePage.ts:363-450 | every trigger, reload, timeout, reply and unmount keeps the chain invariant and never lowers a generation |
| PollChains.AtMostOneChainPerSource | apps/web/src/composables/useSyncConsolePage.ts:398-450 | in every interleaving a source has at most one of an armed timeout and a poll of the current generation |
| PollChains.SupersededPollIsSilent | apps/web/src/composables/useSyncConsolePage.ts:403-404 | a superseded poll stays superseded; whenever its reply comes it writes no state and arms nothing |
| PollChains.TriggerSilencesOldPolls | apps/web/src/composables/useSyncConsolePage.ts:592-596 | once a source is triggered, every poll of it that was out writes no state and arms nothing, whenever its reply comes |
| PollChains.HappenIsLive | apps/web/src/composables/useSyncConsolePage.ts:398-450 | every event but an unmount keeps each source that shows a running job followed for that job, and every other source idle |
| PollChains.GenerationsAreHandedOn | apps/web/src/composables/useSyncConsolePage.ts:363-450 | a reply that ends a chain forgets its timeout and begins a new generation, one that continues it keeps the generation and hands it on; a trigger begins a new one |
| PollChains.LoadShowsTheLastJob | apps/web/src/composables/useSyncConsolePage.ts:430-450 | loading the running jobs shows the last one of each source |
| PollChains.LoadKeepsOthers | apps/web/src/composables/useSyncConsolePage.ts:430-450 | and leaves a source without one as it was |
| PollChains.RunningSourcesAreFollowed | apps/web/src/composables/useSyncConsolePage.ts:398-450 | liveness, in every interleaving without an unmount: a source shows a running job if and only if it has a timeout or a current poll, exactly one, and that is for the job shown; a chain that ended or failed has neither |
| PollChains.EveryRunningJobCanEnd | apps/web/src/composables/useSyncConsolePage.ts:398-428 | whatever has happened, at most two more events, a timeout and its reply, show what a running job came to |
| PollChains.UnmountStopsPolling | apps/web/src/composables/useSyncConsolePage.ts:376-378 | after an unmount, whatever timeouts and replies follow, no source is polled until one is started |
| CalendarAggregates.GetCalendarDayDetail | services/api/app/repository/order_schedule_snapshot_calendar_helper.py:305-368 | the row loop returns the three lists in query order with their lengths and sums |
| CalendarAggregates.DayListExactly | services/api/app/repository/order_schedule_snapshot_calendar_helper.py:305-368 | each list holds the rows of the table whose instant is on the day, from midnight to midnight, as often as the table does, by delivery, planned start (missing ones last) and order line |
| CalendarAggregates.TotalAddsUp | services/api/app/repository/order_schedule_snapshot_calendar_helper.py:330-368 | the quantities add up, a missing one counting as zero |
| CalendarAggregates.AggregateCalendarDistribution | services/api/app/repository/order_schedule_snapshot_calendar_helper.py:223-238 | the merge keeps every grouped row under its day and field and adds nothing |
| CalendarAggregates.DayStatisticsAgree | services/api/app/repository/order_schedule_snapshot_calendar_helper.py:190-368 | for every table and day the summary of the detail loop, the one-pass summary and the distribution entry (absent meaning zero) agree in count and quantity |
| CalendarAggregates.DetailListsAreTheFieldLists | services/api/app/repository/order_schedule_snapshot_calendar_helper.py:370-391 | each list of the day detail is the list of the per-field query |
| CalendarAggregates.WindowIsTheSumOfItsDays | services/api/app/repository/order_schedule_snapshot_calendar_helper.py:78-103 | the per-day counts over a window add up to the window count |
| CalendarAggregates.WindowCountsAddUp | services/api/app/repository/order_schedule_snapshot_calendar_helper.py:78-103 | in a window the scheduled and the unscheduled rows, and the abnormal and the other ones, add up to its count |
| CalendarAggregates.DistributionAddsUp | services/api/app/repository/order_schedule_snapshot_calendar_helper.py:78-103 | the counts of a distribution's entries over the days of its window add up to the window count |
| CalendarAggregates.UnionExists | services/api/app/repository/order_schedule_snapshot_calendar_helper.py:190-238 | every table has a union of grouped rows to be merged |

## Left out

- CircuitBreaker.CircuitRegistry.Request: one request runs by itself here, with one instant for its check and one for its record; the interleaving of requests is stated on legal event traces instead (`RequestRunsLegally` joins the two). `_backoff` only delays and is not modelled.
- TaskQueue.QueueIsSafe: the worker that marks a task is not identified, a mark only needs some committed claim of its task; job rows, error texts and the rest of the worker service are not modelled.
- TaskQueue.OvertakingIsBounded: counts only claims made while no row was locked, because a claim beside a locked row may pass over tasks that another claim then gives back.
- MachineCycleLookup.CyclePathsAgree: the builder's lookup and the check's querying lookup are the same text in the source and one function here.
- PartCycleLookup.LookupAgreesWithQueries: LIKE wildcards in a prefix are not modelled; a part type consists of Chinese characters only.
- Statistics.MedianForgetsOrder: medians, quantity ratios and spans are exact; binary floating point and the 28-digit limit of Decimal are not modelled.
- PartBaselineRebuild.PartCycleBaselineRepo.BulkUpsertHistoryRows: the fallback loop, not the PostgreSQL ON CONFLICT statement; `cycle_source` is taken as not null, and manual saving is not modelled.
- PartSchedule.PartScheduleService.Build: the assembly list, the final assembly time and the bill rows of a machine are inputs; assembly naming, defaults and the BOM-ready condition are string tables and lookups.
- WorkCalendar.SubtractWorkdays: Python's OverflowError at the first representable date is not modelled.
- ScheduleCheck.MachineScheduleService.Build: the final assembly time and its default are inputs, and the copied order columns are not stored.
- PartBaselineRebuild.ValidState: stored plants are normalized, as every writer of the table stores them; a manual row whose plant has stray blanks would not be found by its scope and so not be protected.
- WorkCalendar.Window: a work calendar has one row per date, as its unique constraint says.
- The remark texts of baselines are reduced to the numbers they contain.
- PollChains.RunningSourcesAreFollowed: a job that is queued counts as running; the reset of the console state before a trigger is posted, and a trigger that starts no job, are not events of the model.
- Toasts, throttled refreshes and charts of the console.
- Routers, authentication, SQL text, the ORM, snapshot refresh, the sync services, logging and metrics.
- `summarize_date_field_windows` and `aggregate_quantity_by_day`, which repeat the window and group queries above.
