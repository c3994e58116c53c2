/**
 The table part_cycle_baseline and the ranked queries over it
 (app/models/part_cycle_baseline.py, app/repository/part_cycle_baseline_repo.py).
*/
module PartBaselineTable {
  import opened Prelude
  import opened Sorting

  /** cycleDays and refBatchQty are in ten-thousandths, unitCycleDays in millionths; times are instants. */
  datatype Baseline = Baseline(
    id: nat,
    materialNo: string,
    materialDesc: string,
    corePartName: string,
    machineModel: Option<string>,
    plant: Option<string>,
    refBatchQty: int,
    cycleDays: int,
    unitCycleDays: int,
    sampleCount: int,
    sourceUpdatedAt: Option<int>,
    cycleSource: string,
    matchRule: string,
    confidenceLevel: string,
    isDefault: bool,
    isActive: bool,
    remark: string,
    updatedAt: int)

  ghost predicate UniqueIds(table: seq<Baseline>) {
    && NoDuplicates(table)
    && forall x, y :: x in table && y in table && x.id == y.id ==> x == y
  }

  /** _apply_plant_lookup: the plant itself or the plant-less rows. */
  predicate VisibleFrom(row: Baseline, plant: Option<string>) {
    row.plant == None || (NormalizePlant(plant) != None && row.plant == NormalizePlant(plant))
  }

  function PlantPriority(row: Baseline, plant: Option<string>): int {
    if row.plant == NormalizePlant(plant) then 0 else 1
  }

  /** _lookup_order_by: own plant first, then most samples, latest update, highest id. */
  predicate Outranks(x: Baseline, y: Baseline, plant: Option<string>) {
    var p, q := PlantPriority(x, plant), PlantPriority(y, plant);
    p < q || (p == q && (x.sampleCount > y.sampleCount || (x.sampleCount == y.sampleCount
      && (x.updatedAt > y.updatedAt || (x.updatedAt == y.updatedAt && x.id >= y.id)))))
  }

  function Ranking(plant: Option<string>): (Baseline, Baseline) -> bool {
    (x: Baseline, y: Baseline) => Outranks(x, y, plant)
  }

  /** list_active_by_model adds core_part_name as a last key. */
  function ListRanking(plant: Option<string>): (Baseline, Baseline) -> bool {
    (x: Baseline, y: Baseline) =>
      Outranks(x, y, plant) && (Outranks(y, x, plant) ==> TextLeq(x.corePartName, y.corePartName))
  }

  function Candidates(model: string, plant: Option<string>): Baseline -> bool {
    (row: Baseline) => row.machineModel == Some(model) && row.isActive && VisibleFrom(row, plant)
  }

  function OfType(partType: string): Baseline -> bool {
    (row: Baseline) => row.materialNo == partType
  }

  function DescStartsWith(prefix: string): Baseline -> bool {
    (row: Baseline) => prefix <= row.materialDesc
  }

  function ListActiveByModel(table: seq<Baseline>, model: string, plant: Option<string>): seq<Baseline> {
    SortBy(Filter(table, Candidates(model, plant)), ListRanking(plant))
  }

  function FindByModelAndPartType(table: seq<Baseline>, model: string, partType: string,
                                  plant: Option<string>): Option<Baseline> {
    Head(SortBy(Filter(table, (row: Baseline) => Candidates(model, plant)(row) && OfType(partType)(row)),
                Ranking(plant)))
  }

  function FindByModelAndDescPrefix(table: seq<Baseline>, model: string, prefix: string,
                                    plant: Option<string>): Option<Baseline> {
    Head(SortBy(Filter(table, (row: Baseline) => Candidates(model, plant)(row) && DescStartsWith(prefix)(row)),
                Ranking(plant)))
  }

  lemma RankingsAreTotal(plant: Option<string>)
    ensures TotalPreorder(Ranking(plant)) && TotalPreorder(ListRanking(plant))
  {
    var leq := ListRanking(plant);
    forall x, y ensures leq(x, y) || leq(y, x) { TextLeqTotal(x.corePartName, y.corePartName); }
    forall x, y, z | leq(x, y) && leq(y, z) ensures leq(x, z) {
      if Outranks(z, x, plant) { TextLeqTransitive(x.corePartName, y.corePartName, z.corePartName); }
    }
  }

  /** A ranked query with one more condition returns the first row of the ranked list that meets it. */
  lemma RankedQueryReadsTheList(table: seq<Baseline>, model: string, plant: Option<string>, p: Baseline -> bool)
    requires UniqueIds(table)
    ensures Head(SortBy(Filter(table, (row: Baseline) => Candidates(model, plant)(row) && p(row)), Ranking(plant)))
      == First(ListActiveByModel(table, model, plant), p)
  {
    var wide := Filter(table, Candidates(model, plant));
    RankingsAreTotal(plant);
    FilterMembers(table, Candidates(model, plant));
    FilterTwice(table, Candidates(model, plant), p, (row: Baseline) => Candidates(model, plant)(row) && p(row));
    assert Distinguishes(wide, Ranking(plant));
    SortByFinerOrder(wide, Ranking(plant), ListRanking(plant));
    FilterCommutesWithSort(wide, p, Ranking(plant));
    FirstHeadsTheFilter(ListActiveByModel(table, model, plant), p);
  }
}
