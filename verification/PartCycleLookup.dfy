/**
 Finding the cycle of a part, in memory and by query, and the key part of an assembly
 (app/scheduler/key_part_identify_service.py, lines 199-233 and 266-343).
*/
module PartCycleLookup {
  import opened Prelude
  import opened Sorting
  import opened PartBaselineTable
  import BomWalk

  /** One day, in ten-thousandths. */
  const DEFAULT_PART_CYCLE_DAYS := SCALE_4

  /** extract_part_type: the leading run of Chinese characters. */
  function ExtractPartType(text: string): string {
    if text != [] && '\U{4E00}' <= text[0] <= '\U{9FFF}' then [text[0]] + ExtractPartType(text[1..]) else []
  }

  datatype CycleMatch = CycleMatch(days: int, isDefault: bool, rule: string)

  datatype Lookup = Lookup(exactMap: map<string, Baseline>, baselines: seq<Baseline>)

  /** `(core_part_name or material_no or "").strip()`. */
  function EffectiveType(row: Baseline): string {
    Strip(if row.corePartName != "" then row.corePartName else row.materialNo)
  }

  function HasType(partType: string): Baseline -> bool {
    (row: Baseline) => EffectiveType(row) == partType
  }

  function HasTypeOrPrefix(partType: string): Baseline -> bool {
    (row: Baseline) => EffectiveType(row) == partType || partType <= row.materialDesc
  }

  /** exact_map is right when each non-blank type leads to the first baseline of that type. */
  ghost predicate MapsToFirst(exactMap: map<string, Baseline>, baselines: seq<Baseline>) {
    forall t :: (t in exactMap <==> t != "" && First(baselines, HasType(t)).Some?)
      && (t in exactMap ==> Some(exactMap[t]) == First(baselines, HasType(t)))
  }

  function Remember(exactMap: map<string, Baseline>, row: Baseline): map<string, Baseline> {
    var t := EffectiveType(row);
    if t != "" && t !in exactMap then exactMap[t := row] else exactMap
  }

  lemma RememberKeepsFirst(exactMap: map<string, Baseline>, s: seq<Baseline>, row: Baseline)
    requires MapsToFirst(exactMap, s)
    ensures MapsToFirst(Remember(exactMap, row), s + [row])
  {
    var after := Remember(exactMap, row);
    forall t ensures (t in after <==> t != "" && First(s + [row], HasType(t)).Some?)
      && (t in after ==> Some(after[t]) == First(s + [row], HasType(t)))
    {
      FirstExtends(s, row, HasType(t));
    }
  }

  method BuildCycleLookup(table: seq<Baseline>, model: string, plant: Option<string>) returns (lookup: Lookup)
    ensures lookup.baselines == ListActiveByModel(table, model, plant)
    ensures MapsToFirst(lookup.exactMap, lookup.baselines)
  {
    var baselines := ListActiveByModel(table, model, plant);
    var exactMap: map<string, Baseline> := map[];
    for i := 0 to |baselines|
      invariant MapsToFirst(exactMap, baselines[..i])
    {
      RememberKeepsFirst(exactMap, baselines[..i], baselines[i]);
      assert baselines[..i + 1] == baselines[..i] + [baselines[i]];
      exactMap := Remember(exactMap, baselines[i]);
    }
    assert baselines[..|baselines|] == baselines;
    lookup := Lookup(exactMap, baselines);
  }

  /** _match_part_cycle_from_lookup. */
  function MatchPartCycle(desc: Option<string>, lookup: Option<Lookup>): CycleMatch {
    var partType := ExtractPartType(desc.GetOr(""));
    if lookup.Some? && partType in lookup.value.exactMap then
      CycleMatch(lookup.value.exactMap[partType].cycleDays, false, "part_type_exact")
    else if lookup.Some? && partType != "" && First(lookup.value.baselines, HasTypeOrPrefix(partType)).Some? then
      CycleMatch(First(lookup.value.baselines, HasTypeOrPrefix(partType)).value.cycleDays, false, "part_type_prefix")
    else CycleMatch(DEFAULT_PART_CYCLE_DAYS, true, "default")
  }

  /** get_part_cycle: the lookup when there is one, otherwise two ranked queries. */
  function GetPartCycle(table: seq<Baseline>, model: string, desc: Option<string>, plant: Option<string>,
                        lookup: Option<Lookup>): CycleMatch {
    if lookup.Some? then MatchPartCycle(desc, lookup)
    else
      var partType := ExtractPartType(desc.GetOr(""));
      if partType == "" then CycleMatch(DEFAULT_PART_CYCLE_DAYS, true, "default")
      else
        match FindByModelAndPartType(table, model, partType, plant)
        case Some(row) => CycleMatch(row.cycleDays, false, "part_type_exact")
        case None =>
          match FindByModelAndDescPrefix(table, model, partType, plant)
          case Some(row) => CycleMatch(row.cycleDays, false, "part_type_prefix")
          case None => CycleMatch(DEFAULT_PART_CYCLE_DAYS, true, "default")
  }

  // ---- what the queries answer ----

  /** The part type is the longest prefix of the description that consists of Chinese characters. */
  lemma {:induction false} PartTypeIsTheChinesePrefix(text: string)
    ensures var t := ExtractPartType(text);
      && t <= text
      && (forall i :: 0 <= i < |t| ==> 0x4E00 <= t[i] as int <= 0x9FFF)
      && (|t| < |text| ==> !(0x4E00 <= text[|t|] as int <= 0x9FFF))
  {
    if text != [] && '\U{4E00}' <= text[0] <= '\U{9FFF}' {
      PartTypeIsTheChinesePrefix(text[1..]);
      assert text == [text[0]] + text[1..];
    }
  }

  /** An active baseline of the model that is for this plant or for all. */
  ghost predicate Serves(row: Baseline, model: string, plant: Option<string>) {
    && row.isActive && row.machineModel == Some(model)
    && (row.plant.None? || (row.plant.value != "" && row.plant.value == Strip(plant.GetOr(""))))
  }

  /** For this plant rather than for all plants; without a plant no row is for this plant. */
  ghost predicate ForThePlant(row: Baseline, plant: Option<string>) {
    Strip(plant.GetOr("")) != "" && row.plant == Some(Strip(plant.GetOr("")))
  }

  /** Own plant before all plants, then more samples, then the later update, then the higher id. */
  ghost predicate RanksBefore(x: Baseline, y: Baseline, plant: Option<string>) {
    if ForThePlant(x, plant) != ForThePlant(y, plant) then ForThePlant(x, plant)
    else if x.sampleCount != y.sampleCount then x.sampleCount > y.sampleCount
    else if x.updatedAt != y.updatedAt then x.updatedAt > y.updatedAt
    else x.id >= y.id
  }

  /** The row serves, meets the condition and ranks before every other one that does. */
  ghost predicate IsBest(table: seq<Baseline>, row: Baseline, model: string, plant: Option<string>,
                         p: Baseline -> bool) {
    && row in table && Serves(row, model, plant) && p(row)
    && forall x :: x in table && Serves(x, model, plant) && p(x) ==> RanksBefore(row, x, plant)
  }

  lemma ServingRows(x: Baseline, y: Baseline, model: string, plant: Option<string>)
    ensures Serves(x, model, plant) <==> Candidates(model, plant)(x)
    ensures Serves(x, model, plant) && Serves(y, model, plant) ==> (RanksBefore(x, y, plant) <==> Outranks(x, y, plant))
  {
  }

  lemma BestIsQueried(table: seq<Baseline>, model: string, plant: Option<string>, p: Baseline -> bool)
    ensures var q := (row: Baseline) => Candidates(model, plant)(row) && p(row);
      var found := Head(SortBy(Filter(table, q), Ranking(plant)));
      && (found.Some? <==> exists x :: x in table && Serves(x, model, plant) && p(x))
      && (found.Some? ==> IsBest(table, found.value, model, plant, p))
  {
    var q := (row: Baseline) => Candidates(model, plant)(row) && p(row);
    RankingsAreTotal(plant);
    HeadRanksFirst(table, q, Ranking(plant));
    forall x, y ensures Serves(x, model, plant) <==> Candidates(model, plant)(x)
      ensures Serves(x, model, plant) && Serves(y, model, plant) ==>
        (RanksBefore(x, y, plant) <==> Outranks(x, y, plant))
    {
      ServingRows(x, y, model, plant);
    }
  }

  /**
   The querying lookup, in terms of the table: the cycle of the best serving baseline filed under the part type,
   otherwise of the best one whose description begins with it, otherwise one day by default.
  */
  lemma QueriedCycleExactly(table: seq<Baseline>, model: string, desc: Option<string>, plant: Option<string>)
    ensures var t, m := ExtractPartType(desc.GetOr("")), GetPartCycle(table, model, desc, plant, None);
      var filed := t != "" && exists x :: x in table && Serves(x, model, plant) && x.materialNo == t;
      var described := t != "" && exists x :: x in table && Serves(x, model, plant) && t <= x.materialDesc;
      && (filed ==> exists r ::
             IsBest(table, r, model, plant, OfType(t)) && m == CycleMatch(r.cycleDays, false, "part_type_exact"))
      && (!filed && described ==> exists r ::
             IsBest(table, r, model, plant, DescStartsWith(t))
             && m == CycleMatch(r.cycleDays, false, "part_type_prefix"))
      && (!filed && !described ==> m == CycleMatch(10_000, true, "default"))
  {
    var t := ExtractPartType(desc.GetOr(""));
    BestIsQueried(table, model, plant, OfType(t));
    BestIsQueried(table, model, plant, DescStartsWith(t));
  }

  /** The lookup in memory, in terms of its ranked list: the first row of the type, or of the type or the prefix. */
  lemma RememberedCycleExactly(lookup: Lookup, desc: Option<string>)
    requires MapsToFirst(lookup.exactMap, lookup.baselines)
    ensures var t, m, list := ExtractPartType(desc.GetOr("")), MatchPartCycle(desc, Some(lookup)), lookup.baselines;
      var typed := t != "" && exists x :: x in list && IsNamed(x, t);
      var described := t != "" && exists x :: x in list && t <= x.materialDesc;
      && (typed ==> exists i ::
             IsFirstWith(list, i, (x: Baseline) => IsNamed(x, t))
             && m == CycleMatch(list[i].cycleDays, false, "part_type_exact"))
      && (!typed && described ==> exists i ::
             IsFirstWith(list, i, DescStartsWith(t)) && m == CycleMatch(list[i].cycleDays, false, "part_type_prefix"))
      && (!typed && !described ==> m == CycleMatch(10_000, true, "default"))
  {
    var t, list := ExtractPartType(desc.GetOr("")), lookup.baselines;
    FirstMember(list, HasType(t));
    if First(list, HasType(t)).Some? {
      var i := FirstIndex(list, HasType(t));
      assert IsFirstWith(list, i, (x: Baseline) => IsNamed(x, t));
    } else {
      FirstAgrees(list, HasTypeOrPrefix(t), DescStartsWith(t));
      FirstMember(list, DescStartsWith(t));
      if First(list, DescStartsWith(t)).Some? { var i := FirstIndex(list, DescStartsWith(t)); }
    }
  }

  /** The core part name, or the material number when there is none, is this type when trimmed. */
  predicate IsNamed(row: Baseline, t: string) {
    t == Strip(if row.corePartName == "" then row.materialNo else row.corePartName)
  }

  ghost predicate IsFirstWith(list: seq<Baseline>, i: int, p: Baseline -> bool) {
    0 <= i < |list| && p(list[i]) && forall k :: 0 <= k < i ==> !p(list[k])
  }

  lemma {:induction false} FirstIndex(list: seq<Baseline>, p: Baseline -> bool) returns (i: nat)
    requires First(list, p).Some?
    ensures IsFirstWith(list, i, p) && First(list, p) == Some(list[i])
  {
    i := 0;
    if !p(list[0]) {
      var j := FirstIndex(list[1..], p);
      assert forall k :: 0 < k <= j ==> list[k] == list[1..][k - 1];
      i := j + 1;
    }
  }

  /** Memory goes by the first ranked row whose effective type is t, the exact query by the first one filed under t. */
  ghost predicate AnswersAlike(list: seq<Baseline>, t: string) {
    var a, b := First(list, HasType(t)), First(list, OfType(t));
    t == "" || (a.None? && b.None?) || (a.Some? && b.Some? && a.value.cycleDays == b.value.cycleDays)
  }

  /**
   On every table, the in-memory lookup answers what the ranked queries answer exactly when, for the type of the
   description, the first row typed so and the first row filed so are both missing or have the same cycle.
  */
  lemma LookupAgreesIff(table: seq<Baseline>, model: string, plant: Option<string>, lookup: Lookup,
                        desc: Option<string>)
    requires UniqueIds(table)
    requires lookup.baselines == ListActiveByModel(table, model, plant)
    requires MapsToFirst(lookup.exactMap, lookup.baselines)
    ensures GetPartCycle(table, model, desc, plant, Some(lookup)) == GetPartCycle(table, model, desc, plant, None)
      <==> AnswersAlike(lookup.baselines, ExtractPartType(desc.GetOr("")))
  {
    var t, list := ExtractPartType(desc.GetOr("")), lookup.baselines;
    RankedQueryReadsTheList(table, model, plant, OfType(t));
    RankedQueryReadsTheList(table, model, plant, DescStartsWith(t));
    FirstMember(list, HasType(t));
    if First(list, HasType(t)).None? {
      assert forall x :: x in list ==> !HasType(t)(x);
      FirstAgrees(list, HasTypeOrPrefix(t), DescStartsWith(t));
    }
  }

  /** The rows a lookup sees carry their type in material_no, as the rebuild and the manual save write them. */
  ghost predicate TypedByMaterial(table: seq<Baseline>, model: string, plant: Option<string>) {
    forall row :: row in table && Candidates(model, plant)(row) ==> EffectiveType(row) == row.materialNo
  }

  /** On a table typed by material the two agree for every description. */
  lemma LookupAgreesWithQueries(table: seq<Baseline>, model: string, plant: Option<string>, lookup: Lookup,
                                desc: Option<string>)
    requires UniqueIds(table) && TypedByMaterial(table, model, plant)
    requires lookup.baselines == ListActiveByModel(table, model, plant)
    requires MapsToFirst(lookup.exactMap, lookup.baselines)
    ensures GetPartCycle(table, model, desc, plant, Some(lookup)) == GetPartCycle(table, model, desc, plant, None)
  {
    var t, list := ExtractPartType(desc.GetOr("")), lookup.baselines;
    LookupAgreesIff(table, model, plant, lookup, desc);
    FilterMembers(table, Candidates(model, plant));
    SortByMembers(Filter(table, Candidates(model, plant)), ListRanking(plant));
    FirstAgrees(list, HasType(t), OfType(t));
  }

  /**
   They differ as soon as some active row has the effective type but none is filed under it. Repairing garbled
   text brings this about: it rewrites core_part_name and leaves material_no as it was.
  */
  lemma OddCoreNameSplitsThePaths(table: seq<Baseline>, row: Baseline, model: string, plant: Option<string>,
                                  lookup: Lookup, desc: Option<string>)
    requires UniqueIds(table) && row in table && Candidates(model, plant)(row)
    requires var t := ExtractPartType(desc.GetOr(""));
      t != "" && EffectiveType(row) == t && forall x :: x in table && Candidates(model, plant)(x) ==> x.materialNo != t
    requires lookup.baselines == ListActiveByModel(table, model, plant)
      && MapsToFirst(lookup.exactMap, lookup.baselines)
    ensures GetPartCycle(table, model, desc, plant, Some(lookup)) != GetPartCycle(table, model, desc, plant, None)
  {
    var t, list := ExtractPartType(desc.GetOr("")), lookup.baselines;
    LookupAgreesIff(table, model, plant, lookup, desc);
    FilterMembers(table, Candidates(model, plant));
    SortByMembers(Filter(table, Candidates(model, plant)), ListRanking(plant));
    FirstMember(list, HasType(t));
    FirstMember(list, OfType(t));
    var i :| 0 <= i < |list| && list[i] == row;
    assert HasType(t)(list[i]);
    assert First(list, OfType(t)).None?;
  }

  // ---- the key part ----

  datatype KeyPart = KeyPart(
    materialNo: Option<string>,
    name: Option<string>,
    cycleDays: int,
    isDefault: bool,
    matchRule: string,
    bomPath: string,
    bomPathKey: string,
    parentMaterialNo: Option<string>,
    parentName: Option<string>,
    nodeLevel: int)

  function CycleOf(node: BomWalk.PartNode, lookup: Option<Lookup>): CycleMatch {
    MatchPartCycle(node.row.componentDesc, lookup)
  }

  function KeyPartFrom(node: BomWalk.PartNode, lookup: Option<Lookup>): KeyPart {
    var m := CycleOf(node, lookup);
    KeyPart(node.row.componentNo, node.row.componentDesc, m.days, m.isDefault, m.rule, node.bomPath, node.bomPathKey,
            node.parentMaterialNo, node.parentName, node.nodeLevel)
  }

  /** Node k is the earliest of the longest-cycle nodes, and its cycle beats the starting value of minus one day. */
  ghost predicate IsKeyNode(nodes: seq<BomWalk.PartNode>, lookup: Option<Lookup>, k: int) {
    && 0 <= k < |nodes|
    && CycleOf(nodes[k], lookup).days > -10_000
    && (forall i :: 0 <= i < |nodes| ==> CycleOf(nodes[i], lookup).days <= CycleOf(nodes[k], lookup).days)
    && (forall i :: 0 <= i < k ==> CycleOf(nodes[i], lookup).days < CycleOf(nodes[k], lookup).days)
  }

  /** Either the key node, or none because no node beats the starting value. */
  ghost predicate IsChoice(nodes: seq<BomWalk.PartNode>, lookup: Option<Lookup>, r: Option<nat>) {
    match r
    case Some(k) => IsKeyNode(nodes, lookup, k)
    case None => forall i :: 0 <= i < |nodes| ==> CycleOf(nodes[i], lookup).days <= -SCALE_4
  }

  /** The cycle that the next node has to beat. */
  function ToBeat(nodes: seq<BomWalk.PartNode>, lookup: Option<Lookup>, r: Option<nat>): int {
    if r.Some? && r.value < |nodes| then CycleOf(nodes[r.value], lookup).days else -SCALE_4
  }

  lemma ChoiceExtends(nodes: seq<BomWalk.PartNode>, lookup: Option<Lookup>, n: nat, before: Option<nat>)
    requires |nodes| == n + 1 && IsChoice(nodes[..n], lookup, before)
    ensures IsChoice(nodes, lookup,
      if CycleOf(nodes[n], lookup).days > ToBeat(nodes, lookup, before) then Some(n) else before)
  {
    forall i | 0 <= i < n ensures CycleOf(nodes[i], lookup).days <= ToBeat(nodes, lookup, before) {
      assert nodes[..n][i] == nodes[i];
      if before.Some? { assert nodes[..n][before.value] == nodes[before.value]; }
    }
    if before.Some? {
      forall i | 0 <= i < before.value ensures CycleOf(nodes[i], lookup).days < ToBeat(nodes, lookup, before) {
        assert nodes[..n][i] == nodes[i] && nodes[..n][before.value] == nodes[before.value];
      }
    }
  }

  /** The position of the key node, if any node qualifies. */
  function KeyNodeIn(nodes: seq<BomWalk.PartNode>, lookup: Option<Lookup>): (r: Option<nat>)
    ensures IsChoice(nodes, lookup, r)
  {
    if nodes == [] then None
    else
      var n := |nodes| - 1;
      var before := KeyNodeIn(nodes[..n], lookup);
      ChoiceExtends(nodes, lookup, n, before);
      if CycleOf(nodes[n], lookup).days > ToBeat(nodes, lookup, before) then Some(n) else before
  }

  function KeyPartOf(nodes: seq<BomWalk.PartNode>, lookup: Option<Lookup>): Option<KeyPart> {
    match KeyNodeIn(nodes, lookup)
    case Some(k) => Some(KeyPartFrom(nodes[k], lookup))
    case None => None
  }

  /** The key part is its node: number and name of the row, the path to it and the cycle found for it. */
  lemma KeyPartDescribesItsNode(nodes: seq<BomWalk.PartNode>, lookup: Option<Lookup>)
    ensures KeyPartOf(nodes, lookup).Some? <==> exists i :: 0 <= i < |nodes| && CycleOf(nodes[i], lookup).days > -10_000
    ensures KeyPartOf(nodes, lookup).Some? ==> exists k ::
      IsKeyNode(nodes, lookup, k) && (var part, n := KeyPartOf(nodes, lookup).value, nodes[k];
        && part.materialNo == n.row.componentNo && part.name == n.row.componentDesc
        && part.bomPath == n.bomPath && part.bomPathKey == n.bomPathKey && part.nodeLevel == n.nodeLevel
        && part.parentMaterialNo == n.parentMaterialNo && part.parentName == n.parentName
        && CycleMatch(part.cycleDays, part.isDefault, part.matchRule) == MatchPartCycle(n.row.componentDesc, lookup))
  {
    assert IsChoice(nodes, lookup, KeyNodeIn(nodes, lookup));
  }

  lemma KeyNodeUnique(nodes: seq<BomWalk.PartNode>, lookup: Option<Lookup>, k: int)
    ensures IsKeyNode(nodes, lookup, k) <==> k >= 0 && KeyNodeIn(nodes, lookup) == Some(k)
  {
    if IsKeyNode(nodes, lookup, k) {
      assert KeyNodeIn(nodes, lookup).Some?;
    }
  }

  /** The key node depends on the rows of the nodes only. */
  lemma KeyNodeReadsRows(xs: seq<BomWalk.PartNode>, ys: seq<BomWalk.PartNode>, lookup: Option<Lookup>)
    requires |xs| == |ys| && forall i :: 0 <= i < |xs| ==> xs[i].row == ys[i].row
    ensures KeyNodeIn(xs, lookup) == KeyNodeIn(ys, lookup)
  {
    forall k: nat ensures KeyNodeIn(xs, lookup) == Some(k) <==> KeyNodeIn(ys, lookup) == Some(k) {
      KeyNodeUnique(xs, lookup, k);
      KeyNodeUnique(ys, lookup, k);
    }
  }

  method IdentifyFromRecursiveNodes(nodes: seq<BomWalk.PartNode>, lookup: Option<Lookup>)
    returns (best: Option<KeyPart>)
    ensures best == KeyPartOf(nodes, lookup)
  {
    best := None;
    var bestCycle := -SCALE_4;
    for i := 0 to |nodes|
      invariant best == KeyPartOf(nodes[..i], lookup)
      invariant bestCycle == if best.Some? then best.value.cycleDays else -SCALE_4
    {
      assert nodes[..i + 1][..i] == nodes[..i];
      if CycleOf(nodes[i], lookup).days > bestCycle {
        bestCycle := CycleOf(nodes[i], lookup).days;
        best := Some(KeyPartFrom(nodes[i], lookup));
      }
    }
    assert nodes[..|nodes|] == nodes;
  }

  /** Permuting the rows of the bill does not change the key part of an assembly. */
  lemma KeyPartForgetsRowOrder(a: seq<BomWalk.BomRow>, b: seq<BomWalk.BomRow>, assemblyNo: string, assemblyName: string,
                               lookup: Option<Lookup>)
    requires BomWalk.UniqueIds(a) && multiset(a) == multiset(b)
    ensures KeyPartOf(BomWalk.SelfMadeParts(a, assemblyNo, assemblyName), lookup)
         == KeyPartOf(BomWalk.SelfMadeParts(b, assemblyNo, assemblyName), lookup)
  {
    BomWalk.EmittedListForgetsRowOrder(a, b, assemblyNo, assemblyName);
  }
}
