/**
 Merging candidate history rows into the table of part baselines, which also holds protected manual rows
 (app/baseline/part_cycle_baseline_service.py lines 33-107 and 291-325,
 app/repository/part_cycle_baseline_repo.py lines 96-140 and 180-236).
*/
module PartBaselineRebuild {
  import opened Prelude
  import opened Sorting
  import opened PartBaselineTable
  import opened PartBaselinePromotion
  import opened PartCycleLookup

  /** material_no, machine_model, normalized plant */
  type Scope = (string, Option<string>, Option<string>)

  function ScopeOf(row: Baseline): Scope {
    (row.materialNo, row.machineModel, NormalizePlant(row.plant))
  }

  /** The WHERE clause compares the stored plant itself. */
  function StoredIn(scope: Scope): Baseline -> bool {
    (row: Baseline) => row.materialNo == scope.0 && row.machineModel == scope.1 && row.plant == scope.2
  }

  function FindByScope(table: seq<Baseline>, scope: Scope): Option<Baseline> {
    First(table, StoredIn(scope))
  }

  datatype State = State(table: seq<Baseline>, nextId: nat)

  /** Stored plants are normalized, ids are unique, and so are scopes (rows without a model aside, as in SQL). */
  ghost predicate ValidState(s: State) {
    && (forall i :: 0 <= i < |s.table| ==>
         s.table[i].id < s.nextId && s.table[i].plant == NormalizePlant(s.table[i].plant))
    && (forall i, j :: 0 <= i < j < |s.table| ==> s.table[i].id != s.table[j].id)
    && (forall i, j :: 0 <= i < j < |s.table| && s.table[i].machineModel.Some? ==>
         ScopeOf(s.table[i]) != ScopeOf(s.table[j]))
  }

  /** The comparable fields of _history_row_changed. */
  predicate HistoryRowChanged(existing: Baseline, incoming: Baseline) {
    || existing.materialDesc != incoming.materialDesc
    || existing.corePartName != incoming.corePartName
    || existing.machineModel != incoming.machineModel
    || existing.plant != incoming.plant
    || existing.refBatchQty != incoming.refBatchQty
    || existing.cycleDays != incoming.cycleDays
    || existing.unitCycleDays != incoming.unitCycleDays
    || existing.sampleCount != incoming.sampleCount
    || existing.sourceUpdatedAt != incoming.sourceUpdatedAt
    || existing.cycleSource != incoming.cycleSource
    || existing.matchRule != incoming.matchRule
    || existing.confidenceLevel != incoming.confidenceLevel
    || existing.isDefault != incoming.isDefault
    || existing.isActive != incoming.isActive
    || existing.remark != incoming.remark
  }

  // ---- what a rebuild decides ----

  /** Every candidate whose scope has no unchanged and no manual row. */
  function NeedsWrite(table: seq<Baseline>): Baseline -> bool {
    (row: Baseline) =>
      var existing := FindByScope(table, ScopeOf(row));
      existing.None? || (existing.value.cycleSource != MANUAL && HistoryRowChanged(existing.value, row))
  }

  function IsProtected(table: seq<Baseline>, row: Baseline): bool {
    var existing := FindByScope(table, ScopeOf(row));
    existing.Some? && existing.value.cycleSource == MANUAL
  }

  function ToUpsert(table: seq<Baseline>, promoted: seq<Baseline>): seq<Baseline> {
    Filter(promoted, NeedsWrite(table))
  }

  function KeptScopes(table: seq<Baseline>, promoted: seq<Baseline>): set<Scope> {
    set row | row in promoted && !IsProtected(table, row) :: ScopeOf(row)
  }

  predicate IsActiveHistory(row: Baseline) {
    row.cycleSource == HISTORY && row.isActive
  }

  predicate IsStale(row: Baseline, kept: set<Scope>) {
    IsActiveHistory(row) && ScopeOf(row) !in kept
  }

  function ChangedScopes(table: seq<Baseline>, promoted: seq<Baseline>): set<Scope> {
    (set row | row in ToUpsert(table, promoted) :: ScopeOf(row))
    + (set row | row in table && IsStale(row, KeptScopes(table, promoted)) :: ScopeOf(row))
  }

  // ---- writing ----

  /** normalize_part_cycle_payload and the plant, applied once more on the way into the table. */
  function Normalized(row: Baseline): Baseline {
    row.(cycleDays := NormalizeCycleDays(row.cycleDays), unitCycleDays := NormalizeUnitCycleDays(row.unitCycleDays),
         plant := NormalizePlant(row.plant))
  }

  /** A candidate as it is stored under an id. */
  function Stored(row: Baseline, id: nat, now: int): Baseline {
    Normalized(row).(id := id, updatedAt := now)
  }

  function Replace(table: seq<Baseline>, row: Baseline): seq<Baseline> {
    seq(|table|, i requires 0 <= i < |table| => if table[i].id == row.id then row else table[i])
  }

  /** One step of _bulk_upsert_history_rows_fallback. */
  function UpsertOne(s: State, row: Baseline, now: int): State {
    match FindByScope(s.table, ScopeOf(row))
    case None => State(s.table + [Stored(row, s.nextId, now)], s.nextId + 1)
    case Some(existing) =>
      if existing.cycleSource == MANUAL then s else State(Replace(s.table, Stored(row, existing.id, now)), s.nextId)
  }

  function UpsertAll(s: State, rows: seq<Baseline>, now: int): State {
    if rows == [] then s
    else
      var n := |rows| - 1;
      UpsertOne(UpsertAll(s, rows[..n], now), rows[n], now)
  }

  function Deactivate(table: seq<Baseline>, ids: set<nat>, now: int): seq<Baseline> {
    seq(|table|, i requires 0 <= i < |table| =>
      if table[i].id in ids then table[i].(isActive := false, updatedAt := now) else table[i])
  }

  function StaleIds(table: seq<Baseline>, kept: set<Scope>): set<nat> {
    set row | row in table && IsStale(row, kept) :: row.id
  }

  function Rebuilt(s: State, promoted: seq<Baseline>, now: int): State {
    var u := UpsertAll(s, ToUpsert(s.table, promoted), now);
    State(Deactivate(u.table, StaleIds(s.table, KeptScopes(s.table, promoted)), now), u.nextId)
  }

  // ---- what one upsert does ----

  ghost predicate HasScope(table: seq<Baseline>, scope: Scope) {
    exists i :: 0 <= i < |table| && ScopeOf(table[i]) == scope
  }

  lemma FindByScopeMeaning(s: State, scope: Scope)
    requires ValidState(s)
    ensures FindByScope(s.table, scope).Some? <==> HasScope(s.table, scope)
    ensures FindByScope(s.table, scope).Some? ==>
      exists i :: 0 <= i < |s.table| && s.table[i] == FindByScope(s.table, scope).value && ScopeOf(s.table[i]) == scope
    ensures scope.1.Some? ==> forall i :: 0 <= i < |s.table| && ScopeOf(s.table[i]) == scope ==>
      FindByScope(s.table, scope) == Some(s.table[i])
  {
    FirstMember(s.table, StoredIn(scope));
    if FindByScope(s.table, scope).Some? {
      var k :| 0 <= k < |s.table| && s.table[k] == FindByScope(s.table, scope).value;
      assert StoredIn(scope)(s.table[k]) && ScopeOf(s.table[k]) == scope;
    }
    forall i | 0 <= i < |s.table| && ScopeOf(s.table[i]) == scope ensures StoredIn(scope)(s.table[i]) {
    }
  }

  lemma CandidateScope(row: Baseline, id: nat, now: int)
    requires IsCandidate(row)
    ensures ScopeOf(Stored(row, id, now)) == ScopeOf(row) == ScopeTriple(row)
    ensures Stored(row, id, now) == row.(id := id, updatedAt := now)
  {
  }

  /**
   Rows keep their places, ids and scopes; manual rows and rows of other scopes keep everything; new rows are of
   these scopes.
  */
  ghost predicate Touched(t: seq<Baseline>, u: seq<Baseline>, scopes: set<Scope>) {
    && |t| <= |u|
    && (forall i :: 0 <= i < |t| ==> u[i].id == t[i].id && ScopeOf(u[i]) == ScopeOf(t[i]))
    && (forall i :: 0 <= i < |t| && (t[i].cycleSource == MANUAL || ScopeOf(t[i]) !in scopes) ==> u[i] == t[i])
    && (forall i :: |t| <= i < |u| ==> ScopeOf(u[i]) in scopes)
  }

  lemma TouchedInTurn(t: seq<Baseline>, u: seq<Baseline>, v: seq<Baseline>, a: set<Scope>, b: set<Scope>)
    requires Touched(t, u, a) && Touched(u, v, b)
    ensures Touched(t, v, a + b)
  {
  }

  /** Some row holds this candidate's values. */
  ghost predicate Holds(table: seq<Baseline>, row: Baseline, now: int) {
    exists i :: 0 <= i < |table| && table[i] == Stored(row, table[i].id, now)
  }

  ghost predicate NoManualOwner(table: seq<Baseline>, scope: Scope) {
    forall i :: 0 <= i < |table| && ScopeOf(table[i]) == scope ==> table[i].cycleSource != MANUAL
  }

  lemma ReplaceKeepsValid(s: State, row: Baseline, k: nat, now: int)
    requires ValidState(s) && IsCandidate(row) && k < |s.table| && ScopeOf(s.table[k]) == ScopeOf(row)
    requires s.table[k].cycleSource != MANUAL
    ensures var t := Replace(s.table, Stored(row, s.table[k].id, now));
      && ValidState(State(t, s.nextId)) && Touched(s.table, t, {ScopeOf(row)})
      && t[k] == Stored(row, t[k].id, now)
  {
    CandidateScope(row, s.table[k].id, now);
    var t := Replace(s.table, Stored(row, s.table[k].id, now));
    assert forall i :: 0 <= i < |t| ==> t[i] == if i == k then Stored(row, s.table[k].id, now) else s.table[i];
    assert forall i :: 0 <= i < |t| ==>
      ScopeOf(t[i]) == ScopeOf(s.table[i]) && t[i].machineModel == s.table[i].machineModel;
  }

  lemma AppendKeepsValid(s: State, row: Baseline, now: int)
    requires ValidState(s) && IsCandidate(row) && !HasScope(s.table, ScopeOf(row))
    ensures var t := s.table + [Stored(row, s.nextId, now)];
      && ValidState(State(t, s.nextId + 1)) && Touched(s.table, t, {ScopeOf(row)})
      && t[|s.table|] == Stored(row, t[|s.table|].id, now)
  {
    CandidateScope(row, s.nextId, now);
  }

  lemma UpsertWrites(s: State, row: Baseline, now: int)
    requires ValidState(s) && IsCandidate(row) && NoManualOwner(s.table, ScopeOf(row))
    ensures var u := UpsertOne(s, row, now);
      ValidState(u) && Touched(s.table, u.table, {ScopeOf(row)}) && Holds(u.table, row, now)
  {
    FindByScopeMeaning(s, ScopeOf(row));
    match FindByScope(s.table, ScopeOf(row))
    case None => AppendKeepsValid(s, row, now);
    case Some(existing) =>
      var k :| 0 <= k < |s.table| && s.table[k] == existing && ScopeOf(s.table[k]) == ScopeOf(row);
      ReplaceKeepsValid(s, row, k, now);
  }

  // ---- what a batch of upserts does ----

  function ScopesOf(rows: seq<Baseline>): set<Scope> {
    set row | row in rows :: ScopeOf(row)
  }

  lemma ScopesOfExtends(rows: seq<Baseline>, row: Baseline)
    ensures ScopesOf(rows + [row]) == ScopesOf(rows) + {ScopeOf(row)}
  {
    assert forall r :: r in rows + [row] <==> r in rows || r == row;
  }

  lemma ScopesOfPrefix(rows: seq<Baseline>, n: nat)
    requires n < |rows|
    ensures ScopesOf(rows[..n + 1]) == ScopesOf(rows[..n]) + {ScopeOf(rows[n])}
  {
    assert rows[..n + 1] == rows[..n] + [rows[n]];
    ScopesOfExtends(rows[..n], rows[n]);
  }

  lemma StillHolds(t: seq<Baseline>, u: seq<Baseline>, scopes: set<Scope>, row: Baseline, now: int)
    requires Touched(t, u, scopes) && IsCandidate(row) && ScopeOf(row) !in scopes && Holds(t, row, now)
    ensures Holds(u, row, now)
  {
    var i :| 0 <= i < |t| && t[i] == Stored(row, t[i].id, now);
    CandidateScope(row, t[i].id, now);
    assert u[i] == t[i];
  }

  lemma StillUnowned(t: seq<Baseline>, u: seq<Baseline>, scopes: set<Scope>, scope: Scope)
    requires Touched(t, u, scopes) && scope !in scopes && NoManualOwner(t, scope)
    ensures NoManualOwner(u, scope)
  {
  }

  lemma OtherCandidatesHaveOtherScopes(rows: seq<Baseline>)
    requires WellPromoted(rows) && rows != []
    ensures var n := |rows| - 1; WellPromoted(rows[..n]) && ScopeOf(rows[n]) !in ScopesOf(rows[..n])
  {
    var n := |rows| - 1;
    CandidateScope(rows[n], 0, 0);
    forall r | r in rows[..n] ensures ScopeOf(r) != ScopeOf(rows[n]) {
      var i :| 0 <= i < n && rows[i] == r;
      CandidateScope(r, 0, 0);
    }
  }

  ghost predicate AllHeld(table: seq<Baseline>, rows: seq<Baseline>, now: int) {
    forall i :: 0 <= i < |rows| ==> Holds(table, rows[i], now)
  }

  ghost predicate AllUnowned(table: seq<Baseline>, rows: seq<Baseline>) {
    forall i :: 0 <= i < |rows| ==> NoManualOwner(table, ScopeOf(rows[i]))
  }

  lemma AllStillHeld(t: seq<Baseline>, u: seq<Baseline>, rows: seq<Baseline>, n: nat, now: int)
    requires n < |rows| && Touched(t, u, {ScopeOf(rows[n])}) && ScopeOf(rows[n]) !in ScopesOf(rows[..n])
    requires WellPromoted(rows[..n]) && AllHeld(t, rows[..n], now) && Holds(u, rows[n], now)
    ensures AllHeld(u, rows[..n + 1], now)
  {
    forall i | 0 <= i < n ensures Holds(u, rows[i], now) {
      assert rows[..n][i] == rows[i] && rows[i] in rows[..n];
      StillHolds(t, u, {ScopeOf(rows[n])}, rows[i], now);
    }
  }

  lemma UpsertsStep(s: State, u: State, rows: seq<Baseline>, n: nat, now: int)
    requires n < |rows| && ValidState(u) && Touched(s.table, u.table, ScopesOf(rows[..n]))
      && AllHeld(u.table, rows[..n], now)
    requires WellPromoted(rows[..n]) && IsCandidate(rows[n]) && ScopeOf(rows[n]) !in ScopesOf(rows[..n])
    requires NoManualOwner(s.table, ScopeOf(rows[n]))
    ensures var v := UpsertOne(u, rows[n], now);
      ValidState(v) && Touched(s.table, v.table, ScopesOf(rows[..n + 1])) && AllHeld(v.table, rows[..n + 1], now)
  {
    var v := UpsertOne(u, rows[n], now);
    StillUnowned(s.table, u.table, ScopesOf(rows[..n]), ScopeOf(rows[n]));
    UpsertWrites(u, rows[n], now);
    TouchedInTurn(s.table, u.table, v.table, ScopesOf(rows[..n]), {ScopeOf(rows[n])});
    ScopesOfPrefix(rows, n);
    AllStillHeld(u.table, v.table, rows, n, now);
  }

  lemma {:induction false} UpsertsWrite(s: State, rows: seq<Baseline>, now: int)
    requires ValidState(s) && WellPromoted(rows) && AllUnowned(s.table, rows)
    ensures var u := UpsertAll(s, rows, now);
      ValidState(u) && Touched(s.table, u.table, ScopesOf(rows)) && AllHeld(u.table, rows, now)
  {
    if rows != [] {
      var n := |rows| - 1;
      OtherCandidatesHaveOtherScopes(rows);
      PrefixUnowned(s.table, rows);
      UpsertsWrite(s, rows[..n], now);
      UpsertsStep(s, UpsertAll(s, rows[..n], now), rows, n, now);
      assert rows[..n + 1] == rows;
    }
  }

  lemma PrefixUnowned(table: seq<Baseline>, rows: seq<Baseline>)
    requires AllUnowned(table, rows) && rows != []
    ensures AllUnowned(table, rows[..|rows| - 1]) && NoManualOwner(table, ScopeOf(rows[|rows| - 1]))
  {
  }

  // ---- what a rebuild leaves behind ----

  lemma ToUpsertIsWell(s: State, promoted: seq<Baseline>)
    requires ValidState(s) && WellPromoted(promoted)
    ensures WellPromoted(ToUpsert(s.table, promoted)) && AllUnowned(s.table, ToUpsert(s.table, promoted))
  {
    var rows := ToUpsert(s.table, promoted);
    FilterMembers(promoted, NeedsWrite(s.table));
    FilterKeepsScopesDistinct(promoted, NeedsWrite(s.table));
    forall i | 0 <= i < |rows| ensures IsCandidate(rows[i]) {
      var k :| 0 <= k < |promoted| && promoted[k] == rows[i];
    }
    forall i | 0 <= i < |rows| ensures NoManualOwner(s.table, ScopeOf(rows[i])) {
      assert NeedsWrite(s.table)(rows[i]);
      FindByScopeMeaning(s, ScopeOf(rows[i]));
    }
  }

  lemma FilterKeepsScopesDistinct(rows: seq<Baseline>, p: Baseline -> bool)
    requires DistinctScopes(rows)
    ensures DistinctScopes(Filter(rows, p))
  {
    FilterKeepsOrder(rows, p, (x, y) => ScopeTriple(x) != ScopeTriple(y));
  }

  /** A candidate is kept exactly when no manual row owns its scope. */
  lemma ProtectedMeansOwned(s: State, r: Baseline)
    requires ValidState(s) && IsCandidate(r)
    ensures IsProtected(s.table, r) <==> !NoManualOwner(s.table, ScopeOf(r))
  {
    FindByScopeMeaning(s, ScopeOf(r));
  }

  /** The state between the upserts and the deactivation. */
  function Merged(s: State, promoted: seq<Baseline>, now: int): State {
    UpsertAll(s, ToUpsert(s.table, promoted), now)
  }

  lemma MergedMeaning(s: State, promoted: seq<Baseline>, now: int)
    requires ValidState(s) && WellPromoted(promoted)
    ensures var u, rows := Merged(s, promoted, now), ToUpsert(s.table, promoted);
      && ValidState(u) && Touched(s.table, u.table, ScopesOf(rows)) && AllHeld(u.table, rows, now)
      && ScopesOf(rows) <= KeptScopes(s.table, promoted)
  {
    var rows := ToUpsert(s.table, promoted);
    ToUpsertIsWell(s, promoted);
    UpsertsWrite(s, rows, now);
    FilterMembers(promoted, NeedsWrite(s.table));
    forall r | r in rows ensures ScopeOf(r) in KeptScopes(s.table, promoted) {
      assert r in promoted && NeedsWrite(s.table)(r);
    }
  }

  /** An id names a stale row only at the place of that row. */
  lemma StaleOnlyInPlace(t: seq<Baseline>, u: State, scopes: set<Scope>, kept: set<Scope>, i: nat)
    requires ValidState(u) && Touched(t, u.table, scopes) && i < |u.table|
    ensures u.table[i].id in StaleIds(t, kept) <==> i < |t| && IsStale(t[i], kept)
  {
    if u.table[i].id in StaleIds(t, kept) {
      var row :| row in t && IsStale(row, kept) && row.id == u.table[i].id;
      var k :| 0 <= k < |t| && t[k] == row;
      assert u.table[k].id == u.table[i].id;
      assert k == i;
    }
    if i < |t| && IsStale(t[i], kept) {
      assert t[i] in t;
    }
  }

  lemma DeactivateKeepsValid(u: State, ids: set<nat>, now: int)
    requires ValidState(u)
    ensures ValidState(State(Deactivate(u.table, ids, now), u.nextId))
  {
    var t := Deactivate(u.table, ids, now);
    assert forall i :: 0 <= i < |t| ==> t[i].id == u.table[i].id && ScopeOf(t[i]) == ScopeOf(u.table[i]);
    assert forall i :: 0 <= i < |t| ==> t[i].plant == u.table[i].plant && t[i].machineModel == u.table[i].machineModel;
  }

  /**
   Frame: a rebuild keeps every row in its place with its id and scope, leaves every manual row and every row
   whose scope is not reported as changed exactly as it was, and adds rows of changed scopes only.
  */
  lemma RebuildChangesOnlyChangedScopes(s: State, promoted: seq<Baseline>, now: int)
    requires ValidState(s) && WellPromoted(promoted)
    ensures ValidState(Rebuilt(s, promoted, now))
    ensures Touched(s.table, Rebuilt(s, promoted, now).table, ChangedScopes(s.table, promoted))
  {
    var t, kept, rows := s.table, KeptScopes(s.table, promoted), ToUpsert(s.table, promoted);
    var u := Merged(s, promoted, now);
    var changed, f := ChangedScopes(s.table, promoted), Rebuilt(s, promoted, now).table;
    MergedMeaning(s, promoted, now);
    DeactivateKeepsValid(u, StaleIds(t, kept), now);
    assert ScopesOf(rows) <= changed;
    forall i | 0 <= i < |f| ensures f[i].id == u.table[i].id && ScopeOf(f[i]) == ScopeOf(u.table[i])
      && (f[i] == u.table[i] || (i < |t| && IsStale(t[i], kept)))
    {
      StaleOnlyInPlace(t, u, ScopesOf(rows), kept, i);
    }
    forall i | 0 <= i < |t| && IsStale(t[i], kept) ensures ScopeOf(t[i]) in changed && t[i].cycleSource != MANUAL {
      assert t[i] in t;
    }
  }

  /** Row i of the rebuilt table, when its scope is kept, is what the upserts left there. */
  lemma KeptScopeSurvives(s: State, promoted: seq<Baseline>, now: int, i: nat)
    requires ValidState(s) && WellPromoted(promoted) && i < |Merged(s, promoted, now).table|
    requires ScopeOf(Merged(s, promoted, now).table[i]) in KeptScopes(s.table, promoted)
    ensures Rebuilt(s, promoted, now).table[i] == Merged(s, promoted, now).table[i]
  {
    MergedMeaning(s, promoted, now);
    StaleOnlyInPlace(s.table, Merged(s, promoted, now), ScopesOf(ToUpsert(s.table, promoted)),
                     KeptScopes(s.table, promoted), i);
  }

  /** The rebuilt table holds, for this candidate, an active history row with all its values. */
  ghost predicate Reflects(table: seq<Baseline>, r: Baseline) {
    exists i :: 0 <= i < |table| && ScopeOf(table[i]) == ScopeOf(r) && !HistoryRowChanged(table[i], r)
      && IsActiveHistory(table[i])
  }

  lemma UnwrittenScope(s: State, promoted: seq<Baseline>, r: Baseline)
    requires WellPromoted(promoted) && r in promoted && !NeedsWrite(s.table)(r)
    ensures ScopeOf(r) !in ScopesOf(ToUpsert(s.table, promoted))
  {
    FilterMembers(promoted, NeedsWrite(s.table));
    forall q | q in ToUpsert(s.table, promoted) ensures ScopeOf(q) != ScopeOf(r) {
      var i :| 0 <= i < |promoted| && promoted[i] == q;
      var j :| 0 <= j < |promoted| && promoted[j] == r;
      assert NeedsWrite(s.table)(q);
      CandidateScope(q, 0, 0);
      CandidateScope(r, 0, 0);
      assert i < j || j < i;
    }
  }

  lemma WrittenCandidateIsMerged(s: State, promoted: seq<Baseline>, now: int, r: Baseline) returns (i: nat)
    requires ValidState(s) && WellPromoted(promoted) && r in promoted && IsCandidate(r) && NeedsWrite(s.table)(r)
    ensures i < |Merged(s, promoted, now).table|
    ensures Merged(s, promoted, now).table[i] == r.(id := Merged(s, promoted, now).table[i].id, updatedAt := now)
  {
    var u, rows := Merged(s, promoted, now), ToUpsert(s.table, promoted);
    MergedMeaning(s, promoted, now);
    FilterMembers(promoted, NeedsWrite(s.table));
    assert r in rows;
    var m :| 0 <= m < |rows| && rows[m] == r;
    assert Holds(u.table, rows[m], now);
    i :| 0 <= i < |u.table| && u.table[i] == Stored(r, u.table[i].id, now);
    CandidateScope(r, u.table[i].id, now);
  }

  lemma UnchangedCandidateIsMerged(s: State, promoted: seq<Baseline>, now: int, r: Baseline) returns (i: nat)
    requires ValidState(s) && WellPromoted(promoted) && r in promoted && !NeedsWrite(s.table)(r)
      && !IsProtected(s.table, r)
    ensures i < |s.table| <= |Merged(s, promoted, now).table|
    ensures Merged(s, promoted, now).table[i] == s.table[i] && ScopeOf(s.table[i]) == ScopeOf(r)
      && !HistoryRowChanged(s.table[i], r)
  {
    MergedMeaning(s, promoted, now);
    FindByScopeMeaning(s, ScopeOf(r));
    UnwrittenScope(s, promoted, r);
    i :| 0 <= i < |s.table| && s.table[i] == FindByScope(s.table, ScopeOf(r)).value
      && ScopeOf(s.table[i]) == ScopeOf(r);
  }

  /** Every candidate that no manual row owns is reflected in the rebuilt table. */
  lemma CandidatesAreReflected(s: State, promoted: seq<Baseline>, now: int, r: Baseline)
    requires ValidState(s) && WellPromoted(promoted) && r in promoted && NoManualOwner(s.table, ScopeOf(r))
    ensures Reflects(Rebuilt(s, promoted, now).table, r)
  {
    var k :| 0 <= k < |promoted| && promoted[k] == r;
    ProtectedMeansOwned(s, r);
    assert ScopeOf(r) in KeptScopes(s.table, promoted);
    var i;
    if NeedsWrite(s.table)(r) {
      i := WrittenCandidateIsMerged(s, promoted, now, r);
    } else {
      i := UnchangedCandidateIsMerged(s, promoted, now, r);
    }
    KeptScopeSurvives(s, promoted, now, i);
    assert Rebuilt(s, promoted, now).table[i] == Merged(s, promoted, now).table[i];
  }

  /** Only scopes of unowned candidates have an active history row afterwards. */
  lemma ActiveHistoryIsKept(s: State, promoted: seq<Baseline>, now: int, i: nat)
    requires ValidState(s) && WellPromoted(promoted) && i < |Rebuilt(s, promoted, now).table|
    requires IsActiveHistory(Rebuilt(s, promoted, now).table[i])
    ensures ScopeOf(Rebuilt(s, promoted, now).table[i]) in KeptScopes(s.table, promoted)
  {
    var t, u, rows := s.table, Merged(s, promoted, now), ToUpsert(s.table, promoted);
    MergedMeaning(s, promoted, now);
    StaleOnlyInPlace(t, u, ScopesOf(rows), KeptScopes(t, promoted), i);
  }

  ghost predicate HasActiveHistory(table: seq<Baseline>, scope: Scope) {
    exists i :: 0 <= i < |table| && IsActiveHistory(table[i]) && ScopeOf(table[i]) == scope
  }

  /**
   After a rebuild from any valid table, the scopes with an active history row are exactly the scopes of the
   candidates that no manual row owns.
  */
  lemma ActiveHistoryIsTheUnownedPromotion(s: State, promoted: seq<Baseline>, now: int, scope: Scope)
    requires ValidState(s) && WellPromoted(promoted)
    ensures HasActiveHistory(Rebuilt(s, promoted, now).table, scope)
      <==> (NoManualOwner(s.table, scope) && exists r :: r in promoted && ScopeOf(r) == scope)
  {
    var f := Rebuilt(s, promoted, now).table;
    if HasActiveHistory(f, scope) {
      var i :| 0 <= i < |f| && IsActiveHistory(f[i]) && ScopeOf(f[i]) == scope;
      ActiveHistoryIsKept(s, promoted, now, i);
      var r :| r in promoted && !IsProtected(s.table, r) && ScopeOf(r) == scope;
      ProtectedMeansOwned(s, r);
    }
    if r :| r in promoted && ScopeOf(r) == scope && NoManualOwner(s.table, scope) {
      CandidatesAreReflected(s, promoted, now, r);
    }
  }

  // ---- the rebuilt table, row by row ----

  lemma MergedRowOfCandidate(s: State, promoted: seq<Baseline>, now: int, i: nat, r: Baseline)
    requires ValidState(s) && WellPromoted(promoted) && r in promoted && NeedsWrite(s.table)(r) && IsCandidate(r)
    requires i < |Merged(s, promoted, now).table| && ScopeOf(Merged(s, promoted, now).table[i]) == ScopeOf(r)
    ensures Merged(s, promoted, now).table[i] == r.(id := Merged(s, promoted, now).table[i].id, updatedAt := now)
    ensures Rebuilt(s, promoted, now).table[i] == Merged(s, promoted, now).table[i]
  {
    var u := Merged(s, promoted, now);
    MergedMeaning(s, promoted, now);
    var k := WrittenCandidateIsMerged(s, promoted, now, r);
    CandidateScope(r, u.table[k].id, now);
    assert u.table[k] == Stored(r, u.table[k].id, now);
    assert k == i;
    WrittenIsKept(s, promoted, r);
    KeptScopeSurvives(s, promoted, now, i);
  }

  lemma WrittenIsKept(s: State, promoted: seq<Baseline>, r: Baseline)
    requires r in promoted && NeedsWrite(s.table)(r)
    ensures ScopeOf(r) in KeptScopes(s.table, promoted)
  {
    assert !IsProtected(s.table, r);
  }

  lemma CandidateIn(promoted: seq<Baseline>, r: Baseline)
    requires WellPromoted(promoted) && r in promoted
    ensures IsCandidate(r)
  {
    var i :| 0 <= i < |promoted| && promoted[i] == r;
  }

  lemma UnchangedMeansEqual(s: State, i: nat, r: Baseline)
    requires ValidState(s) && i < |s.table| && IsCandidate(r) && ScopeOf(s.table[i]) == ScopeOf(r)
    ensures HistoryRowChanged(s.table[i], r) <==>
      s.table[i] != r.(id := s.table[i].id, updatedAt := s.table[i].updatedAt)
  {
  }

  /** A row whose scope has a candidate, unless it is manual, holds all of the candidate's values afterwards. */
  lemma RowOfACandidate(s: State, promoted: seq<Baseline>, now: int, i: nat, r: Baseline)
    requires ValidState(s) && WellPromoted(promoted) && i < |s.table| && r in promoted
    requires s.table[i].cycleSource != "manual" && ScopeOf(s.table[i]) == ScopeOf(r)
    ensures var row, f := s.table[i], Rebuilt(s, promoted, now).table;
      i < |f| && f[i] == if row == r.(id := row.id, updatedAt := row.updatedAt) then row
        else r.(id := row.id, updatedAt := now)
  {
    CandidateIn(promoted, r);
    CandidateScope(r, 0, 0);
    FindByScopeMeaning(s, ScopeOf(r));
    UnchangedMeansEqual(s, i, r);
    MergedMeaning(s, promoted, now);
    if NeedsWrite(s.table)(r) {
      MergedRowOfCandidate(s, promoted, now, i, r);
    } else {
      UnwrittenScope(s, promoted, r);
      assert ScopeOf(r) in KeptScopes(s.table, promoted);
      KeptScopeSurvives(s, promoted, now, i);
    }
  }

  /** A row whose scope has no candidate is switched off if it is active history and keeps everything otherwise. */
  lemma RowWithoutCandidate(s: State, promoted: seq<Baseline>, now: int, i: nat)
    requires ValidState(s) && WellPromoted(promoted) && i < |s.table|
    requires forall r :: r in promoted ==> ScopeOf(r) != ScopeOf(s.table[i])
    ensures var row, f := s.table[i], Rebuilt(s, promoted, now).table;
      i < |f| && f[i] == if row.cycleSource == "history" && row.isActive then row.(isActive := false, updatedAt := now)
        else row
  {
    var t, u, rows := s.table, Merged(s, promoted, now), ToUpsert(s.table, promoted);
    MergedMeaning(s, promoted, now);
    FilterMembers(promoted, NeedsWrite(t));
    StaleOnlyInPlace(t, u, ScopesOf(rows), KeptScopes(t, promoted), i);
  }

  /** A manual row keeps everything, whatever the candidates are. */
  lemma ManualRowStays(s: State, promoted: seq<Baseline>, now: int, i: nat)
    requires ValidState(s) && WellPromoted(promoted) && i < |s.table| && s.table[i].cycleSource == "manual"
    ensures i < |Rebuilt(s, promoted, now).table| && Rebuilt(s, promoted, now).table[i] == s.table[i]
  {
    RebuildChangesOnlyChangedScopes(s, promoted, now);
  }

  /** The rows a rebuild adds are the candidates whose scope had no row, each stored as it is. */
  lemma AddedRowIsACandidate(s: State, promoted: seq<Baseline>, now: int, i: nat) returns (r: Baseline)
    requires ValidState(s) && WellPromoted(promoted) && |s.table| <= i < |Rebuilt(s, promoted, now).table|
    ensures r in promoted && (forall k :: 0 <= k < |s.table| ==> ScopeOf(s.table[k]) != ScopeOf(r))
    ensures var row := Rebuilt(s, promoted, now).table[i]; row == r.(id := row.id, updatedAt := now)
  {
    var u, rows := Merged(s, promoted, now), ToUpsert(s.table, promoted);
    MergedMeaning(s, promoted, now);
    FilterMembers(promoted, NeedsWrite(s.table));
    assert ScopeOf(u.table[i]) in ScopesOf(rows);
    r :| r in rows && ScopeOf(r) == ScopeOf(u.table[i]);
    CandidateIn(promoted, r);
    CandidateScope(r, 0, 0);
    MergedRowOfCandidate(s, promoted, now, i, r);
    forall k | 0 <= k < |s.table| ensures ScopeOf(s.table[k]) != ScopeOf(r) {
      assert ScopeOf(u.table[k]) == ScopeOf(s.table[k]);
      assert u.table[i].machineModel.Some?;
    }
  }

  /** And every candidate whose scope had no row is among them. */
  lemma MissingCandidateIsAdded(s: State, promoted: seq<Baseline>, now: int, r: Baseline) returns (i: nat)
    requires ValidState(s) && WellPromoted(promoted) && r in promoted
    requires forall k :: 0 <= k < |s.table| ==> ScopeOf(s.table[k]) != ScopeOf(r)
    ensures |s.table| <= i < |Rebuilt(s, promoted, now).table|
    ensures var row := Rebuilt(s, promoted, now).table[i]; row == r.(id := row.id, updatedAt := now)
  {
    CandidateIn(promoted, r);
    FindByScopeMeaning(s, ScopeOf(r));
    MergedMeaning(s, promoted, now);
    i := WrittenCandidateIsMerged(s, promoted, now, r);
    var u := Merged(s, promoted, now);
    CandidateScope(r, u.table[i].id, now);
    assert u.table[i] == Stored(r, u.table[i].id, now);
    assert forall k :: 0 <= k < |s.table| ==> ScopeOf(u.table[k]) == ScopeOf(s.table[k]);
    MergedRowOfCandidate(s, promoted, now, i, r);
  }

  /** Row i of the rebuilt table is new or not what it was. */
  ghost predicate IsTouched(t: seq<Baseline>, f: seq<Baseline>, i: int) {
    0 <= i < |f| && (i >= |t| || f[i] != t[i])
  }

  lemma StaleRowIsTouched(s: State, promoted: seq<Baseline>, now: int, i: nat)
    requires ValidState(s) && WellPromoted(promoted) && i < |s.table|
    requires IsStale(s.table[i], KeptScopes(s.table, promoted))
    ensures IsTouched(s.table, Rebuilt(s, promoted, now).table, i)
  {
    forall r | r in promoted ensures ScopeOf(r) != ScopeOf(s.table[i]) {
      if ScopeOf(r) == ScopeOf(s.table[i]) {
        CandidateIn(promoted, r);
        CandidateScope(r, 0, 0);
        FindByScopeMeaning(s, ScopeOf(r));
      }
    }
    RowWithoutCandidate(s, promoted, now, i);
  }

  lemma WrittenScopeIsTouched(s: State, promoted: seq<Baseline>, now: int, r: Baseline) returns (i: nat)
    requires ValidState(s) && WellPromoted(promoted) && r in promoted && NeedsWrite(s.table)(r)
    ensures IsTouched(s.table, Rebuilt(s, promoted, now).table, i)
    ensures ScopeOf(Rebuilt(s, promoted, now).table[i]) == ScopeOf(r)
  {
    CandidateIn(promoted, r);
    CandidateScope(r, 0, 0);
    FindByScopeMeaning(s, ScopeOf(r));
    RebuildChangesOnlyChangedScopes(s, promoted, now);
    if k :| 0 <= k < |s.table| && ScopeOf(s.table[k]) == ScopeOf(r) {
      i := k;
      UnchangedMeansEqual(s, k, r);
      RowOfACandidate(s, promoted, now, k, r);
    } else {
      i := MissingCandidateIsAdded(s, promoted, now, r);
      CandidateScope(r, Rebuilt(s, promoted, now).table[i].id, now);
      assert Rebuilt(s, promoted, now).table[i] == Stored(r, Rebuilt(s, promoted, now).table[i].id, now);
    }
  }

  lemma ChangedScopeIsTouched(s: State, promoted: seq<Baseline>, now: int, scope: Scope) returns (i: nat)
    requires ValidState(s) && WellPromoted(promoted) && scope in ChangedScopes(s.table, promoted)
    ensures IsTouched(s.table, Rebuilt(s, promoted, now).table, i)
    ensures ScopeOf(Rebuilt(s, promoted, now).table[i]) == scope
  {
    var t := s.table;
    if r :| r in ToUpsert(t, promoted) && ScopeOf(r) == scope {
      FilterMembers(promoted, NeedsWrite(t));
      i := WrittenScopeIsTouched(s, promoted, now, r);
    } else {
      var row :| row in t && IsStale(row, KeptScopes(t, promoted)) && ScopeOf(row) == scope;
      i :| 0 <= i < |t| && t[i] == row;
      RebuildChangesOnlyChangedScopes(s, promoted, now);
      StaleRowIsTouched(s, promoted, now, i);
    }
  }

  lemma TouchedScopeIsChanged(s: State, promoted: seq<Baseline>, now: int, i: nat)
    requires ValidState(s) && WellPromoted(promoted) && IsTouched(s.table, Rebuilt(s, promoted, now).table, i)
    ensures ScopeOf(Rebuilt(s, promoted, now).table[i]) in ChangedScopes(s.table, promoted)
  {
    RebuildChangesOnlyChangedScopes(s, promoted, now);
  }

  /** The scopes reported as changed are exactly those of the rows that are new or not what they were. */
  lemma ChangedScopesExactly(s: State, promoted: seq<Baseline>, now: int, scope: Scope)
    requires ValidState(s) && WellPromoted(promoted)
    ensures var t, f := s.table, Rebuilt(s, promoted, now).table;
      scope in ChangedScopes(t, promoted) <==> exists i :: IsTouched(t, f, i) && ScopeOf(f[i]) == scope
  {
    var t, f := s.table, Rebuilt(s, promoted, now).table;
    if scope in ChangedScopes(t, promoted) {
      var i := ChangedScopeIsTouched(s, promoted, now, scope);
    } else if i :| IsTouched(t, f, i) && ScopeOf(f[i]) == scope {
      TouchedScopeIsChanged(s, promoted, now, i);
    }
  }

  // ---- a second run ----

  lemma OwnedStaysProtected(s: State, promoted: seq<Baseline>, now: int, r: Baseline)
    requires ValidState(s) && WellPromoted(promoted) && IsCandidate(r)
    ensures IsProtected(Rebuilt(s, promoted, now).table, r)
      <==> IsProtected(s.table, r) || !NoManualOwner(Rebuilt(s, promoted, now).table, ScopeOf(r))
  {
    var f := Rebuilt(s, promoted, now);
    RebuildChangesOnlyChangedScopes(s, promoted, now);
    ProtectedMeansOwned(s, r);
    ProtectedMeansOwned(f, r);
    if !NoManualOwner(s.table, ScopeOf(r)) {
      var i :| 0 <= i < |s.table| && ScopeOf(s.table[i]) == ScopeOf(r) && s.table[i].cycleSource == MANUAL;
      assert f.table[i] == s.table[i];
    }
  }

  lemma SecondRunSkips(s: State, promoted: seq<Baseline>, now: int, r: Baseline)
    requires ValidState(s) && WellPromoted(promoted) && IsCandidate(r)
      && (NoManualOwner(s.table, ScopeOf(r)) ==> r in promoted)
    ensures var f := Rebuilt(s, promoted, now).table;
      !NeedsWrite(f)(r) && (IsProtected(f, r) <==> !NoManualOwner(s.table, ScopeOf(r)))
  {
    var f := Rebuilt(s, promoted, now);
    RebuildChangesOnlyChangedScopes(s, promoted, now);
    ProtectedMeansOwned(s, r);
    FindByScopeMeaning(f, ScopeOf(r));
    if NoManualOwner(s.table, ScopeOf(r)) {
      CandidatesAreReflected(s, promoted, now, r);
    } else {
      OwnedStaysProtected(s, promoted, now, r);
    }
  }

  /** Two candidate lists that differ at most in scopes that manual rows own, and in their order. */
  ghost predicate SameUnowned(table: seq<Baseline>, promoted: seq<Baseline>, again: seq<Baseline>) {
    forall r :: NoManualOwner(table, ScopeOf(r)) ==> (r in promoted <==> r in again)
  }

  lemma SecondRunKeepsTheSame(s: State, promoted: seq<Baseline>, again: seq<Baseline>, now: int)
    requires ValidState(s) && WellPromoted(promoted) && WellPromoted(again) && SameUnowned(s.table, promoted, again)
    ensures var f := Rebuilt(s, promoted, now).table;
      ToUpsert(f, again) == [] && KeptScopes(f, again) == KeptScopes(s.table, promoted)
  {
    var f := Rebuilt(s, promoted, now).table;
    forall r | r in again ensures !NeedsWrite(f)(r) && (IsProtected(f, r) <==> !NoManualOwner(s.table, ScopeOf(r))) {
      SecondRunSkips(s, promoted, now, r);
    }
    forall r | r in promoted ensures IsProtected(s.table, r) <==> !NoManualOwner(s.table, ScopeOf(r)) {
      ProtectedMeansOwned(s, r);
    }
    FilterNone(again, NeedsWrite(f));
  }

  lemma NothingStaleAfterwards(s: State, promoted: seq<Baseline>, now: int, row: Baseline)
    requires ValidState(s) && WellPromoted(promoted) && row in Rebuilt(s, promoted, now).table
    ensures !IsStale(row, KeptScopes(s.table, promoted))
  {
    if IsActiveHistory(row) {
      var f := Rebuilt(s, promoted, now).table;
      var i :| 0 <= i < |f| && f[i] == row;
      ActiveHistoryIsKept(s, promoted, now, i);
    }
  }

  /**
   A second rebuild whose candidates are the same, apart from their order and from scopes that manual rows own,
   writes nothing, finds nothing stale, reports no changed scope and leaves the table as it is, at any later time.
  */
  lemma RebuildIsIdempotent(s: State, promoted: seq<Baseline>, again: seq<Baseline>, now: int, later: int)
    requires ValidState(s) && WellPromoted(promoted) && WellPromoted(again) && SameUnowned(s.table, promoted, again)
    ensures var f := Rebuilt(s, promoted, now);
      && ToUpsert(f.table, again) == []
      && StaleIds(f.table, KeptScopes(f.table, again)) == {}
      && ChangedScopes(f.table, again) == {}
      && Rebuilt(f, again, later) == f
  {
    var f := Rebuilt(s, promoted, now);
    SecondRunKeepsTheSame(s, promoted, again, now);
    forall row | row in f.table ensures !IsStale(row, KeptScopes(s.table, promoted)) {
      NothingStaleAfterwards(s, promoted, now, row);
    }
    assert Deactivate(f.table, {}, later) == f.table;
  }

  /** The candidate behind a kept scope. */
  lemma KeptScopeHasCandidate(s: State, promoted: seq<Baseline>, scope: Scope) returns (r: Baseline)
    requires ValidState(s) && WellPromoted(promoted) && scope in KeptScopes(s.table, promoted)
    ensures r in promoted && IsCandidate(r) && ScopeOf(r) == scope && NoManualOwner(s.table, scope)
  {
    r :| r in promoted && !IsProtected(s.table, r) && ScopeOf(r) == scope;
    var m :| 0 <= m < |promoted| && promoted[m] == r;
    ProtectedMeansOwned(s, r);
  }

  /** Scopes are unique, so the row of a candidate's scope is the one that reflects the candidate. */
  lemma RowOfScopeReflects(f: State, r: Baseline, i: nat)
    requires ValidState(f) && i < |f.table| && IsCandidate(r) && Reflects(f.table, r)
    requires ScopeOf(f.table[i]) == ScopeOf(r)
    ensures IsActiveHistory(f.table[i]) && !HistoryRowChanged(f.table[i], r)
  {
    var k :| 0 <= k < |f.table| && ScopeOf(f.table[k]) == ScopeOf(r) && !HistoryRowChanged(f.table[k], r)
      && IsActiveHistory(f.table[k]);
    CandidateScope(r, 0, 0);
    assert k == i;
  }

  /** Every row of a kept scope is an active history row afterwards, with the values of a candidate. */
  lemma KeptRowReflects(s: State, promoted: seq<Baseline>, now: int, i: nat) returns (r: Baseline)
    requires ValidState(s) && WellPromoted(promoted) && i < |Rebuilt(s, promoted, now).table|
    requires ScopeOf(Rebuilt(s, promoted, now).table[i]) in KeptScopes(s.table, promoted)
    ensures r in promoted && IsCandidate(r)
    ensures var row := Rebuilt(s, promoted, now).table[i];
      ScopeOf(r) == ScopeOf(row) && IsActiveHistory(row) && !HistoryRowChanged(row, r)
  {
    var f := Rebuilt(s, promoted, now);
    r := KeptScopeHasCandidate(s, promoted, ScopeOf(f.table[i]));
    CandidatesAreReflected(s, promoted, now, r);
    RebuildChangesOnlyChangedScopes(s, promoted, now);
    RowOfScopeReflects(f, r, i);
  }

  /** Rows written by a rebuild carry their part type in material_no, which is what the cycle lookup relies on. */
  lemma RebuiltHistoryIsTyped(s: State, promoted: seq<Baseline>, now: int, i: nat)
    requires ValidState(s) && WellPromoted(promoted) && i < |Rebuilt(s, promoted, now).table|
    requires IsActiveHistory(Rebuilt(s, promoted, now).table[i])
    ensures var row := Rebuilt(s, promoted, now).table[i];
      && EffectiveType(row) == row.materialNo
      && exists r :: r in promoted && ScopeOf(r) == ScopeOf(row) && !HistoryRowChanged(row, r)
  {
    ActiveHistoryIsKept(s, promoted, now, i);
    var r := KeptRowReflects(s, promoted, now, i);
    CandidateScope(r, 0, 0);
  }

  /** An active row that is not history is as it was before the rebuild. */
  lemma OtherActiveRowsAreOld(s: State, promoted: seq<Baseline>, now: int, i: nat)
    requires ValidState(s) && WellPromoted(promoted) && i < |Rebuilt(s, promoted, now).table|
    requires Rebuilt(s, promoted, now).table[i].isActive && Rebuilt(s, promoted, now).table[i].cycleSource != HISTORY
    ensures i < |s.table| && Rebuilt(s, promoted, now).table[i] == s.table[i]
  {
    var u := Merged(s, promoted, now);
    MergedMeaning(s, promoted, now);
    assert ScopeOf(Rebuilt(s, promoted, now).table[i]) == ScopeOf(u.table[i]);
    if ScopeOf(u.table[i]) in KeptScopes(s.table, promoted) {
      var _ := KeptRowReflects(s, promoted, now, i);
    }
  }

  lemma ValidIdsAreUnique(s: State)
    requires ValidState(s)
    ensures PartBaselineTable.UniqueIds(s.table)
  {
  }

  lemma ActiveRowIsTyped(s: State, promoted: seq<Baseline>, now: int, i: nat)
    requires ValidState(s) && WellPromoted(promoted) && i < |Rebuilt(s, promoted, now).table|
    requires forall j :: 0 <= j < |s.table| && s.table[j].isActive && s.table[j].cycleSource != HISTORY ==>
      EffectiveType(s.table[j]) == s.table[j].materialNo
    requires Rebuilt(s, promoted, now).table[i].isActive
    ensures var row := Rebuilt(s, promoted, now).table[i]; EffectiveType(row) == row.materialNo
  {
    if Rebuilt(s, promoted, now).table[i].cycleSource == HISTORY {
      RebuiltHistoryIsTyped(s, promoted, now, i);
    } else {
      OtherActiveRowsAreOld(s, promoted, now, i);
    }
  }

  /**
   After a rebuild, the in-memory lookup and the ranked queries give the same cycle for every description,
   provided the active rows the rebuild does not own are filed under their own type.
  */
  lemma LookupsAgreeAfterRebuild(s: State, promoted: seq<Baseline>, now: int, model: string, plant: Option<string>,
                                 lookup: Lookup, desc: Option<string>)
    requires ValidState(s) && WellPromoted(promoted)
    requires forall i :: 0 <= i < |s.table| && s.table[i].isActive && s.table[i].cycleSource != HISTORY ==>
      EffectiveType(s.table[i]) == s.table[i].materialNo
    requires lookup.baselines == ListActiveByModel(Rebuilt(s, promoted, now).table, model, plant)
    requires MapsToFirst(lookup.exactMap, lookup.baselines)
    ensures var f := Rebuilt(s, promoted, now).table;
      GetPartCycle(f, model, desc, plant, Some(lookup)) == GetPartCycle(f, model, desc, plant, None)
  {
    var f := Rebuilt(s, promoted, now).table;
    RebuildChangesOnlyChangedScopes(s, promoted, now);
    ValidIdsAreUnique(Rebuilt(s, promoted, now));
    forall row | row in f && Candidates(model, plant)(row) ensures EffectiveType(row) == row.materialNo {
      var i :| 0 <= i < |f| && f[i] == row;
      ActiveRowIsTyped(s, promoted, now, i);
    }
    LookupAgreesWithQueries(f, model, plant, lookup, desc);
  }

  /** The three promises of a rebuild, for every valid table and every list of production orders. */
  lemma RebuildFromOrders(s: State, orders: seq<ProductionOrder>, now: int, later: int)
    requires ValidState(s)
    ensures var promoted, f := Promoted(orders), Rebuilt(s, Promoted(orders), now);
      && ValidState(f)
      && Touched(s.table, f.table, ChangedScopes(s.table, promoted))
      && (forall scope :: HasActiveHistory(f.table, scope)
           <==> (NoManualOwner(s.table, scope) && exists r :: r in promoted && ScopeOf(r) == scope))
      && Rebuilt(f, promoted, later) == f && ChangedScopes(f.table, promoted) == {}
  {
    PromotedRowsAreWellFormed(orders);
    RebuildChangesOnlyChangedScopes(s, Promoted(orders), now);
    RebuildIsIdempotent(s, Promoted(orders), Promoted(orders), now, later);
    forall scope ensures HasActiveHistory(Rebuilt(s, Promoted(orders), now).table, scope)
      <==> (NoManualOwner(s.table, scope) && exists r :: r in Promoted(orders) && ScopeOf(r) == scope)
    {
      ActiveHistoryIsTheUnownedPromotion(s, Promoted(orders), now, scope);
    }
  }

  /**
   From the orders to the table: when the orders of a candidate all took k days, its scope has an active history row
   of k days after the rebuild, unless a manual row owns the scope.
  */
  lemma OrdersOfKDaysAreStored(s: State, orders: seq<ProductionOrder>, now: int, r: Baseline, k: nat)
    requires ValidState(s) && r in Promoted(orders) && NoManualOwner(s.table, ScopeOf(r))
    requires forall o :: o in orders && Feeds(o, r) ==> Span(o) == k * 86_400_000_000
    ensures exists row ::
      && row in Rebuilt(s, Promoted(orders), now).table
      && row.materialNo == r.materialNo && row.machineModel == r.machineModel && row.plant == r.plant
      && row.isActive && row.cycleSource == "history" && row.cycleDays == k * 10_000
  {
    PromotedRowsAreWellFormed(orders);
    EqualSpansArePromoted(orders, r, k);
    CandidatesAreReflected(s, Promoted(orders), now, r);
    CandidateIn(Promoted(orders), r);
    CandidateScope(r, 0, 0);
    var f := Rebuilt(s, Promoted(orders), now).table;
    var i :| 0 <= i < |f| && ScopeOf(f[i]) == ScopeOf(r) && !HistoryRowChanged(f[i], r) && IsActiveHistory(f[i]);
    assert f[i] in f;
  }

  // ---- how many rows a rebuild deactivates ----

  function HasIdIn(ids: set<nat>): Baseline -> bool {
    (row: Baseline) => row.id in ids
  }

  function StaleFor(kept: set<Scope>): Baseline -> bool {
    (row: Baseline) => IsStale(row, kept)
  }

  /** The number of rows that the final UPDATE of a rebuild matches. */
  function Matched(s: State, promoted: seq<Baseline>, now: int): nat {
    |Filter(Merged(s, promoted, now).table, HasIdIn(StaleIds(s.table, KeptScopes(s.table, promoted))))|
  }

  lemma CountsAlikeUpTo(longer: seq<Baseline>, rows: seq<Baseline>, p: Baseline -> bool, q: Baseline -> bool)
    requires |rows| <= |longer|
    requires forall i :: 0 <= i < |longer| ==> (p(longer[i]) <==> i < |rows| && q(rows[i]))
    ensures |Filter(longer, p)| == |Filter(rows, q)|
  {
    var first, rest := longer[..|rows|], longer[|rows|..];
    assert longer == first + rest;
    FilterConcat(first, rest, p);
    FilterCountsAlike(first, rows, p, q);
    FilterNone(rest, p);
  }

  /** The rows the deactivation finds are the stale rows of the table before the rebuild. */
  lemma DeactivatedAreTheStale(s: State, promoted: seq<Baseline>, now: int)
    requires ValidState(s) && WellPromoted(promoted)
    ensures Matched(s, promoted, now) == |Filter(s.table, StaleFor(KeptScopes(s.table, promoted)))|
  {
    var t, u, kept := s.table, Merged(s, promoted, now), KeptScopes(s.table, promoted);
    var ids := StaleIds(t, kept);
    MergedMeaning(s, promoted, now);
    forall i | 0 <= i < |u.table| ensures HasIdIn(ids)(u.table[i]) <==> i < |t| && StaleFor(kept)(t[i]) {
      StaleOnlyInPlace(t, u, ScopesOf(ToUpsert(t, promoted)), kept, i);
    }
    CountsAlikeUpTo(u.table, t, HasIdIn(ids), StaleFor(kept));
  }

  // ---- the repository and the rebuild as they run ----

  datatype Summary = Summary(
    promoted: nat,
    persisted: nat,
    sameAsBefore: nat,
    manualProtected: nat,
    deactivated: nat,
    skippedLowSample: nat,
    skippedHighVariance: nat,
    stats: Stats,
    changed: set<Scope>)

  /** The counters of the collected and the skipped groups. */
  ghost predicate CountsOf(loaded: seq<ProductionOrder>, fewSamples: nat, highVariance: nat, stats: Stats) {
    && stats == Count(loaded)
    && fewSamples == |Filter(GroupKeys(loaded), HasFewSamples(loaded))|
    && highVariance == |Filter(GroupKeys(loaded), IsSpread(loaded))|
  }

  function Protected(table: seq<Baseline>): Baseline -> bool {
    (row: Baseline) => IsProtected(table, row)
  }

  class PartCycleBaselineRepo {
    var table: seq<Baseline>
    var nextId: nat

    ghost function Contents(): State
      reads this
    {
      State(table, nextId)
    }

    constructor ()
      ensures Contents() == State([], 1) && ValidState(Contents())
    {
      table, nextId := [], 1;
    }

    method BulkUpsertHistoryRows(rows: seq<Baseline>, now: int)
      modifies this
      ensures Contents() == UpsertAll(old(Contents()), rows, now)
    {
      for i := 0 to |rows|
        invariant Contents() == UpsertAll(old(Contents()), rows[..i], now)
      {
        assert rows[..i + 1][..i] == rows[..i];
        var existing := FindByScope(table, ScopeOf(rows[i]));
        if existing.None? {
          table, nextId := table + [Stored(rows[i], nextId, now)], nextId + 1;
        } else if existing.value.cycleSource != MANUAL {
          table := Replace(table, Stored(rows[i], existing.value.id, now));
        }
      }
      assert rows[..|rows|] == rows;
    }

    /** Returns the number of rows the UPDATE matched. */
    method DeactivateHistoryIds(ids: set<nat>, now: int) returns (updated: nat)
      modifies this`table
      ensures table == Deactivate(old(table), ids, now)
      ensures updated == |Filter(old(table), HasIdIn(ids))|
    {
      updated := |Filter(table, HasIdIn(ids))|;
      table := Deactivate(table, ids, now);
    }

    /** The first pass over the candidates: what to write, what to keep, what changed. */
    method Classify(promoted: seq<Baseline>)
      returns (rows: seq<Baseline>, kept: set<Scope>, changed: set<Scope>, same: nat, manualProtected: nat)
      ensures rows == ToUpsert(table, promoted) && kept == KeptScopes(table, promoted) && changed == ScopesOf(rows)
      ensures |rows| + same + manualProtected == |promoted|
      ensures manualProtected == |Filter(promoted, Protected(table))|
    {
      rows, kept, changed, same, manualProtected := [], {}, {}, 0, 0;
      for i := 0 to |promoted|
        invariant |rows| + same + manualProtected == i
        invariant Classified(table, promoted[..i], rows, kept, changed, manualProtected)
      {
        var row := promoted[i];
        ClassifyStep(table, promoted, i, rows, kept, changed, manualProtected);
        var existing := FindByScope(table, ScopeOf(row));
        if existing.Some? && existing.value.cycleSource == MANUAL {
          manualProtected := manualProtected + 1;
          continue;
        }
        kept := kept + {ScopeOf(row)};
        if existing.Some? && !HistoryRowChanged(existing.value, row) {
          same := same + 1;
          continue;
        }
        rows := rows + [row];
        changed := changed + {ScopeOf(row)};
      }
      assert promoted[..|promoted|] == promoted;
    }

    /** Merges the candidates into the table; the first three counters add up to the candidates. */
    method Merge(promoted: seq<Baseline>, now: int)
      returns (persisted: nat, same: nat, manualProtected: nat, deactivated: nat, changed: set<Scope>)
      modifies this
      ensures Contents() == Rebuilt(old(Contents()), promoted, now)
      ensures persisted == |ToUpsert(old(table), promoted)| && changed == ChangedScopes(old(table), promoted)
      ensures manualProtected == |Filter(promoted, Protected(old(table)))|
      ensures persisted + same + manualProtected == |promoted|
      ensures deactivated == Matched(old(Contents()), promoted, now)
    {
      var history := table;
      var rows, kept;
      rows, kept, changed, same, manualProtected := Classify(promoted);
      BulkUpsertHistoryRows(rows, now);
      var staleIds := StaleIds(history, kept);
      changed := changed + set row | row in history && IsStale(row, kept) :: ScopeOf(row);
      deactivated := DeactivateHistoryIds(staleIds, now);
      persisted := |rows|;
    }

    method Rebuild(orders: seq<ProductionOrder>, persist: bool, now: int) returns (summary: Summary)
      modifies this
      ensures !persist ==>
        Contents() == old(Contents()) && summary.persisted == 0 && summary.deactivated == 0 && summary.changed == {}
      ensures persist ==>
        && Contents() == Rebuilt(old(Contents()), Promoted(orders), now)
        && summary.persisted == |ToUpsert(old(table), Promoted(orders))|
        && summary.changed == ChangedScopes(old(table), Promoted(orders))
        && summary.persisted + summary.sameAsBefore + summary.manualProtected == summary.promoted
        && summary.manualProtected == |Filter(Promoted(orders), Protected(old(table)))|
        && summary.deactivated == Matched(old(Contents()), Promoted(orders), now)
        && (ValidState(old(Contents())) ==>
             summary.deactivated == |Filter(old(table), StaleFor(KeptScopes(old(table), Promoted(orders))))|)
      ensures CountsOf(Filter(orders, IsLoaded), summary.skippedLowSample, summary.skippedHighVariance, summary.stats)
      ensures summary.promoted == |Promoted(orders)|
    {
      var loaded := Filter(orders, IsLoaded);
      var groups, keys, stats := CollectGroupEntries(loaded);
      var promoted, few, spread := BuildPromotedRows(loaded, groups, keys);
      if !persist {
        return Summary(|promoted|, 0, 0, 0, 0, few, spread, stats, {});
      }
      var persisted, same, manualProtected, deactivated, changed := Merge(promoted, now);
      summary := Summary(|promoted|, persisted, same, manualProtected, deactivated, few, spread, stats, changed);
      MatchedAreTheStale(old(Contents()), orders, now);
    }
  }

  lemma MatchedAreTheStale(s: State, orders: seq<ProductionOrder>, now: int)
    ensures ValidState(s) ==>
      Matched(s, Promoted(orders), now) == |Filter(s.table, StaleFor(KeptScopes(s.table, Promoted(orders))))|
  {
    if ValidState(s) {
      PromotedRowsAreWellFormed(orders);
      DeactivatedAreTheStale(s, Promoted(orders), now);
    }
  }

  lemma KeptExtends(table: seq<Baseline>, promoted: seq<Baseline>, row: Baseline)
    ensures KeptScopes(table, promoted + [row])
      == KeptScopes(table, promoted) + if IsProtected(table, row) then {} else {ScopeOf(row)}
  {
    assert forall r :: r in promoted + [row] <==> r in promoted || r == row;
  }

  ghost predicate Classified(table: seq<Baseline>, promoted: seq<Baseline>, rows: seq<Baseline>, kept: set<Scope>,
                             changed: set<Scope>,
                             manualProtected: nat) {
    && rows == ToUpsert(table, promoted) && kept == KeptScopes(table, promoted) && changed == ScopesOf(rows)
    && manualProtected == |Filter(promoted, Protected(table))|
  }

  lemma ClassifyStep(table: seq<Baseline>, promoted: seq<Baseline>, i: nat, rows: seq<Baseline>, kept: set<Scope>,
                     changed: set<Scope>,
                     manualProtected: nat)
    requires i < |promoted| && Classified(table, promoted[..i], rows, kept, changed, manualProtected)
    ensures var row, next := promoted[i], promoted[..i + 1];
      if IsProtected(table, row) then Classified(table, next, rows, kept, changed, manualProtected + 1)
      else if !NeedsWrite(table)(row)
        then Classified(table, next, rows, kept + {ScopeOf(row)}, changed, manualProtected)
      else Classified(table, next, rows + [row], kept + {ScopeOf(row)}, changed + {ScopeOf(row)}, manualProtected)
  {
    assert promoted[..i + 1] == promoted[..i] + [promoted[i]];
    FilterConcat(promoted[..i], [promoted[i]], NeedsWrite(table));
    FilterConcat(promoted[..i], [promoted[i]], Protected(table));
    KeptExtends(table, promoted[..i], promoted[i]);
    ScopesOfExtends(rows, promoted[i]);
  }
}
