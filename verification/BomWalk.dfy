/**
 The recursive expansion of an assembly's bill of materials
 (app/scheduler/key_part_identify_service.py, lines 39-128).

 The bill may contain cycles. The walk is stated twice: as the code runs it, growing a result list and
 building path texts on the way down, and as the list of row paths ("trails") it stands for.
*/
module BomWalk {
  import opened Prelude
  import opened Sorting

  /** A row of bom_relation_src; id 0 stands for a row without a primary key. */
  datatype BomRow = BomRow(
    id: nat,
    materialNo: Option<string>,
    componentNo: Option<string>,
    componentDesc: Option<string>,
    bomLevel: Option<int>,
    isSelfMade: bool)

  type Index = map<string, seq<BomRow>>

  type Trail = seq<BomRow>

  datatype PartNode = PartNode(
    row: BomRow,
    parentMaterialNo: Option<string>,
    parentName: Option<string>,
    nodeLevel: int,
    bomPath: string,
    bomPathKey: string)

  function ParentNo(row: BomRow): string { Text(row.materialNo) }

  function ChildNo(row: BomRow): string { Text(row.componentNo) }

  function ChildName(row: BomRow): string {
    if Text(row.componentDesc) != "" then Text(row.componentDesc)
    else if ChildNo(row) != "" then ChildNo(row)
    else "-"
  }

  /** The sibling order (bom_level or 0, bom_component_no or "", id). */
  predicate SiblingLeq(x: BomRow, y: BomRow) {
    var a, b := x.bomLevel.GetOr(0), y.bomLevel.GetOr(0);
    var s, t := x.componentNo.GetOr(""), y.componentNo.GetOr("");
    a < b || (a == b && ((s != t && TextLeq(s, t)) || (s == t && x.id <= y.id)))
  }

  ghost predicate UniqueIds(rows: seq<BomRow>) {
    && NoDuplicates(rows)
    && forall x, y :: x in rows && y in rows && x.id == y.id ==> x == y
  }

  // ---- the children index ----

  function ChildOf(parent: string): BomRow -> bool {
    row => ParentNo(row) == parent
  }

  function Parents(rows: seq<BomRow>): set<string> {
    set row | row in rows && ParentNo(row) != "" :: ParentNo(row)
  }

  function ChildrenIndex(rows: seq<BomRow>): Index {
    map parent | parent in Parents(rows) :: SortBy(Filter(rows, ChildOf(parent)), SiblingLeq)
  }

  /** The lists of the index before they are sorted. */
  ghost predicate Groups(grouped: Index, rows: seq<BomRow>) {
    && grouped.Keys == Parents(rows)
    && forall p :: p in grouped ==> grouped[p] == Filter(rows, ChildOf(p))
  }

  function AddToGroup(grouped: Index, row: BomRow): Index {
    var parent := ParentNo(row);
    if parent == "" then grouped
    else grouped[parent := (if parent in grouped then grouped[parent] else []) + [row]]
  }

  method BuildChildrenIndex(rows: seq<BomRow>) returns (index: Index)
    ensures index == ChildrenIndex(rows)
  {
    var grouped := map[];
    for i := 0 to |rows|
      invariant Groups(grouped, rows[..i])
    {
      GroupsExtend(grouped, rows[..i], rows[i]);
      assert rows[..i + 1] == rows[..i] + [rows[i]];
      grouped := AddToGroup(grouped, rows[i]);
    }
    assert rows[..|rows|] == rows;
    index := SortGroups(grouped);
    SortedGroupsAreTheIndex(grouped, index, rows);
  }

  lemma SortedGroupsAreTheIndex(grouped: Index, sorted: Index, rows: seq<BomRow>)
    requires Groups(grouped, rows) && sorted.Keys == grouped.Keys
    requires forall p :: p in sorted ==> sorted[p] == SortBy(grouped[p], SiblingLeq)
    ensures sorted == ChildrenIndex(rows)
  {
  }

  /** Each list of the dict is sorted in place, one key after the other. */
  method SortGroups(grouped: Index) returns (sorted: Index)
    ensures sorted.Keys == grouped.Keys
    ensures forall p :: p in sorted ==> sorted[p] == SortBy(grouped[p], SiblingLeq)
  {
    sorted := grouped;
    var pending := grouped.Keys;
    while pending != {}
      invariant sorted.Keys == grouped.Keys && pending <= grouped.Keys
      invariant forall p :: p in pending ==> sorted[p] == grouped[p]
      invariant forall p :: p in sorted && p !in pending ==> sorted[p] == SortBy(grouped[p], SiblingLeq)
      decreases pending
    {
      var p :| p in pending;
      sorted := sorted[p := SortBy(sorted[p], SiblingLeq)];
      pending := pending - {p};
    }
  }

  lemma ParentsExtend(rows: seq<BomRow>, row: BomRow)
    ensures Parents(rows + [row]) == Parents(rows) + if ParentNo(row) == "" then {} else {ParentNo(row)}
  {
    assert row in rows + [row];
    assert forall r :: r in rows + [row] <==> r in rows || r == row;
  }

  lemma GroupsExtend(grouped: Index, rows: seq<BomRow>, row: BomRow)
    requires Groups(grouped, rows)
    ensures Groups(AddToGroup(grouped, row), rows + [row])
  {
    var parent := ParentNo(row);
    ParentsExtend(rows, row);
    NoChildren(rows, parent);
    forall p | p in AddToGroup(grouped, row)
      ensures AddToGroup(grouped, row)[p] == Filter(rows + [row], ChildOf(p))
    {
      FilterConcat(rows, [row], ChildOf(p));
      assert Filter([row], ChildOf(p)) == if p == parent then [row] else [];
    }
  }

  lemma NoChildren(rows: seq<BomRow>, parent: string)
    ensures parent != "" && Filter(rows, ChildOf(parent)) != [] ==> parent in Parents(rows)
  {
    FilterMembers(rows, ChildOf(parent));
    var kept := Filter(rows, ChildOf(parent));
    if parent != "" && kept != [] {
      assert kept[0] in rows && ParentNo(kept[0]) == parent;
    }
  }

  lemma SiblingOrderIsTotal()
    ensures TotalPreorder(SiblingLeq)
  {
    forall x, y ensures SiblingLeq(x, y) || SiblingLeq(y, x) {
      TextLeqTotal(x.componentNo.GetOr(""), y.componentNo.GetOr(""));
    }
    forall x, y, z | SiblingLeq(x, y) && SiblingLeq(y, z) ensures SiblingLeq(x, z) {
      var a, b, c := x.componentNo.GetOr(""), y.componentNo.GetOr(""), z.componentNo.GetOr("");
      if TextLeq(a, b) && TextLeq(b, c) { TextLeqTransitive(a, b, c); }
      TextLeqTotal(a, b);
    }
  }

  lemma SiblingOrderDistinguishes(rows: seq<BomRow>)
    requires UniqueIds(rows)
    ensures Distinguishes(rows, SiblingLeq)
  {
    forall x, y | x in rows && y in rows && SiblingLeq(x, y) && SiblingLeq(y, x) ensures x == y {
      TextLeqTotal(x.componentNo.GetOr(""), y.componentNo.GetOr(""));
    }
  }

  lemma IndexMembers(rows: seq<BomRow>, parent: string, row: BomRow)
    ensures parent in ChildrenIndex(rows) && row in ChildrenIndex(rows)[parent]
      <==> parent != "" && row in rows && ParentNo(row) == parent
  {
    if parent in ChildrenIndex(rows) {
      FilterMembers(rows, ChildOf(parent));
      SortByMembers(Filter(rows, ChildOf(parent)), SiblingLeq);
    }
  }

  lemma IndexSiblingsDistinct(rows: seq<BomRow>, parent: string)
    requires UniqueIds(rows) && parent in ChildrenIndex(rows)
    ensures NoDuplicates(ChildrenIndex(rows)[parent])
  {
    FilterKeepsDistinct(rows, ChildOf(parent));
    SortKeepsDistinct(Filter(rows, ChildOf(parent)), SiblingLeq);
  }

  /**
   The query returns rows in no particular order inside a level; the index, and with it everything the
   walk emits, does not depend on that order.
  */
  lemma IndexForgetsRowOrder(a: seq<BomRow>, b: seq<BomRow>)
    requires UniqueIds(a) && multiset(a) == multiset(b)
    ensures ChildrenIndex(a) == ChildrenIndex(b)
  {
    SameMembers(a, b);
    SiblingOrderIsTotal();
    forall p | p in Parents(a)
      ensures SortBy(Filter(a, ChildOf(p)), SiblingLeq) == SortBy(Filter(b, ChildOf(p)), SiblingLeq)
    {
      FilterForgetsStoredOrder(a, b, ChildOf(p));
      FilterMembers(a, ChildOf(p));
      SiblingOrderDistinguishes(a);
      SortForgetsStoredOrder(Filter(a, ChildOf(p)), Filter(b, ChildOf(p)), SiblingLeq);
    }
  }

  // ---- trails ----

  /** Every material the walk can step to; the unvisited ones measure what is left of the walk. */
  function Materials(index: Index): set<string> {
    set parent, row | parent in index && row in index[parent] :: ChildNo(row)
  }

  function TrailsUnder(index: Index, parent: string, visited: set<string>): (trails: seq<Trail>)
    ensures NoneEmpty(trails)
    decreases Materials(index) - visited, 2, 0
  {
    if parent in index then TrailsVia(index, parent, index[parent], visited) else []
  }

  function TrailsVia(index: Index, parent: string, todo: seq<BomRow>, visited: set<string>): (trails: seq<Trail>)
    requires parent in index && forall row :: row in todo ==> row in index[parent]
    ensures NoneEmpty(trails)
    decreases Materials(index) - visited, 1, |todo|
  {
    if todo == [] then []
    else
      assert todo[0] in index[parent];
      TrailsFrom(index, todo[0], visited) + TrailsVia(index, parent, todo[1..], visited)
  }

  function TrailsFrom(index: Index, row: BomRow, visited: set<string>): (trails: seq<Trail>)
    requires ChildNo(row) in Materials(index)
    ensures NoneEmpty(trails)
    decreases Materials(index) - visited, 0, 0
  {
    var no := ChildNo(row);
    if no == "" || no in visited then []
    else
      assert no in Materials(index) - visited;
      (if row.isSelfMade then [[row]] else []) + Prepend(row, TrailsUnder(index, no, visited + {no}))
  }

  ghost predicate NoneEmpty(trails: seq<Trail>) {
    forall i :: 0 <= i < |trails| ==> trails[i] != []
  }

  function Prepend(row: BomRow, trails: seq<Trail>): seq<Trail> {
    seq(|trails|, i requires 0 <= i < |trails| => [row] + trails[i])
  }

  /**
   A part path: rows of the bill that lead from `start` to a self-made row, each row a child of the one
   before, meeting no blank material, no visited material and no material twice.
  */
  ghost predicate IsPartPath(rows: seq<BomRow>, start: string, visited: set<string>, t: Trail) {
    && t != [] && start != ""
    && (forall i :: 0 <= i < |t| ==> t[i] in rows && ChildNo(t[i]) != "" && ChildNo(t[i]) !in visited)
    && ParentNo(t[0]) == start
    && (forall i :: 0 < i < |t| ==> ParentNo(t[i]) == ChildNo(t[i - 1]))
    && (forall i, j :: 0 <= i < j < |t| ==> ChildNo(t[i]) != ChildNo(t[j]))
    && t[|t| - 1].isSelfMade
  }

  lemma PartPathTail(rows: seq<BomRow>, start: string, visited: set<string>, t: Trail)
    requires |t| > 1 && IsPartPath(rows, start, visited, t)
    ensures IsPartPath(rows, ChildNo(t[0]), visited + {ChildNo(t[0])}, t[1..])
  {
    var rest := t[1..];
    assert forall i :: 0 <= i < |rest| ==> rest[i] == t[i + 1];
    assert ParentNo(t[1]) == ChildNo(t[0]);
    assert forall i :: 0 < i < |rest| ==> ParentNo(rest[i]) == ChildNo(rest[i - 1]);
  }

  lemma PartPathCons(rows: seq<BomRow>, start: string, visited: set<string>, t: Trail)
    requires |t| > 1 && start != "" && t[0] in rows && ParentNo(t[0]) == start
    requires ChildNo(t[0]) != "" && ChildNo(t[0]) !in visited
    requires IsPartPath(rows, ChildNo(t[0]), visited + {ChildNo(t[0])}, t[1..])
    ensures IsPartPath(rows, start, visited, t)
  {
    var rest := t[1..];
    assert forall i :: 0 < i < |t| ==> t[i] == rest[i - 1];
    forall i | 0 < i < |t| ensures ParentNo(t[i]) == ChildNo(t[i - 1]) {
      if i > 1 { assert ParentNo(rest[i - 1]) == ChildNo(rest[i - 2]); }
    }
    forall i, j | 0 <= i < j < |t| ensures ChildNo(t[i]) != ChildNo(t[j]) {
      if i > 0 { assert ChildNo(rest[i - 1]) != ChildNo(rest[j - 1]); }
    }
  }

  /** What it takes for a trail to continue through a given sibling. */
  ghost predicate Continues(index: Index, t: Trail, visited: set<string>) {
    && t != []
    && ChildNo(t[0]) != "" && ChildNo(t[0]) !in visited
    && if |t| == 1 then t[0].isSelfMade else t[1..] in TrailsUnder(index, ChildNo(t[0]), visited + {ChildNo(t[0])})
  }

  lemma PrependMembers(row: BomRow, trails: seq<Trail>, t: Trail)
    requires NoneEmpty(trails)
    ensures t in Prepend(row, trails) <==> (|t| > 1 && t[0] == row && t[1..] in trails)
  {
    if t in Prepend(row, trails) {
      var i :| 0 <= i < |trails| && t == [row] + trails[i];
      assert t[1..] == trails[i];
    }
    if |t| > 1 && t[0] == row && t[1..] in trails {
      var i :| 0 <= i < |trails| && trails[i] == t[1..];
      assert Prepend(row, trails)[i] == [row] + trails[i] == t;
    }
  }

  lemma TrailsFromMembers(index: Index, row: BomRow, visited: set<string>, t: Trail)
    requires ChildNo(row) in Materials(index)
    ensures t in TrailsFrom(index, row, visited) <==> (Continues(index, t, visited) && t[0] == row)
  {
    var no := ChildNo(row);
    if no != "" && no !in visited {
      PrependMembers(row, TrailsUnder(index, no, visited + {no}), t);
      if |t| == 1 { assert t == [t[0]]; }
    }
  }

  lemma {:induction false} TrailsViaMembers(index: Index, parent: string, todo: seq<BomRow>, visited: set<string>,
                                            t: Trail)
    requires parent in index && forall row :: row in todo ==> row in index[parent]
    ensures t in TrailsVia(index, parent, todo, visited) <==> (Continues(index, t, visited) && t[0] in todo)
  {
    if todo != [] {
      assert todo[0] in index[parent];
      TrailsViaMembers(index, parent, todo[1..], visited, t);
      TrailsFromMembers(index, todo[0], visited, t);
    }
  }

  lemma PartPathSplits(rows: seq<BomRow>, start: string, visited: set<string>, t: Trail)
    requires |t| > 1
    ensures IsPartPath(rows, start, visited, t) <==> (StartsPath(rows, start, visited, t[0])
      && IsPartPath(rows, ChildNo(t[0]), visited + {ChildNo(t[0])}, t[1..]))
  {
    if IsPartPath(rows, start, visited, t) {
      PartPathTail(rows, start, visited, t);
    } else if StartsPath(rows, start, visited, t[0]) {
      if IsPartPath(rows, ChildNo(t[0]), visited + {ChildNo(t[0])}, t[1..]) {
        PartPathCons(rows, start, visited, t);
      }
    }
  }

  /** A row a path may begin with. */
  ghost predicate StartsPath(rows: seq<BomRow>, start: string, visited: set<string>, row: BomRow) {
    start != "" && row in rows && ParentNo(row) == start && ChildNo(row) != "" && ChildNo(row) !in visited
  }

  lemma TrailsUnderMembers(rows: seq<BomRow>, start: string, visited: set<string>, t: Trail)
    requires t != []
    ensures var index := ChildrenIndex(rows);
      t in TrailsUnder(index, start, visited) <==> (StartsPath(rows, start, visited, t[0])
        && if |t| == 1 then t[0].isSelfMade else t[1..] in TrailsUnder(index, ChildNo(t[0]), visited + {ChildNo(t[0])}))
  {
    var index := ChildrenIndex(rows);
    IndexMembers(rows, start, t[0]);
    if start in index {
      TrailsViaMembers(index, start, index[start], visited, t);
    }
  }

  /**
   The walk terminates on every bill, cyclic ones included, and lists exactly the part paths.
  */
  lemma {:induction false} TrailsAreThePartPaths(rows: seq<BomRow>, start: string, visited: set<string>, t: Trail)
    ensures t in TrailsUnder(ChildrenIndex(rows), start, visited) <==> IsPartPath(rows, start, visited, t)
    decreases |t|
  {
    if t != [] {
      TrailsUnderMembers(rows, start, visited, t);
      if |t| > 1 {
        TrailsAreThePartPaths(rows, ChildNo(t[0]), visited + {ChildNo(t[0])}, t[1..]);
        PartPathSplits(rows, start, visited, t);
      } else {
        SingleRowPath(rows, start, visited, t);
      }
    }
  }

  lemma SingleRowPath(rows: seq<BomRow>, start: string, visited: set<string>, t: Trail)
    requires |t| == 1
    ensures IsPartPath(rows, start, visited, t) <==> StartsPath(rows, start, visited, t[0]) && t[0].isSelfMade
  {
  }

  /** Sibling order: bom_level or 0, then the component number as text, then the id. */
  lemma SiblingsAscend(rows: seq<BomRow>, parent: string, i: nat, j: nat)
    requires parent in ChildrenIndex(rows) && i < j < |ChildrenIndex(rows)[parent]|
    ensures var x, y := ChildrenIndex(rows)[parent][i], ChildrenIndex(rows)[parent][j];
      && x.bomLevel.GetOr(0) <= y.bomLevel.GetOr(0)
      && (x.bomLevel.GetOr(0) == y.bomLevel.GetOr(0) ==>
           if x.componentNo.GetOr("") == y.componentNo.GetOr("") then x.id <= y.id
           else TextLeq(x.componentNo.GetOr(""), y.componentNo.GetOr("")))
  {
    SiblingOrderIsTotal();
    SortBySorts(Filter(rows, ChildOf(parent)), SiblingLeq);
  }

  /** Trail s is listed before trail t: it leads on to t, or it takes an earlier sibling where the two part. */
  ghost predicate Precedes(s: Trail, t: Trail) {
    exists k :: 0 <= k <= |s| && k < |t| && s[..k] == t[..k] && (k == |s| || (s[k] != t[k] && SiblingLeq(s[k], t[k])))
  }

  ghost predicate InPreOrder(trails: seq<Trail>) {
    forall i, j :: 0 <= i < j < |trails| ==> Precedes(trails[i], trails[j])
  }

  lemma PrecedesBelow(row: BomRow, s: Trail, t: Trail)
    requires Precedes(s, t)
    ensures Precedes([row] + s, [row] + t)
  {
    var k :| 0 <= k <= |s| && k < |t| && s[..k] == t[..k] && (k == |s| || (s[k] != t[k] && SiblingLeq(s[k], t[k])));
    var a, b := [row] + s, [row] + t;
    assert a[..k + 1] == [row] + s[..k] && b[..k + 1] == [row] + t[..k];
    assert k < |s| ==> a[k + 1] == s[k];
    assert b[k + 1] == t[k];
  }

  lemma SiblingsPrecede(s: Trail, t: Trail)
    requires s != [] && t != [] && s[0] != t[0] && SiblingLeq(s[0], t[0])
    ensures Precedes(s, t)
  {
    assert s[..0] == t[..0];
  }

  lemma HeadPrecedes(row: BomRow, t: Trail)
    requires |t| > 1 && t[0] == row
    ensures Precedes([row], t)
  {
    assert [row][..1] == t[..1];
  }

  lemma PrependInPreOrder(row: BomRow, trails: seq<Trail>)
    requires InPreOrder(trails)
    ensures InPreOrder(Prepend(row, trails))
  {
    var below := Prepend(row, trails);
    forall i, j | 0 <= i < j < |below| ensures Precedes(below[i], below[j]) {
      PrecedesBelow(row, trails[i], trails[j]);
    }
  }

  lemma ConcatInPreOrder(a: seq<Trail>, b: seq<Trail>)
    requires InPreOrder(a) && InPreOrder(b) && forall i, j :: 0 <= i < |a| && 0 <= j < |b| ==> Precedes(a[i], b[j])
    ensures InPreOrder(a + b)
  {
  }

  lemma HeadInPreOrder(row: BomRow, below: seq<Trail>)
    requires InPreOrder(below) && forall i :: 0 <= i < |below| ==> |below[i]| > 1 && below[i][0] == row
    ensures InPreOrder([[row]] + below)
  {
    forall j | 0 <= j < |below| ensures Precedes([row], below[j]) { HeadPrecedes(row, below[j]); }
    ConcatInPreOrder([[row]], below);
  }

  /** The siblings still to do are distinct and in order. */
  ghost predicate InSiblingOrder(todo: seq<BomRow>) {
    forall i, j :: 0 <= i < j < |todo| ==> SiblingLeq(todo[i], todo[j]) && todo[i] != todo[j]
  }

  lemma {:induction false} TrailsViaInPreOrder(rows: seq<BomRow>, parent: string, todo: seq<BomRow>,
                                               visited: set<string>)
    requires UniqueIds(rows) && parent in ChildrenIndex(rows)
    requires InSiblingOrder(todo) && forall row :: row in todo ==> row in ChildrenIndex(rows)[parent]
    ensures InPreOrder(TrailsVia(ChildrenIndex(rows), parent, todo, visited))
    decreases Materials(ChildrenIndex(rows)) - visited, 1, |todo|
  {
    var index := ChildrenIndex(rows);
    if todo != [] {
      assert todo[0] in index[parent];
      var here, later := TrailsFrom(index, todo[0], visited), TrailsVia(index, parent, todo[1..], visited);
      TrailsViaInPreOrder(rows, parent, todo[1..], visited);
      TrailsFromInPreOrder(rows, todo[0], visited);
      forall i, j | 0 <= i < |here| && 0 <= j < |later| ensures Precedes(here[i], later[j]) {
        LaterSiblingsFollow(index, parent, todo, visited, here[i], later[j]);
      }
      ConcatInPreOrder(here, later);
    }
  }

  lemma LaterSiblingsFollow(index: Index, parent: string, todo: seq<BomRow>, visited: set<string>, s: Trail, t: Trail)
    requires parent in index && (forall row :: row in todo ==> row in index[parent]) && todo != []
    requires InSiblingOrder(todo) && ChildNo(todo[0]) in Materials(index)
    requires s in TrailsFrom(index, todo[0], visited) && t in TrailsVia(index, parent, todo[1..], visited)
    ensures Precedes(s, t)
  {
    TrailsFromMembers(index, todo[0], visited, s);
    TrailsViaMembers(index, parent, todo[1..], visited, t);
    var k :| 0 <= k < |todo[1..]| && todo[1..][k] == t[0];
    assert todo[k + 1] == t[0];
    SiblingsPrecede(s, t);
  }

  lemma {:induction false} TrailsFromInPreOrder(rows: seq<BomRow>, row: BomRow, visited: set<string>)
    requires UniqueIds(rows) && ChildNo(row) in Materials(ChildrenIndex(rows))
    ensures InPreOrder(TrailsFrom(ChildrenIndex(rows), row, visited))
    decreases Materials(ChildrenIndex(rows)) - visited, 0, 0
  {
    var index, no := ChildrenIndex(rows), ChildNo(row);
    if no != "" && no !in visited {
      assert no in Materials(index) - visited;
      TrailsAreInPreOrder(rows, no, visited + {no});
      var below := Prepend(row, TrailsUnder(index, no, visited + {no}));
      PrependInPreOrder(row, TrailsUnder(index, no, visited + {no}));
      HeadInPreOrder(row, below);
      assert [] + below == below;
    }
  }

  /** Paths are listed before those they lead on to, and otherwise by the sibling order where they part. */
  lemma {:induction false} TrailsAreInPreOrder(rows: seq<BomRow>, start: string, visited: set<string>)
    requires UniqueIds(rows)
    ensures InPreOrder(TrailsUnder(ChildrenIndex(rows), start, visited))
    decreases Materials(ChildrenIndex(rows)) - visited, 2, 0
  {
    if start in ChildrenIndex(rows) {
      var children := ChildrenIndex(rows)[start];
      IndexSiblingsDistinct(rows, start);
      SiblingOrderIsTotal();
      SortBySorts(Filter(rows, ChildOf(start)), SiblingLeq);
      assert InSiblingOrder(children);
      TrailsViaInPreOrder(rows, start, children, visited);
    }
  }

  lemma PrependKeepsDistinct(row: BomRow, trails: seq<Trail>)
    requires NoDuplicates(trails)
    ensures NoDuplicates(Prepend(row, trails))
  {
    forall i, j | 0 <= i < j < |trails| ensures [row] + trails[i] != [row] + trails[j] {
      assert ([row] + trails[i])[1..] == trails[i] && ([row] + trails[j])[1..] == trails[j];
    }
  }

  lemma HeadBeforePrepended(row: BomRow, trails: seq<Trail>)
    requires NoneEmpty(trails) && NoDuplicates(Prepend(row, trails))
    ensures NoDuplicates([[row]] + Prepend(row, trails)) && NoDuplicates([] + Prepend(row, trails))
  {
    assert forall i :: 0 <= i < |trails| ==> |Prepend(row, trails)[i]| > 1;
  }

  /** ... and lists each of them once. */
  lemma {:induction false} TrailsAreDistinct(rows: seq<BomRow>, start: string, visited: set<string>)
    requires UniqueIds(rows)
    ensures NoDuplicates(TrailsUnder(ChildrenIndex(rows), start, visited))
    decreases Materials(ChildrenIndex(rows)) - visited, 2, 0
  {
    if start in ChildrenIndex(rows) {
      IndexSiblingsDistinct(rows, start);
      TrailsViaDistinct(rows, start, ChildrenIndex(rows)[start], visited);
    }
  }

  lemma {:induction false} TrailsViaDistinct(rows: seq<BomRow>, parent: string, todo: seq<BomRow>, visited: set<string>)
    requires UniqueIds(rows) && parent in ChildrenIndex(rows)
    requires NoDuplicates(todo) && forall row :: row in todo ==> row in ChildrenIndex(rows)[parent]
    ensures NoDuplicates(TrailsVia(ChildrenIndex(rows), parent, todo, visited))
    decreases Materials(ChildrenIndex(rows)) - visited, 1, |todo|
  {
    var index := ChildrenIndex(rows);
    if todo != [] {
      assert todo[0] in index[parent];
      var here, later := TrailsFrom(index, todo[0], visited), TrailsVia(index, parent, todo[1..], visited);
      TrailsViaDistinct(rows, parent, todo[1..], visited);
      TrailsFromDistinct(rows, todo[0], visited);
      forall i, j | 0 <= i < |here| && 0 <= j < |later| ensures here[i] != later[j] {
        DifferentSiblingsDifferentTrails(index, parent, todo, visited, here[i], later[j]);
      }
      ConcatKeepsDistinct(here, later);
    }
  }

  lemma DifferentSiblingsDifferentTrails(index: Index, parent: string, todo: seq<BomRow>, visited: set<string>,
                                         s: Trail, t: Trail)
    requires parent in index && (forall row :: row in todo ==> row in index[parent]) && todo != [] && NoDuplicates(todo)
    requires ChildNo(todo[0]) in Materials(index)
    requires s in TrailsFrom(index, todo[0], visited) && t in TrailsVia(index, parent, todo[1..], visited)
    ensures s != t
  {
    TrailsFromMembers(index, todo[0], visited, s);
    TrailsViaMembers(index, parent, todo[1..], visited, t);
  }

  lemma {:induction false} TrailsFromDistinct(rows: seq<BomRow>, row: BomRow, visited: set<string>)
    requires UniqueIds(rows) && ChildNo(row) in Materials(ChildrenIndex(rows))
    ensures NoDuplicates(TrailsFrom(ChildrenIndex(rows), row, visited))
    decreases Materials(ChildrenIndex(rows)) - visited, 0, 0
  {
    var index, no := ChildrenIndex(rows), ChildNo(row);
    if no != "" && no !in visited {
      assert no in Materials(index) - visited;
      TrailsAreDistinct(rows, no, visited + {no});
      PrependKeepsDistinct(row, TrailsUnder(index, no, visited + {no}));
      HeadBeforePrepended(row, TrailsUnder(index, no, visited + {no}));
    }
  }

  // ---- the walk as the code runs it ----

  /** What a recursive call of `walk` is given besides the visited set. */
  datatype Frame = Frame(parentNo: string, parentName: string, depth: int, labels: seq<string>, keys: seq<string>)

  function Label(name: string, no: string): string {
    name + "(" + no + ")"
  }

  /** `str(child.id or f"{parent}->{child}")`. */
  function KeySegment(parentNo: string, row: BomRow): string {
    if row.id != 0 then DecimalText(row.id) else parentNo + "->" + ChildNo(row)
  }

  function Descend(f: Frame, row: BomRow): Frame {
    Frame(ChildNo(row), ChildName(row), f.depth + 1,
          f.labels + [Label(ChildName(row), ChildNo(row))], f.keys + [KeySegment(f.parentNo, row)])
  }

  function OrNone(s: string): Option<string> {
    if s == "" then None else Some(s)
  }

  /** The node emitted for a trail below a frame. */
  function NodeOf(f: Frame, t: Trail): PartNode
    requires t != []
    decreases |t|
  {
    if |t| == 1 then
      var below := Descend(f, t[0]);
      PartNode(t[0], OrNone(f.parentNo), OrNone(f.parentName), f.depth,
               Join(" / ", below.labels), Join(">", below.keys))
    else NodeOf(Descend(f, t[0]), t[1..])
  }

  function Nodes(f: Frame, trails: seq<Trail>): seq<PartNode>
    requires NoneEmpty(trails)
  {
    seq(|trails|, i requires 0 <= i < |trails| => NodeOf(f, trails[i]))
  }

  lemma NodesPrepend(f: Frame, row: BomRow, trails: seq<Trail>)
    requires NoneEmpty(trails)
    ensures Nodes(f, Prepend(row, trails)) == Nodes(Descend(f, row), trails)
  {
    forall i | 0 <= i < |trails|
      ensures NodeOf(f, [row] + trails[i]) == NodeOf(Descend(f, row), trails[i])
    {
      assert ([row] + trails[i])[1..] == trails[i];
    }
  }

  class PartCollector {
    const index: Index
    var results: seq<PartNode>

    constructor (index: Index)
      ensures this.index == index && results == []
    {
      this.index := index;
      results := [];
    }

    method Walk(f: Frame, visited: set<string>)
      modifies this`results
      ensures results == old(results) + Nodes(f, TrailsUnder(index, f.parentNo, visited))
      decreases Materials(index) - visited, 1
    {
      if f.parentNo !in index {
        return;
      }
      var children := index[f.parentNo];
      ghost var all := old(results) + Nodes(f, TrailsVia(index, f.parentNo, children, visited));
      assert children[0..] == children;
      for i := 0 to |children|
        invariant results + Nodes(f, TrailsVia(index, f.parentNo, children[i..], visited)) == all
      {
        assert children[i] in index[f.parentNo];
        NodesViaStep(index, f, children, i, visited);
        ConcatAssociates(results, Nodes(f, TrailsFrom(index, children[i], visited)),
                         Nodes(f, TrailsVia(index, f.parentNo, children[i + 1..], visited)));
        WalkChild(f, children[i], visited);
      }
    }

    /** The body of the loop over the children: skip blanks and cycles, emit self-made rows, go deeper. */
    method WalkChild(f: Frame, child: BomRow, visited: set<string>)
      requires ChildNo(child) in Materials(index)
      modifies this`results
      ensures results == old(results) + Nodes(f, TrailsFrom(index, child, visited))
      decreases Materials(index) - visited, 0
    {
      var childNo := ChildNo(child);
      if childNo == "" || childNo in visited { return; }
      NodesFrom(index, f, child, visited);
      assert childNo in Materials(index) - visited;
      var below := Descend(f, child);
      if child.isSelfMade {
        results := results + [PartNode(child, OrNone(f.parentNo), OrNone(f.parentName), f.depth,
                                       Join(" / ", below.labels), Join(">", below.keys))];
      }
      Walk(below, visited + {childNo});
    }
  }

  lemma NodesViaStep(index: Index, f: Frame, children: seq<BomRow>, i: nat, visited: set<string>)
    requires f.parentNo in index && children == index[f.parentNo] && i < |children|
    ensures ChildNo(children[i]) in Materials(index)
    ensures Nodes(f, TrailsVia(index, f.parentNo, children[i..], visited))
      == Nodes(f, TrailsFrom(index, children[i], visited))
        + Nodes(f, TrailsVia(index, f.parentNo, children[i + 1..], visited))
  {
    assert children[i] in index[f.parentNo];
    assert children[i..][1..] == children[i + 1..];
    NodesConcat(f, TrailsFrom(index, children[i], visited), TrailsVia(index, f.parentNo, children[i + 1..], visited));
  }

  lemma NodesConcat(f: Frame, a: seq<Trail>, b: seq<Trail>)
    requires NoneEmpty(a) && NoneEmpty(b)
    ensures Nodes(f, a + b) == Nodes(f, a) + Nodes(f, b)
  {
  }

  lemma NodesFrom(index: Index, f: Frame, row: BomRow, visited: set<string>)
    requires ChildNo(row) in Materials(index) && ChildNo(row) != "" && ChildNo(row) !in visited
    ensures Nodes(f, TrailsFrom(index, row, visited))
      == (if row.isSelfMade then [NodeOf(f, [row])] else [])
       + Nodes(Descend(f, row), TrailsUnder(index, ChildNo(row), visited + {ChildNo(row)}))
  {
    var deeper := TrailsUnder(index, ChildNo(row), visited + {ChildNo(row)});
    NodesPrepend(f, row, deeper);
    NodesConcat(f, if row.isSelfMade then [[row]] else [], Prepend(row, deeper));
  }

  function RootFrame(assemblyNo: string, assemblyName: string): Frame {
    var title := if assemblyName != "" then assemblyName else if assemblyNo != "" then assemblyNo else "-";
    var no := if assemblyNo != "" then assemblyNo else "-";
    Frame(assemblyNo, assemblyName, 1, [Label(title, no)], ["root:" + assemblyNo])
  }

  /** The paths under an assembly. */
  function PartTrails(rows: seq<BomRow>, assemblyNo: string): seq<Trail> {
    TrailsUnder(ChildrenIndex(rows), assemblyNo, {assemblyNo})
  }

  function SelfMadeParts(rows: seq<BomRow>, assemblyNo: string, assemblyName: string): seq<PartNode> {
    Nodes(RootFrame(assemblyNo, assemblyName), PartTrails(rows, assemblyNo))
  }

  method CollectRecursiveSelfMadeParts(rows: seq<BomRow>, assemblyNo: string, assemblyName: string)
    returns (results: seq<PartNode>)
    ensures results == SelfMadeParts(rows, assemblyNo, assemblyName)
  {
    var index := BuildChildrenIndex(rows);
    var collector := new PartCollector(index);
    collector.Walk(RootFrame(assemblyNo, assemblyName), {assemblyNo});
    results := collector.results;
  }

  // ---- what the emitted list is ----

  function Ids(t: Trail): seq<string> {
    seq(|t|, i requires 0 <= i < |t| => DecimalText(t[i].id))
  }

  function Labels(t: Trail): seq<string> {
    seq(|t|, i requires 0 <= i < |t| => Label(ChildName(t[i]), ChildNo(t[i])))
  }

  /** A node carries the last row of its trail, its depth and the row it hangs from. */
  lemma {:induction false} NodeOfMeaning(f: Frame, t: Trail)
    requires t != []
    ensures var n := NodeOf(f, t);
      && n.row == t[|t| - 1]
      && n.nodeLevel == f.depth + |t| - 1
      && n.parentMaterialNo == OrNone(if |t| == 1 then f.parentNo else ChildNo(t[|t| - 2]))
      && n.parentName == OrNone(if |t| == 1 then f.parentName else ChildName(t[|t| - 2]))
    decreases |t|
  {
    if |t| > 1 { NodeOfMeaning(Descend(f, t[0]), t[1..]); }
  }

  lemma {:induction false} PathJoinsLabels(f: Frame, t: Trail)
    requires t != []
    ensures NodeOf(f, t).bomPath == Join(" / ", f.labels + Labels(t))
    decreases |t|
  {
    if |t| == 1 {
      assert Labels(t) == [Label(ChildName(t[0]), ChildNo(t[0]))];
    } else {
      PathJoinsLabels(Descend(f, t[0]), t[1..]);
      assert Descend(f, t[0]).labels + Labels(t[1..]) == f.labels + Labels(t);
    }
  }

  /** Segment i of a path key: the id of the row, or for a row without one the two materials it joins. */
  function KeySegments(parentNo: string, t: Trail): seq<string> {
    seq(|t|, i requires 0 <= i < |t| =>
      if t[i].id != 0 then DecimalText(t[i].id)
      else (if i == 0 then parentNo else ChildNo(t[i - 1])) + "->" + ChildNo(t[i]))
  }

  lemma SegmentsBelow(parentNo: string, t: Trail)
    requires |t| > 1
    ensures KeySegments(parentNo, t) == [KeySegment(parentNo, t[0])] + KeySegments(ChildNo(t[0]), t[1..])
  {
    var all, rest := KeySegments(parentNo, t), KeySegments(ChildNo(t[0]), t[1..]);
    forall i | 0 < i < |t| ensures all[i] == rest[i - 1] {
      assert t[1..][i - 1] == t[i];
      if i > 1 { assert t[1..][i - 2] == t[i - 1]; }
    }
    assert all[0] == KeySegment(parentNo, t[0]);
  }

  lemma OneSegment(parentNo: string, t: Trail)
    requires |t| == 1
    ensures KeySegments(parentNo, t) == [KeySegment(parentNo, t[0])]
  {
  }

  lemma DescendingKeys(f: Frame, t: Trail)
    requires |t| > 1
    ensures var g := Descend(f, t[0]);
      g.keys + KeySegments(g.parentNo, t[1..]) == f.keys + KeySegments(f.parentNo, t)
  {
    SegmentsBelow(f.parentNo, t);
    ConcatAssociates(f.keys, [KeySegment(f.parentNo, t[0])], KeySegments(ChildNo(t[0]), t[1..]));
  }

  lemma {:induction false} PathKeyJoinsSegments(f: Frame, t: Trail)
    requires t != []
    ensures NodeOf(f, t).bomPathKey == Join(">", f.keys + KeySegments(f.parentNo, t))
    decreases |t|
  {
    if |t| == 1 {
      OneSegment(f.parentNo, t);
    } else {
      PathKeyJoinsSegments(Descend(f, t[0]), t[1..]);
      DescendingKeys(f, t);
    }
  }

  lemma PathKeyJoinsIds(f: Frame, t: Trail)
    requires t != [] && forall i :: 0 <= i < |t| ==> t[i].id != 0
    ensures NodeOf(f, t).bomPathKey == Join(">", f.keys + Ids(t))
  {
    PathKeyJoinsSegments(f, t);
    assert KeySegments(f.parentNo, t) == Ids(t);
  }

  lemma PathKeyDeterminesTrail(rows: seq<BomRow>, f: Frame, s: Trail, t: Trail)
    requires UniqueIds(rows) && (forall row :: row in rows ==> row.id != 0)
    requires s != [] && t != [] && |f.keys| == 1
    requires (forall row :: row in s ==> row in rows) && (forall row :: row in t ==> row in rows)
    requires NodeOf(f, s).bomPathKey == NodeOf(f, t).bomPathKey
    ensures s == t
  {
    PathKeyJoinsIds(f, s);
    PathKeyJoinsIds(f, t);
    assert (f.keys + Ids(s))[1..] == Ids(s) && (f.keys + Ids(t))[1..] == Ids(t);
    var head := f.keys[0] + ">";
    var x, y := Join(">", Ids(s)), Join(">", Ids(t));
    assert head + x == head + y;
    assert (head + x)[|head|..] == x && (head + y)[|head|..] == y;
    forall i | 0 <= i < |s| ensures '>' !in Ids(s)[i] { DecimalTextHasOnlyDigits(s[i].id); }
    forall i | 0 <= i < |t| ensures '>' !in Ids(t)[i] { DecimalTextHasOnlyDigits(t[i].id); }
    JoinInjective(Ids(s), Ids(t));
    assert |s| == |Ids(s)| == |Ids(t)| == |t|;
    forall i | 0 <= i < |s| ensures s[i] == t[i] {
      assert Ids(s)[i] == Ids(t)[i];
      DecimalTextInjective(s[i].id, t[i].id);
    }
  }

  /** The node of a path: its last row, its length, the material above and the names along it. */
  ghost predicate Describes(n: PartNode, assemblyNo: string, assemblyName: string, t: Trail) {
    && t != [] && n.row == t[|t| - 1] && n.nodeLevel == |t|
    && n.parentMaterialNo == (if |t| > 1 then Some(ChildNo(t[|t| - 2])) else Some(assemblyNo))
    && n.parentName == (if |t| > 1 then Some(ChildName(t[|t| - 2]))
                        else if assemblyName != "" then Some(assemblyName) else None)
    && n.bomPath == Join(" / ", RootFrame(assemblyNo, assemblyName).labels + Labels(t))
  }

  lemma NodeDescribesItsPath(rows: seq<BomRow>, assemblyNo: string, assemblyName: string, t: Trail)
    requires IsPartPath(rows, assemblyNo, {assemblyNo}, t)
    ensures Describes(NodeOf(RootFrame(assemblyNo, assemblyName), t), assemblyNo, assemblyName, t)
  {
    NodeOfMeaning(RootFrame(assemblyNo, assemblyName), t);
    PathJoinsLabels(RootFrame(assemblyNo, assemblyName), t);
  }

  /**
   The emitted list is exactly the part paths of the bill from the assembly, one node per path: the node
   describes its path, and every path is found.
  */
  lemma EmittedNodesAreThePartPaths(rows: seq<BomRow>, assemblyNo: string, assemblyName: string)
    requires UniqueIds(rows)
    ensures var trails, nodes := PartTrails(rows, assemblyNo), SelfMadeParts(rows, assemblyNo, assemblyName);
      && |nodes| == |trails| && NoDuplicates(trails)
      && (forall t :: t in trails <==> IsPartPath(rows, assemblyNo, {assemblyNo}, t))
      && (forall i :: 0 <= i < |nodes| ==> Describes(nodes[i], assemblyNo, assemblyName, trails[i]))
  {
    var trails, nodes := PartTrails(rows, assemblyNo), SelfMadeParts(rows, assemblyNo, assemblyName);
    TrailsAreDistinct(rows, assemblyNo, {assemblyNo});
    forall t ensures t in trails <==> IsPartPath(rows, assemblyNo, {assemblyNo}, t) {
      TrailsAreThePartPaths(rows, assemblyNo, {assemblyNo}, t);
    }
    forall i | 0 <= i < |nodes| ensures Describes(nodes[i], assemblyNo, assemblyName, trails[i]) {
      assert trails[i] in trails;
      NodeDescribesItsPath(rows, assemblyNo, assemblyName, trails[i]);
    }
  }

  /** The texts of a row: numbers and names are trimmed, a row without a name goes by its number. */
  lemma RowTexts(row: BomRow)
    ensures ParentNo(row) == Strip(row.materialNo.GetOr("")) && ChildNo(row) == Strip(row.componentNo.GetOr(""))
    ensures Strip(row.componentDesc.GetOr("")) != "" ==> ChildName(row) == Strip(row.componentDesc.GetOr(""))
    ensures Strip(row.componentDesc.GetOr("")) == "" && ChildNo(row) != "" ==> ChildName(row) == ChildNo(row)
  {
  }

  /** The texts of an emitted node join the assembly's and those of the rows along the path. */
  lemma NodeTexts(rows: seq<BomRow>, assemblyNo: string, assemblyName: string, i: nat)
    requires assemblyNo != "" && i < |SelfMadeParts(rows, assemblyNo, assemblyName)|
    ensures var n, t := SelfMadeParts(rows, assemblyNo, assemblyName)[i], PartTrails(rows, assemblyNo)[i];
      var title := (if assemblyName != "" then assemblyName else assemblyNo) + "(" + assemblyNo + ")";
      && n.bomPath == Join(" / ", [title] + seq(|t|, j requires 0 <= j < |t| =>
           ChildName(t[j]) + "(" + ChildNo(t[j]) + ")"))
      && n.bomPathKey == Join(">", ["root:" + assemblyNo] + KeySegments(assemblyNo, t))
  {
    var t, f := PartTrails(rows, assemblyNo)[i], RootFrame(assemblyNo, assemblyName);
    PathJoinsLabels(f, t);
    PathKeyJoinsSegments(f, t);
    assert Labels(t) == seq(|t|, j requires 0 <= j < |t| => ChildName(t[j]) + "(" + ChildNo(t[j]) + ")");
  }

  ghost predicate DistinctPathKeys(nodes: seq<PartNode>) {
    forall i, j :: 0 <= i < j < |nodes| ==> nodes[i].bomPathKey != nodes[j].bomPathKey
  }

  /** The path keys of one assembly are distinct texts, so a key identifies a node. */
  lemma PathKeysAreDistinct(rows: seq<BomRow>, assemblyNo: string, assemblyName: string)
    requires UniqueIds(rows) && forall row :: row in rows ==> row.id != 0
    ensures DistinctPathKeys(SelfMadeParts(rows, assemblyNo, assemblyName))
  {
    var trails, f := PartTrails(rows, assemblyNo), RootFrame(assemblyNo, assemblyName);
    EmittedNodesAreThePartPaths(rows, assemblyNo, assemblyName);
    forall i, j | 0 <= i < j < |trails| ensures NodeOf(f, trails[i]).bomPathKey != NodeOf(f, trails[j]).bomPathKey {
      assert trails[i] in trails && trails[j] in trails;
      if NodeOf(f, trails[i]).bomPathKey == NodeOf(f, trails[j]).bomPathKey {
        PathKeyDeterminesTrail(rows, f, trails[i], trails[j]);
      }
    }
  }

  // ---- the name of the assembly ----

  /** A node without the texts that show names. */
  function Unnamed(n: PartNode): PartNode {
    n.(parentName := None, bomPath := "")
  }

  lemma {:induction false} NodeForgetsName(f: Frame, g: Frame, t: Trail)
    requires t != [] && f.parentNo == g.parentNo && f.depth == g.depth && f.keys == g.keys
    ensures Unnamed(NodeOf(f, t)) == Unnamed(NodeOf(g, t))
    decreases |t|
  {
    if |t| > 1 { NodeForgetsName(Descend(f, t[0]), Descend(g, t[0]), t[1..]); }
  }

  /** The name an assembly goes by shows in path texts and parent names only. */
  lemma PartsForgetAssemblyName(rows: seq<BomRow>, assemblyNo: string, name: string, other: string)
    ensures var a, b := SelfMadeParts(rows, assemblyNo, name), SelfMadeParts(rows, assemblyNo, other);
      |a| == |b| && forall i :: 0 <= i < |a| ==> Unnamed(a[i]) == Unnamed(b[i])
  {
    var trails := PartTrails(rows, assemblyNo);
    forall i | 0 <= i < |trails|
      ensures Unnamed(SelfMadeParts(rows, assemblyNo, name)[i]) == Unnamed(SelfMadeParts(rows, assemblyNo, other)[i])
    {
      NodeForgetsName(RootFrame(assemblyNo, name), RootFrame(assemblyNo, other), trails[i]);
    }
  }

  /** Permuting the rows of the bill changes nothing in the emitted list, its order included. */
  lemma EmittedListForgetsRowOrder(a: seq<BomRow>, b: seq<BomRow>, assemblyNo: string, assemblyName: string)
    requires UniqueIds(a) && multiset(a) == multiset(b)
    ensures SelfMadeParts(a, assemblyNo, assemblyName) == SelfMadeParts(b, assemblyNo, assemblyName)
  {
    IndexForgetsRowOrder(a, b);
  }
}
