/**
 The BOM backfill queue (app/repository/bom_backfill_queue_repo.py, claim_batch): the same claim protocol over
 rows with a retry state and a priority.
*/
module BomQueue {
  import opened Prelude
  import opened Sorting
  import opened SkipLocked

  datatype Status = Pending | Processing | RetryWait | Success | Failed | Paused

  datatype Item = Item(status: Status, priority: int, firstDetectedAt: int, nextRetryAt: Option<int>,
                       lastAttemptAt: Option<int>)

  type Items = map<nat, Item>

  function IsOpen(i: Item): bool {
    i.status == Pending || i.status == RetryWait
  }

  /** A pending item is due at once, a waiting one when its retry time has come. */
  function IsDue(i: Item, now: int): bool {
    i.status == Pending || (i.nextRetryAt.Some? && i.nextRetryAt.value <= now)
  }

  function MarkProcessing(i: Item, worker: string, now: int): Item {
    i.(status := Processing, lastAttemptAt := Some(now))
  }

  const ITEMS := Discipline(IsOpen, IsDue, MarkProcessing)

  function Rank(items: Items, id: nat): (int, int) {
    if id in items then (items[id].priority, items[id].firstDetectedAt) else (0, 0)
  }

  /** ORDER BY priority, first_detected_at, id. */
  function Before(items: Items): (nat, nat) -> bool {
    (a: nat, b: nat) =>
      var p, q := Rank(items, a), Rank(items, b);
      p.0 < q.0 || (p.0 == q.0 && (p.1 < q.1 || (p.1 == q.1 && a <= b)))
  }

  function Claimable(items: Items, locked: set<nat>, now: int): nat -> bool {
    (id: nat) => id in items && IsOpen(items[id]) && IsDue(items[id], now) && id !in locked
  }

  function Batch(items: Items, nextId: nat, locked: set<nat>, now: int, limit: nat): seq<nat> {
    var queue := SortBy(Filter(Ids(nextId), Claimable(items, locked, now)), Before(items));
    if |queue| <= limit then queue else queue[..limit]
  }

  lemma BatchMembers(items: Items, nextId: nat, locked: set<nat>, now: int, limit: nat)
    ensures var b := Batch(items, nextId, locked, now, limit);
      && NoDuplicates(b) && |b| <= limit
      && forall i :: 0 <= i < |b| ==> Claimable(items, locked, now)(b[i])
  {
    var p := Claimable(items, locked, now);
    var queue := SortBy(Filter(Ids(nextId), p), Before(items));
    FilterMembers(Ids(nextId), p);
    FilterKeepsDistinct(Ids(nextId), p);
    SortByMembers(Filter(Ids(nextId), p), Before(items));
    SortKeepsDistinct(Filter(Ids(nextId), p), Before(items));
    forall i | 0 <= i < |queue| ensures p(queue[i]) {
      assert queue[i] in queue;
    }
  }

  /** Pending, or waiting with a retry time that has come, and not locked. */
  predicate IsReady(items: Items, locked: set<nat>, now: int, id: nat) {
    && id in items && id !in locked
    && (items[id].status == Pending
        || (items[id].status == RetryWait && items[id].nextRetryAt.Some? && items[id].nextRetryAt.value <= now))
  }

  /** Lower priority number, then detected earlier, then lower id. */
  predicate GoesFirst(items: Items, a: nat, b: nat)
    requires a in items && b in items
  {
    if items[a].priority != items[b].priority then items[a].priority < items[b].priority
    else if items[a].firstDetectedAt != items[b].firstDetectedAt then
      items[a].firstDetectedAt < items[b].firstDetectedAt
    else a < b
  }

  lemma BatchOrderIsTotal(items: Items)
    ensures TotalPreorder(Before(items))
  {
  }

  function ReadyQueue(items: Items, nextId: nat, locked: set<nat>, now: int): seq<nat> {
    SortBy(Filter(Ids(nextId), Claimable(items, locked, now)), Before(items))
  }

  lemma ReadyQueueMembers(items: Items, nextId: nat, locked: set<nat>, now: int, id: nat)
    ensures id in ReadyQueue(items, nextId, locked, now) <==> id < nextId && IsReady(items, locked, now, id)
  {
    var p := Claimable(items, locked, now);
    FilterMembers(Ids(nextId), p);
    SortByMembers(Filter(Ids(nextId), p), Before(items));
    if id < nextId { assert Ids(nextId)[id] == id; }
  }

  lemma ReadyQueueAscends(items: Items, nextId: nat, locked: set<nat>, now: int, i: nat, j: nat)
    requires i < j < |ReadyQueue(items, nextId, locked, now)|
    ensures var q := ReadyQueue(items, nextId, locked, now);
      IsReady(items, locked, now, q[i]) && IsReady(items, locked, now, q[j]) && GoesFirst(items, q[i], q[j])
  {
    var p, q := Claimable(items, locked, now), ReadyQueue(items, nextId, locked, now);
    ReadyQueueMembers(items, nextId, locked, now, q[i]);
    ReadyQueueMembers(items, nextId, locked, now, q[j]);
    FilterKeepsDistinct(Ids(nextId), p);
    SortKeepsDistinct(Filter(Ids(nextId), p), Before(items));
    BatchOrderIsTotal(items);
    SortBySorts(Filter(Ids(nextId), p), Before(items));
    assert Before(items)(q[i], q[j]) && q[i] != q[j];
  }

  /** A batch takes ready items only, in their order, and leaves a ready item only when it is full of earlier ones. */
  lemma BatchTakesTheFirst(items: Items, nextId: nat, locked: set<nat>, now: int, limit: nat)
    requires forall id :: id in items ==> id < nextId
    ensures var b := Batch(items, nextId, locked, now, limit);
      && |b| <= limit
      && (forall i :: 0 <= i < |b| ==> IsReady(items, locked, now, b[i]))
      && (forall i, j :: 0 <= i < j < |b| ==> GoesFirst(items, b[i], b[j]))
      && forall id: nat :: IsReady(items, locked, now, id) && id !in b ==>
        |b| == limit && forall i :: 0 <= i < |b| ==> GoesFirst(items, b[i], id)
  {
    var queue, b := ReadyQueue(items, nextId, locked, now), Batch(items, nextId, locked, now, limit);
    forall i | 0 <= i < |queue| ensures IsReady(items, locked, now, queue[i]) {
      ReadyQueueMembers(items, nextId, locked, now, queue[i]);
    }
    forall i, j | 0 <= i < j < |queue| ensures GoesFirst(items, queue[i], queue[j]) {
      ReadyQueueAscends(items, nextId, locked, now, i, j);
    }
    forall id: nat | IsReady(items, locked, now, id) && id !in b
      ensures |b| == limit && forall i :: 0 <= i < |b| ==> GoesFirst(items, b[i], id)
    {
      ReadyQueueMembers(items, nextId, locked, now, id);
      var k := BeyondPrefix(queue, |b|, id);
    }
  }

  method ClaimBatch(items: Items, nextId: nat, locked: set<nat>, now: int, limit: nat)
    returns (chosen: seq<nat>, writes: Items)
    ensures chosen == Batch(items, nextId, locked, now, limit)
    ensures forall id :: id in writes <==> id in chosen
    ensures forall id :: id in chosen ==>
      id in items && writes[id] == items[id].(status := Processing, lastAttemptAt := Some(now))
  {
    BatchMembers(items, nextId, locked, now, limit);
    chosen := Batch(items, nextId, locked, now, limit);
    writes := map[];
    for i := 0 to |chosen|
      invariant forall id :: id in writes <==> id in chosen[..i]
      invariant forall id :: id in writes ==> id in items && writes[id] == MarkProcessing(items[id], "", now)
    {
      assert Claimable(items, locked, now)(chosen[i]);
      assert chosen[..i + 1] == chosen[..i] + [chosen[i]];
      writes := writes[chosen[i] := MarkProcessing(items[chosen[i]], "", now)];
    }
    assert chosen[..|chosen|] == chosen;
  }

  /** What claim_batch selects is a claim the protocol allows. */
  lemma BatchIsAClaim(s: State<Item>, tx: nat, limit: nat, locked: set<nat>)
    requires tx !in s.open && forall id :: id in locked <==> IsLocked(s, id)
    ensures Enabled(ITEMS, s, Claim(tx, "", Batch(s.rows, s.nextId, locked, s.now, limit), limit))
  {
    BatchMembers(s.rows, s.nextId, locked, s.now, limit);
  }

  /** No BOM item is in two open batches, nor processed twice without being opened again, in any interleaving. */
  lemma BatchesAreExclusive(now: int, actions: seq<Action<Item>>)
    requires CanRun(ITEMS, Start<Item>(now), actions)
    ensures var s := Run(ITEMS, Start<Item>(now), actions);
      && Alternates(s.log)
      && forall tx, ux, id :: tx in s.open && ux in s.open && tx != ux && id in s.open[tx].chosen ==>
        id !in s.open[ux].chosen
  {
    NoRowIsClaimedTwice(ITEMS, now, actions);
  }
}
