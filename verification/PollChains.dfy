/**
 The polling chains of the sync console (apps/web/src/composables/useSyncConsolePage.ts): one timer map, one
 generation counter per source, and callbacks that run in any order.
*/
module PollChains {
  import opened Prelude

  datatype Source = SalesPlan | Bom | ProductionOrders | Research

  datatype JobStatus = IsRunning | IsSuccess | IsError

  /** The closure of a window.setTimeout: a chained poll carries its generation, a first poll does not. */
  datatype Callback = Callback(source: Source, job: int, generation: Option<nat>)

  /** A pollJobStatus call waiting for its reply. */
  datatype Poll = Poll(source: Source, job: int, generation: nat)

  /** The part of syncState a reply writes. */
  datatype View = View(job: int, status: JobStatus)

  /**
   timers and generations are the page's own maps; armed holds the timeouts the browser has yet to run, which
   is not the same: a timeout that has run stays in the timer map.
  */
  datatype Page = Page(
    timers: map<Source, nat>,
    generations: map<Source, nat>,
    armed: map<nat, Callback>,
    polls: map<nat, Poll>,
    view: map<Source, View>,
    nextId: nat)

  function Generation(p: Page, key: Source): nat {
    if key in p.generations then p.generations[key] else 0
  }

  function Cancelled(p: Page, key: Source): Page {
    if key in p.timers then p.(timers := p.timers - {key}, armed := p.armed - {p.timers[key]}) else p
  }

  function Bumped(p: Page, key: Source): Page {
    p.(generations := p.generations[key := Generation(p, key) + 1])
  }

  function Cleared(p: Page, key: Source): Page {
    Bumped(Cancelled(p, key), key)
  }

  /** pollTimers.set(key, window.setTimeout(callback)). */
  function Armed(p: Page, c: Callback): Page {
    p.(timers := p.timers[c.source := p.nextId], armed := p.armed[p.nextId := c], nextId := p.nextId + 1)
  }

  function Viewed(p: Page, key: Source, v: View): Page {
    p.(view := p.view[key := v])
  }

  /** A failed request changes the status and keeps the job shown. */
  function ErrorView(p: Page, poll: Poll): View {
    View(if poll.source in p.view then p.view[poll.source].job else poll.job, IsError)
  }

  /** The timeout runs: a poll of the carried or the current generation goes out. */
  function Fired(p: Page, id: nat): Page
    requires id in p.armed
  {
    var c := p.armed[id];
    p.(armed := p.armed - {id}, nextId := p.nextId + 1,
       polls := p.polls[p.nextId := Poll(c.source, c.job, c.generation.GetOr(Generation(p, c.source)))])
  }

  /** A reply (None is a failed request). A poll of an old generation changes nothing. */
  function Replied(p: Page, id: nat, status: Option<JobStatus>): Page
    requires id in p.polls
  {
    var poll := p.polls[id];
    var q := p.(polls := p.polls - {id});
    if Generation(p, poll.source) != poll.generation then q
    else
      match status
      case Some(IsRunning) =>
        var seen := Viewed(q, poll.source, View(poll.job, IsRunning));
        Armed(Cancelled(seen, poll.source), Callback(poll.source, poll.job, Some(poll.generation)))
      case Some(end) => Cleared(Viewed(q, poll.source, View(poll.job, end)), poll.source)
      case None =>
        var cleared := Cleared(q, poll.source);
        Viewed(cleared, poll.source, ErrorView(cleared, poll))
  }

  /** handleSync once its job exists, and loadActiveSyncJobs for one running job. */
  function Tracked(p: Page, key: Source, job: int): Page {
    Armed(Cleared(Viewed(p, key, View(job, IsRunning)), key), Callback(key, job, None))
  }

  function TrackedAll(p: Page, items: seq<(Option<Source>, int)>): Page {
    if items == [] then p
    else
      var n := |items| - 1;
      var q := TrackedAll(p, items[..n]);
      if items[n].0.None? then q else Tracked(q, items[n].0.value, items[n].1)
  }

  function AllCleared(p: Page): Page {
    Cleared(Cleared(Cleared(Cleared(p, SalesPlan), Bom), ProductionOrders), Research)
  }

  // ---- the composable as it runs ----

  class SyncConsole {
    var timers: map<Source, nat>
    var generations: map<Source, nat>
    var armed: map<nat, Callback>
    var polls: map<nat, Poll>
    var view: map<Source, View>
    var nextId: nat

    constructor ()
      ensures Snapshot() == Page(map[], map[], map[], map[], map[], 1)
    {
      timers, generations, armed, polls, view, nextId := map[], map[], map[], map[], map[], 1;
    }

    function Snapshot(): Page
      reads this
    {
      Page(timers, generations, armed, polls, view, nextId)
    }

    method CancelPollTimer(key: Source)
      modifies this
      ensures Snapshot() == Cancelled(old(Snapshot()), key)
    {
      if key in timers {
        armed := armed - {timers[key]};
        timers := timers - {key};
      }
    }

    method ClearPollTimer(key: Source)
      modifies this
      ensures Snapshot() == Cleared(old(Snapshot()), key)
    {
      CancelPollTimer(key);
      generations := generations[key := (if key in generations then generations[key] else 0) + 1];
    }

    method SetTimeout(c: Callback)
      modifies this
      ensures Snapshot() == Armed(old(Snapshot()), c)
    {
      armed := armed[nextId := c];
      timers := timers[c.source := nextId];
      nextId := nextId + 1;
    }

    method ClearAllPollTimers()
      modifies this
      ensures Snapshot() == AllCleared(old(Snapshot()))
    {
      ClearPollTimer(SalesPlan);
      ClearPollTimer(Bom);
      ClearPollTimer(ProductionOrders);
      ClearPollTimer(Research);
    }

    method OnTimeout(id: nat)
      requires id in armed
      modifies this
      ensures Snapshot() == Fired(old(Snapshot()), id)
    {
      var c := armed[id];
      armed := armed - {id};
      var current := if c.source in generations then generations[c.source] else 0;
      polls := polls[nextId := Poll(c.source, c.job, c.generation.GetOr(current))];
      nextId := nextId + 1;
    }

    method OnReply(id: nat, status: Option<JobStatus>)
      requires id in polls
      modifies this
      ensures Snapshot() == Replied(old(Snapshot()), id, status)
    {
      var poll := polls[id];
      polls := polls - {id};
      var current := if poll.source in generations then generations[poll.source] else 0;
      if current != poll.generation { return; }
      match status {
        case Some(IsRunning) =>
          view := view[poll.source := View(poll.job, IsRunning)];
          CancelPollTimer(poll.source);
          SetTimeout(Callback(poll.source, poll.job, Some(poll.generation)));
        case Some(end) =>
          view := view[poll.source := View(poll.job, end)];
          ClearPollTimer(poll.source);
        case None =>
          ClearPollTimer(poll.source);
          view := view[poll.source := ErrorView(Snapshot(), poll)];
      }
    }

    method Track(key: Source, job: int)
      modifies this
      ensures Snapshot() == Tracked(old(Snapshot()), key, job)
    {
      view := view[key := View(job, IsRunning)];
      ClearPollTimer(key);
      SetTimeout(Callback(key, job, None));
    }

    method LoadActiveSyncJobs(items: seq<(Option<Source>, int)>)
      modifies this
      ensures Snapshot() == TrackedAll(old(Snapshot()), items)
    {
      for i := 0 to |items|
        invariant Snapshot() == TrackedAll(old(Snapshot()), items[..i])
      {
        assert items[..i + 1][..i] == items[..i];
        if items[i].0.None? { continue; }
        Track(items[i].0.value, items[i].1);
      }
      assert items[..|items|] == items;
    }
  }

  // ---- every interleaving ----

  datatype Event =
    | Trigger(source: Source, job: int)
    | LoadActive(items: seq<(Option<Source>, int)>)
    | Timeout(id: nat)
    | Reply(poll: nat, status: Option<JobStatus>)
    | Unmount

  predicate CanHappen(p: Page, e: Event) {
    match e
    case Timeout(id) => id in p.armed
    case Reply(poll, _) => poll in p.polls
    case _ => true
  }

  function Happen(p: Page, e: Event): Page
    requires CanHappen(p, e)
  {
    match e
    case Trigger(key, job) => Tracked(p, key, job)
    case LoadActive(items) => TrackedAll(p, items)
    case Timeout(id) => Fired(p, id)
    case Reply(poll, status) => Replied(p, poll, status)
    case Unmount => AllCleared(p)
  }

  ghost predicate IsCurrent(p: Page, id: nat) {
    id in p.polls && p.polls[id].generation == Generation(p, p.polls[id].source)
  }

  /** For one source, at most one of an armed timeout and a poll of the current generation exists. */
  ghost predicate OneChain(p: Page, key: Source) {
    && (forall a, b :: a in p.armed && b in p.armed && p.armed[a].source == key && p.armed[b].source == key ==> a == b)
    && (forall x, y :: IsCurrent(p, x) && IsCurrent(p, y) && p.polls[x].source == key && p.polls[y].source == key ==>
         x == y)
    && (forall a, x :: a in p.armed && p.armed[a].source == key && IsCurrent(p, x) ==> p.polls[x].source != key)
  }

  /** The timer map knows every armed timeout, so a source has at most one. */
  ghost predicate Registered(p: Page) {
    && (forall id :: id in p.armed ==>
         id < p.nextId && p.armed[id].source in p.timers && p.timers[p.armed[id].source] == id)
    && (forall key :: key in p.timers ==> p.timers[key] < p.nextId)
  }

  /** A chained timeout is of the current generation; a poll is of the current or an older one. */
  ghost predicate Dated(p: Page) {
    && (forall id :: id in p.armed ==>
         p.armed[id].generation.GetOr(Generation(p, p.armed[id].source)) == Generation(p, p.armed[id].source))
    && (forall id :: id in p.polls ==> id < p.nextId && p.polls[id].generation <= Generation(p, p.polls[id].source))
  }

  /** A poll of the current generation has no rival: no other such poll and no armed timeout of its source. */
  ghost predicate NoRivals(p: Page) {
    && (forall x, y :: IsCurrent(p, x) && IsCurrent(p, y) && p.polls[x].source == p.polls[y].source ==> x == y)
    && (forall a, x :: a in p.armed && IsCurrent(p, x) ==> p.armed[a].source != p.polls[x].source)
  }

  ghost predicate Inv(p: Page) {
    Registered(p) && Dated(p) && NoRivals(p)
  }

  /** No timeout is armed for the source and no poll of its current generation is out. */
  ghost predicate Idle(p: Page, key: Source) {
    && (forall id :: id in p.armed ==> p.armed[id].source != key)
    && (forall id :: IsCurrent(p, id) ==> p.polls[id].source != key)
  }

  /** Pages that differ in timers and armed timeouts only have the same current polls. */
  lemma SameCurrentPolls(p: Page, q: Page)
    requires p.polls == q.polls && p.generations == q.generations
    ensures forall id :: IsCurrent(p, id) <==> IsCurrent(q, id)
  {
  }

  lemma CancelDisarms(p: Page, key: Source)
    requires Registered(p)
    ensures var q := Cancelled(p, key);
      && (forall id :: id in q.armed ==> id in p.armed && q.armed[id] == p.armed[id] && q.armed[id].source != key)
      && Registered(q)
  {
    var q := Cancelled(p, key);
    forall id | id in q.armed ensures id in p.armed && q.armed[id] == p.armed[id] && q.armed[id].source != key {
      assert p.timers[p.armed[id].source] == id;
    }
    forall id | id in q.armed ensures q.armed[id].source in q.timers && q.timers[q.armed[id].source] == id {
      assert p.timers[p.armed[id].source] == id;
    }
  }

  lemma CancelKeepsInv(p: Page, key: Source)
    requires Inv(p)
    ensures var q := Cancelled(p, key);
      Inv(q) && (forall id :: id in q.armed ==> q.armed[id].source != key) && q.generations == p.generations
        && q.polls == p.polls
  {
    var q := Cancelled(p, key);
    SameCurrentPolls(p, q);
    CancelDisarms(p, key);
    assert Dated(q);
  }

  lemma BumpOutdatesPolls(p: Page, key: Source)
    requires Dated(p)
    ensures forall id :: IsCurrent(Bumped(p, key), id) ==> IsCurrent(p, id) && p.polls[id].source != key
  {
    var q := Bumped(p, key);
    forall id | IsCurrent(q, id) ensures IsCurrent(p, id) && p.polls[id].source != key {
      assert p.polls[id].generation <= Generation(p, p.polls[id].source);
    }
  }

  lemma BumpKeepsInv(p: Page, key: Source)
    requires Inv(p) && forall id :: id in p.armed ==> p.armed[id].source != key
    ensures Inv(Bumped(p, key)) && Idle(Bumped(p, key), key)
  {
    BumpOutdatesPolls(p, key);
    assert Dated(Bumped(p, key));
  }

  /** No generation is lowered. */
  ghost predicate Rises(p: Page, q: Page) {
    forall k :: Generation(p, k) <= Generation(q, k)
  }

  lemma ClearRaises(p: Page, key: Source)
    ensures Rises(p, Cleared(p, key))
  {
  }

  lemma ClearKeepsInv(p: Page, key: Source)
    requires Inv(p)
    ensures Inv(Cleared(p, key)) && Idle(Cleared(p, key), key)
  {
    CancelKeepsInv(p, key);
    BumpKeepsInv(Cancelled(p, key), key);
  }

  lemma ArmKeepsRegistered(p: Page, c: Callback)
    requires Registered(p) && forall id :: id in p.armed ==> p.armed[id].source != c.source
    ensures Registered(Armed(p, c))
  {
    var q := Armed(p, c);
    forall id | id in q.armed
      ensures id < q.nextId && q.armed[id].source in q.timers && q.timers[q.armed[id].source] == id
    {
      if id in p.armed && id != p.nextId { assert p.armed[id].source != c.source; }
    }
  }

  lemma ArmKeepsNoRivals(p: Page, c: Callback)
    requires NoRivals(p) && Idle(p, c.source)
    ensures NoRivals(Armed(p, c))
  {
    var q := Armed(p, c);
    SameCurrentPolls(p, q);
    forall a, x | a in q.armed && IsCurrent(q, x) ensures q.armed[a].source != q.polls[x].source {
      if a in p.armed && a != p.nextId { assert q.armed[a] == p.armed[a]; }
    }
  }

  lemma ArmKeepsInv(p: Page, c: Callback)
    requires Inv(p) && Idle(p, c.source) && c.generation.GetOr(Generation(p, c.source)) == Generation(p, c.source)
    ensures Inv(Armed(p, c))
  {
    ArmKeepsRegistered(p, c);
    ArmKeepsNoRivals(p, c);
    assert Dated(Armed(p, c));
  }

  lemma TrackKeepsInv(p: Page, key: Source, job: int)
    requires Inv(p)
    ensures Inv(Tracked(p, key, job)) && Rises(p, Tracked(p, key, job))
  {
    var v := Viewed(p, key, View(job, IsRunning));
    ViewKeepsInv(p, key, View(job, IsRunning));
    ClearKeepsInv(v, key);
    ClearRaises(v, key);
    ArmKeepsInv(Cleared(v, key), Callback(key, job, None));
  }

  lemma ViewKeepsInv(p: Page, key: Source, v: View)
    requires Inv(p)
    ensures Inv(Viewed(p, key, v)) && forall k :: Idle(p, k) ==> Idle(Viewed(p, key, v), k)
  {
    SameCurrentPolls(p, Viewed(p, key, v));
  }

  lemma {:induction false} TrackAllKeepsInv(p: Page, items: seq<(Option<Source>, int)>)
    requires Inv(p)
    ensures Inv(TrackedAll(p, items)) && Rises(p, TrackedAll(p, items))
  {
    if items != [] {
      var n := |items| - 1;
      TrackAllKeepsInv(p, items[..n]);
      if items[n].0.Some? { TrackKeepsInv(TrackedAll(p, items[..n]), items[n].0.value, items[n].1); }
    }
  }

  lemma FireKeepsInv(p: Page, id: nat)
    requires Inv(p) && id in p.armed
    ensures Inv(Fired(p, id))
  {
    var q := Fired(p, id);
    forall x | IsCurrent(q, x) ensures IsCurrent(p, x) || (x == p.nextId && q.polls[x].source == p.armed[id].source) {
    }
  }

  lemma DropPollKeepsInv(p: Page, id: nat)
    requires Inv(p) && id in p.polls
    ensures var q := p.(polls := p.polls - {id});
      && Inv(q) && (IsCurrent(p, id) ==> Idle(q, p.polls[id].source))
  {
    var q := p.(polls := p.polls - {id});
    forall x | IsCurrent(q, x) ensures IsCurrent(p, x) && x != id {
    }
  }

  lemma RunningReplyKeepsInv(q: Page, poll: Poll)
    requires Inv(q) && Idle(q, poll.source) && poll.generation == Generation(q, poll.source)
    ensures var v := Viewed(q, poll.source, View(poll.job, IsRunning));
      var u := Armed(Cancelled(v, poll.source), Callback(poll.source, poll.job, Some(poll.generation)));
      Inv(u) && u.generations == q.generations
  {
    var v := Viewed(q, poll.source, View(poll.job, IsRunning));
    ViewKeepsInv(q, poll.source, View(poll.job, IsRunning));
    CancelKeepsInv(v, poll.source);
    SameCurrentPolls(v, Cancelled(v, poll.source));
    ArmKeepsInv(Cancelled(v, poll.source), Callback(poll.source, poll.job, Some(poll.generation)));
  }

  lemma EndReplyKeepsInv(q: Page, key: Source, shown: View)
    requires Inv(q)
    ensures var u := Cleared(Viewed(q, key, shown), key); Inv(u) && Rises(q, u)
  {
    ViewKeepsInv(q, key, shown);
    ClearKeepsInv(Viewed(q, key, shown), key);
    ClearRaises(Viewed(q, key, shown), key);
  }

  lemma FailedReplyKeepsInv(q: Page, key: Source, shown: View)
    requires Inv(q)
    ensures var u := Viewed(Cleared(q, key), key, shown); Inv(u) && Rises(q, u)
  {
    ClearKeepsInv(q, key);
    ClearRaises(q, key);
    ViewKeepsInv(Cleared(q, key), key, shown);
  }

  lemma ReplyKeepsInv(p: Page, id: nat, status: Option<JobStatus>)
    requires Inv(p) && id in p.polls
    ensures Inv(Replied(p, id, status)) && Rises(p, Replied(p, id, status))
  {
    var poll, q := p.polls[id], p.(polls := p.polls - {id});
    DropPollKeepsInv(p, id);
    if IsCurrent(p, id) {
      match status
      case Some(IsRunning) => RunningReplyKeepsInv(q, poll);
      case Some(end) => EndReplyKeepsInv(q, poll.source, View(poll.job, end));
      case None => FailedReplyKeepsInv(q, poll.source, ErrorView(Cleared(q, poll.source), poll));
    }
  }

  lemma UnmountKeepsInv(p: Page)
    requires Inv(p)
    ensures Inv(AllCleared(p)) && Rises(p, AllCleared(p))
  {
    var a := Cleared(p, SalesPlan);
    var b := Cleared(a, Bom);
    var c := Cleared(b, ProductionOrders);
    ClearKeepsInv(p, SalesPlan);
    ClearKeepsInv(a, Bom);
    ClearKeepsInv(b, ProductionOrders);
    ClearKeepsInv(c, Research);
    ClearRaises(p, SalesPlan);
    ClearRaises(a, Bom);
    ClearRaises(b, ProductionOrders);
    ClearRaises(c, Research);
  }

  lemma HappenKeepsInv(p: Page, e: Event)
    requires Inv(p) && CanHappen(p, e)
    ensures Inv(Happen(p, e)) && Rises(p, Happen(p, e))
  {
    match e
    case Trigger(key, job) => TrackKeepsInv(p, key, job);
    case LoadActive(items) => TrackAllKeepsInv(p, items);
    case Timeout(id) => FireKeepsInv(p, id);
    case Reply(poll, status) => ReplyKeepsInv(p, poll, status);
    case Unmount => UnmountKeepsInv(p);
  }

  ghost predicate CanUnfold(p: Page, events: seq<Event>)
    decreases |events|
  {
    events == [] || (CanHappen(p, events[0]) && CanUnfold(Happen(p, events[0]), events[1..]))
  }

  function Unfold(p: Page, events: seq<Event>): Page
    requires CanUnfold(p, events)
    decreases |events|
  {
    if events == [] then p else Unfold(Happen(p, events[0]), events[1..])
  }

  const EMPTY_PAGE := Page(map[], map[], map[], map[], map[], 1)

  lemma {:induction false} UnfoldKeepsInv(p: Page, events: seq<Event>)
    requires Inv(p) && CanUnfold(p, events)
    ensures Inv(Unfold(p, events)) && Rises(p, Unfold(p, events))
    decreases |events|
  {
    if events != [] {
      HappenKeepsInv(p, events[0]);
      UnfoldKeepsInv(Happen(p, events[0]), events[1..]);
    }
  }

  /** In every interleaving a source has at most one chain: one armed timeout or one poll of the current generation. */
  lemma AtMostOneChainPerSource(events: seq<Event>, key: Source)
    requires CanUnfold(EMPTY_PAGE, events)
    ensures OneChain(Unfold(EMPTY_PAGE, events), key)
  {
    UnfoldKeepsInv(EMPTY_PAGE, events);
  }

  /** A poll of an older generation stays out of date whatever happens next. */
  lemma {:induction false} SupersededForGood(p: Page, events: seq<Event>, id: nat)
    requires Inv(p) && CanUnfold(p, events) && id in p.polls && !IsCurrent(p, id) && id in Unfold(p, events).polls
    ensures !IsCurrent(Unfold(p, events), id) && Unfold(p, events).polls[id] == p.polls[id]
    decreases |events|
  {
    if events != [] {
      var q := Happen(p, events[0]);
      HappenKeepsInv(p, events[0]);
      PollsAreNotReplaced(p, events[0]);
      if id in q.polls {
        assert q.polls[id] == p.polls[id];
        SupersededForGood(q, events[1..], id);
      } else {
        GoneForGood(q, events[1..], id);
      }
    }
  }

  lemma {:induction false} TrackAllKeepsPolls(p: Page, items: seq<(Option<Source>, int)>)
    ensures TrackedAll(p, items).polls == p.polls && TrackedAll(p, items).nextId >= p.nextId
  {
    if items != [] { TrackAllKeepsPolls(p, items[..|items| - 1]); }
  }

  /** Old polls are kept or dropped, never changed. */
  ghost predicate KeepsOldPolls(p: Page, q: Page) {
    q.nextId >= p.nextId && forall id :: id in q.polls && id < p.nextId ==> id in p.polls && q.polls[id] == p.polls[id]
  }

  lemma ClearKeepsPolls(p: Page, key: Source)
    ensures Cleared(p, key).polls == p.polls && Cleared(p, key).nextId == p.nextId
  {
  }

  lemma ReplyDropsItsPoll(p: Page, id: nat, status: Option<JobStatus>)
    requires id in p.polls
    ensures Replied(p, id, status).polls == p.polls - {id} && Replied(p, id, status).nextId >= p.nextId
  {
    var poll, q := p.polls[id], p.(polls := p.polls - {id});
    match status
    case Some(IsRunning) =>
    case Some(end) => ClearKeepsPolls(Viewed(q, poll.source, View(poll.job, end)), poll.source);
    case None => ClearKeepsPolls(q, poll.source);
  }

  lemma ReplyKeepsOldPolls(p: Page, id: nat, status: Option<JobStatus>)
    requires id in p.polls
    ensures KeepsOldPolls(p, Replied(p, id, status))
  {
    ReplyDropsItsPoll(p, id, status);
  }

  lemma UnmountKeepsPolls(p: Page)
    ensures AllCleared(p).polls == p.polls && AllCleared(p).nextId == p.nextId
  {
    ClearKeepsPolls(p, SalesPlan);
    var a := Cleared(p, SalesPlan);
    ClearKeepsPolls(a, Bom);
    var b := Cleared(a, Bom);
    ClearKeepsPolls(b, ProductionOrders);
    ClearKeepsPolls(Cleared(b, ProductionOrders), Research);
  }

  lemma PollsAreNotReplaced(p: Page, e: Event)
    requires CanHappen(p, e)
    ensures KeepsOldPolls(p, Happen(p, e))
  {
    match e
    case Trigger(key, job) => ClearKeepsPolls(Viewed(p, key, View(job, IsRunning)), key);
    case LoadActive(items) => TrackAllKeepsPolls(p, items);
    case Timeout(id) =>
    case Reply(id, status) => ReplyKeepsOldPolls(p, id, status);
    case Unmount => UnmountKeepsPolls(p);
  }

  lemma {:induction false} GoneForGood(p: Page, events: seq<Event>, id: nat)
    requires CanUnfold(p, events) && id !in p.polls && id < p.nextId
    ensures id !in Unfold(p, events).polls
    decreases |events|
  {
    if events != [] {
      PollsAreNotReplaced(p, events[0]);
      GoneForGood(Happen(p, events[0]), events[1..], id);
    }
  }

  /**
   A superseded poll never writes state and never re-arms: whenever its reply comes, now or after any further
   events, the page is as before but for the poll being gone.
  */
  lemma SupersededPollIsSilent(p: Page, events: seq<Event>, id: nat, status: Option<JobStatus>)
    requires Inv(p) && CanUnfold(p, events) && id in p.polls && !IsCurrent(p, id) && id in Unfold(p, events).polls
    ensures var q := Unfold(p, events); Replied(q, id, status) == q.(polls := q.polls - {id})
  {
    SupersededForGood(p, events, id);
  }

  lemma TriggerSupersedes(p: Page, key: Source, job: int, id: nat)
    requires Inv(p) && id in p.polls && p.polls[id].source == key
    ensures id in Tracked(p, key, job).polls && !IsCurrent(Tracked(p, key, job), id)
  {
  }

  /** Once a source is triggered, every poll of it that was out is silent, whenever its reply comes. */
  lemma TriggerSilencesOldPolls(p: Page, key: Source, job: int, events: seq<Event>, id: nat, status: Option<JobStatus>)
    requires Inv(p) && id in p.polls && p.polls[id].source == key
    requires CanUnfold(Happen(p, Trigger(key, job)), events) && id in Unfold(Happen(p, Trigger(key, job)), events).polls
    ensures var q := Unfold(Happen(p, Trigger(key, job)), events); Replied(q, id, status) == q.(polls := q.polls - {id})
  {
    HappenKeepsInv(p, Trigger(key, job));
    TriggerSupersedes(p, key, job, id);
    SupersededPollIsSilent(Happen(p, Trigger(key, job)), events, id, status);
  }

  // ---- a running source is polled ----

  /** The console shows a running job for the source. */
  predicate ShowsRunning(p: Page, key: Source) {
    key in p.view && p.view[key].status == IsRunning
  }

  /** A timeout for this job of the source is armed, or a poll of the current generation for it is out. */
  ghost predicate Follows(p: Page, key: Source, job: int) {
    || (exists id :: id in p.armed && p.armed[id].source == key && p.armed[id].job == job)
    || (exists id :: IsCurrent(p, id) && p.polls[id].source == key && p.polls[id].job == job)
  }

  /** A source that shows a running job is following it, any other is idle. */
  ghost predicate IsLive(p: Page, key: Source) {
    if ShowsRunning(p, key) then Follows(p, key, p.view[key].job) else Idle(p, key)
  }

  /** A registered timeout that is still armed belongs to the source it is registered for. */
  ghost predicate Owned(p: Page) {
    forall key :: key in p.timers && p.timers[key] in p.armed ==> p.armed[p.timers[key]].source == key
  }

  ghost predicate AllLive(p: Page) {
    Inv(p) && Owned(p) && forall key :: IsLive(p, key)
  }

  /** The armed timeouts of a source. */
  ghost function ArmedFor(p: Page, key: Source): map<nat, Callback> {
    map id | id in p.armed && p.armed[id].source == key :: p.armed[id]
  }

  /** Its polls of the current generation. */
  ghost function PollsFor(p: Page, key: Source): map<nat, Poll> {
    map id | id in p.polls && p.polls[id].source == key && p.polls[id].generation == Generation(p, key) :: p.polls[id]
  }

  /** The two pages have the same chain and view for the source. */
  ghost predicate SameFor(p: Page, q: Page, key: Source) {
    && ArmedFor(p, key) == ArmedFor(q, key) && PollsFor(p, key) == PollsFor(q, key)
    && (key in p.view <==> key in q.view) && (key in p.view ==> p.view[key] == q.view[key])
  }

  lemma ArmedOfSource(p: Page, key: Source)
    ensures forall id :: id in p.armed && p.armed[id].source == key <==> id in ArmedFor(p, key)
    ensures ArmedFor(p, key) == map[] <==> forall id :: id in p.armed ==> p.armed[id].source != key
  {
    if ArmedFor(p, key) != map[] { var id :| id in ArmedFor(p, key); }
  }

  lemma PollsOfSource(p: Page, key: Source)
    ensures forall id :: IsCurrent(p, id) && p.polls[id].source == key <==> id in PollsFor(p, key)
    ensures PollsFor(p, key) == map[] <==> forall id :: IsCurrent(p, id) ==> p.polls[id].source != key
  {
    if PollsFor(p, key) != map[] { var id :| id in PollsFor(p, key); }
  }

  lemma ChainOfSource(p: Page, key: Source)
    ensures Idle(p, key) <==> ArmedFor(p, key) == map[] && PollsFor(p, key) == map[]
    ensures forall job :: Follows(p, key, job) <==>
      || (exists id :: id in ArmedFor(p, key) && ArmedFor(p, key)[id].job == job)
      || (exists id :: id in PollsFor(p, key) && PollsFor(p, key)[id].job == job)
  {
    ArmedOfSource(p, key);
    PollsOfSource(p, key);
  }

  lemma SameStaysLive(p: Page, q: Page, key: Source)
    requires SameFor(p, q, key) && IsLive(p, key)
    ensures IsLive(q, key)
  {
    ChainOfSource(p, key);
    ChainOfSource(q, key);
  }

  lemma CancelTouchesOneSource(p: Page, key: Source, other: Source)
    requires Owned(p) && other != key
    ensures Owned(Cancelled(p, key)) && SameFor(p, Cancelled(p, key), other)
  {
    var q := Cancelled(p, key);
    forall id | id in ArmedFor(p, other) ensures id in ArmedFor(q, other) {
      if key in p.timers && p.timers[key] == id { assert id in p.armed; }
    }
    assert ArmedFor(p, other) == ArmedFor(q, other);
  }

  lemma ClearTouchesOneSource(p: Page, key: Source, other: Source)
    requires Owned(p) && other != key
    ensures Owned(Cleared(p, key)) && SameFor(p, Cleared(p, key), other)
  {
    CancelTouchesOneSource(p, key, other);
    var c := Cancelled(p, key);
    assert Generation(Bumped(c, key), other) == Generation(c, other);
    assert PollsFor(Bumped(c, key), other) == PollsFor(c, other);
  }

  lemma ArmKeepsOwned(p: Page, c: Callback)
    requires Registered(p) && Owned(p)
    ensures Owned(Armed(p, c))
  {
    var q := Armed(p, c);
    forall key | key in q.timers && q.timers[key] in q.armed ensures q.armed[q.timers[key]].source == key {
      if key != c.source { assert q.timers[key] == p.timers[key] < p.nextId; }
    }
  }

  lemma ArmKeepsArmed(p: Page, c: Callback, other: Source)
    requires other != c.source && p.nextId !in p.armed
    ensures ArmedFor(Armed(p, c), other) == ArmedFor(p, other)
  {
  }

  lemma ArmTouchesOneSource(p: Page, c: Callback, other: Source)
    requires Registered(p) && Owned(p) && other != c.source
    ensures Owned(Armed(p, c)) && SameFor(p, Armed(p, c), other)
  {
    assert p.nextId !in p.armed;
    ArmKeepsOwned(p, c);
    ArmKeepsArmed(p, c, other);
    assert Generation(Armed(p, c), other) == Generation(p, other);
  }

  lemma ViewTouchesOneSource(p: Page, key: Source, v: View, other: Source)
    requires other != key
    ensures SameFor(p, Viewed(p, key, v), other) && (Owned(p) ==> Owned(Viewed(p, key, v)))
  {
    assert Generation(Viewed(p, key, v), other) == Generation(p, other);
  }

  lemma TrackKeepsOthers(p: Page, key: Source, job: int, other: Source)
    requires Inv(p) && Owned(p) && other != key
    ensures Owned(Tracked(p, key, job)) && SameFor(p, Tracked(p, key, job), other)
  {
    var v, c := Viewed(p, key, View(job, IsRunning)), Callback(key, job, None);
    ViewKeepsInv(p, key, View(job, IsRunning));
    ViewTouchesOneSource(p, key, View(job, IsRunning), other);
    ClearKeepsInv(v, key);
    ClearTouchesOneSource(v, key, other);
    ArmTouchesOneSource(Cleared(v, key), c, other);
  }

  lemma SomeOtherSource(key: Source) returns (other: Source)
    ensures other != key
  {
    other := if key == Bom then Research else Bom;
  }

  lemma TrackedIsFollowed(p: Page, key: Source, job: int)
    ensures var q := Tracked(p, key, job); ShowsRunning(q, key) && q.view[key].job == job && IsLive(q, key)
  {
    var q := Tracked(p, key, job);
    assert q.armed[q.nextId - 1] == Callback(key, job, None);
  }

  lemma TrackIsLive(p: Page, key: Source, job: int)
    requires AllLive(p)
    ensures var q := Tracked(p, key, job);
      AllLive(q) && ShowsRunning(q, key) && q.view[key].job == job
  {
    var q := Tracked(p, key, job);
    TrackKeepsInv(p, key, job);
    TrackedIsFollowed(p, key, job);
    var other := SomeOtherSource(key);
    TrackKeepsOthers(p, key, job, other);
    forall k | k != key ensures IsLive(q, k) {
      TrackKeepsOthers(p, key, job, k);
      SameStaysLive(p, q, k);
    }
  }

  lemma {:induction false} TrackAllIsLive(p: Page, items: seq<(Option<Source>, int)>)
    requires AllLive(p)
    ensures AllLive(TrackedAll(p, items))
  {
    if items != [] {
      var n := |items| - 1;
      TrackAllIsLive(p, items[..n]);
      if items[n].0.Some? { TrackIsLive(TrackedAll(p, items[..n]), items[n].0.value, items[n].1); }
    }
  }

  /** Loading the running jobs shows the last one of each source and leaves sources without one as they were. */
  lemma {:induction false} LoadShowsTheLastJob(p: Page, items: seq<(Option<Source>, int)>, i: nat)
    requires AllLive(p) && i < |items| && items[i].0.Some?
    requires forall j :: i < j < |items| ==> items[j].0 != items[i].0
    ensures var q, key := TrackedAll(p, items), items[i].0.value;
      ShowsRunning(q, key) && q.view[key].job == items[i].1
  {
    var n := |items| - 1;
    var before := TrackedAll(p, items[..n]);
    TrackAllIsLive(p, items[..n]);
    if i == n {
      TrackIsLive(before, items[i].0.value, items[i].1);
    } else {
      LoadShowsTheLastJob(p, items[..n], i);
      if items[n].0.Some? { TrackKeepsOthers(before, items[n].0.value, items[n].1, items[i].0.value); }
    }
  }

  lemma {:induction false} LoadKeepsOthers(p: Page, items: seq<(Option<Source>, int)>, other: Source)
    requires AllLive(p) && forall i :: 0 <= i < |items| ==> items[i].0 != Some(other)
    ensures SameFor(p, TrackedAll(p, items), other)
  {
    if items != [] {
      var n := |items| - 1;
      TrackAllIsLive(p, items[..n]);
      LoadKeepsOthers(p, items[..n], other);
      if items[n].0.Some? { TrackKeepsOthers(TrackedAll(p, items[..n]), items[n].0.value, items[n].1, other); }
    }
  }

  /** The timeout of a source that runs hands its job on to a poll of the current generation. */
  lemma FireIsLive(p: Page, id: nat)
    requires AllLive(p) && id in p.armed
    ensures AllLive(Fired(p, id))
  {
    var q, c := Fired(p, id), p.armed[id];
    FireKeepsInv(p, id);
    assert IsCurrent(q, p.nextId) && q.polls[p.nextId].source == c.source && q.polls[p.nextId].job == c.job;
    forall k ensures IsLive(q, k) {
      assert IsLive(p, k);
      if k == c.source {
        FollowedJobIsArmed(p, id);
      } else {
        FireKeepsOthers(p, id, k);
        SameStaysLive(p, q, k);
      }
    }
  }

  lemma FollowedJobIsArmed(p: Page, id: nat)
    requires AllLive(p) && id in p.armed
    ensures ShowsRunning(p, p.armed[id].source) && p.view[p.armed[id].source].job == p.armed[id].job
  {
    assert IsLive(p, p.armed[id].source);
  }

  lemma FireKeepsArmed(p: Page, id: nat, other: Source)
    requires id in p.armed && p.armed[id].source != other
    ensures ArmedFor(Fired(p, id), other) == ArmedFor(p, other)
  {
  }

  lemma FireKeepsPolls(p: Page, id: nat, other: Source)
    requires id in p.armed && p.armed[id].source != other && p.nextId !in p.polls
    ensures PollsFor(Fired(p, id), other) == PollsFor(p, other)
  {
    assert Generation(Fired(p, id), other) == Generation(p, other);
  }

  lemma FireKeepsOthers(p: Page, id: nat, other: Source)
    requires Dated(p) && id in p.armed && p.armed[id].source != other
    ensures SameFor(p, Fired(p, id), other)
  {
    assert p.nextId !in p.polls;
    FireKeepsArmed(p, id, other);
    FireKeepsPolls(p, id, other);
  }

  lemma DropTouchesOneSource(p: Page, id: nat, other: Source)
    requires id in p.polls && (IsCurrent(p, id) ==> p.polls[id].source != other)
    ensures SameFor(p, p.(polls := p.polls - {id}), other)
  {
    var q := p.(polls := p.polls - {id});
    assert Generation(q, other) == Generation(p, other);
    assert PollsFor(q, other) == PollsFor(p, other);
  }

  lemma FollowedJobIsPolled(p: Page, id: nat)
    requires AllLive(p) && IsCurrent(p, id)
    ensures ShowsRunning(p, p.polls[id].source) && p.view[p.polls[id].source].job == p.polls[id].job
  {
    assert IsLive(p, p.polls[id].source);
  }

  lemma RunningReplyKeepsOthers(q: Page, poll: Poll, other: Source)
    requires Inv(q) && Owned(q) && other != poll.source
    ensures var v := Viewed(q, poll.source, View(poll.job, IsRunning));
      var u := Armed(Cancelled(v, poll.source), Callback(poll.source, poll.job, Some(poll.generation)));
      Owned(u) && SameFor(q, u, other)
  {
    var v := Viewed(q, poll.source, View(poll.job, IsRunning));
    var c := Callback(poll.source, poll.job, Some(poll.generation));
    ViewKeepsInv(q, poll.source, View(poll.job, IsRunning));
    ViewTouchesOneSource(q, poll.source, View(poll.job, IsRunning), other);
    CancelKeepsInv(v, poll.source);
    CancelTouchesOneSource(v, poll.source, other);
    ArmTouchesOneSource(Cancelled(v, poll.source), c, other);
  }

  lemma EndReplyKeepsOthers(q: Page, key: Source, shown: View, other: Source)
    requires Inv(q) && Owned(q) && other != key
    ensures var u := Cleared(Viewed(q, key, shown), key); Owned(u) && SameFor(q, u, other)
    ensures var w := Viewed(Cleared(q, key), key, shown); Owned(w) && SameFor(q, w, other)
  {
    ViewKeepsInv(q, key, shown);
    ViewTouchesOneSource(q, key, shown, other);
    ClearTouchesOneSource(Viewed(q, key, shown), key, other);
    ClearTouchesOneSource(q, key, other);
    ViewTouchesOneSource(Cleared(q, key), key, shown, other);
  }

  lemma CurrentReplyKeepsOthers(q: Page, poll: Poll, status: Option<JobStatus>, other: Source)
    requires Inv(q) && Owned(q) && other != poll.source
    ensures var u :=
      match status
      case Some(IsRunning) =>
        Armed(Cancelled(Viewed(q, poll.source, View(poll.job, IsRunning)), poll.source),
              Callback(poll.source, poll.job, Some(poll.generation)))
      case Some(end) => Cleared(Viewed(q, poll.source, View(poll.job, end)), poll.source)
      case None => Viewed(Cleared(q, poll.source), poll.source, ErrorView(Cleared(q, poll.source), poll));
      Owned(u) && SameFor(q, u, other)
  {
    match status
    case Some(IsRunning) => RunningReplyKeepsOthers(q, poll, other);
    case Some(end) => EndReplyKeepsOthers(q, poll.source, View(poll.job, end), other);
    case None => EndReplyKeepsOthers(q, poll.source, ErrorView(Cleared(q, poll.source), poll), other);
  }

  lemma ReplyKeepsOthers(p: Page, id: nat, status: Option<JobStatus>, other: Source)
    requires Inv(p) && Owned(p) && id in p.polls && (IsCurrent(p, id) ==> p.polls[id].source != other)
    ensures Owned(Replied(p, id, status)) && SameFor(p, Replied(p, id, status), other)
  {
    var q := p.(polls := p.polls - {id});
    DropPollKeepsInv(p, id);
    DropTouchesOneSource(p, id, other);
    if IsCurrent(p, id) { CurrentReplyKeepsOthers(q, p.polls[id], status, other); }
  }

  /** A current poll's reply is shown; a running job stays followed and any other end leaves the source idle. */
  lemma CurrentReplyIsShown(p: Page, id: nat, status: Option<JobStatus>)
    requires AllLive(p) && IsCurrent(p, id)
    ensures var q, key := Replied(p, id, status), p.polls[id].source;
      && key in q.view && q.view[key] == View(p.polls[id].job, status.GetOr(IsError))
      && IsLive(q, key)
  {
    var poll, q := p.polls[id], p.(polls := p.polls - {id});
    var u := Replied(p, id, status);
    FollowedJobIsPolled(p, id);
    DropPollKeepsInv(p, id);
    match status
    case Some(IsRunning) => assert u.armed[u.nextId - 1] == Callback(poll.source, poll.job, Some(poll.generation));
    case Some(end) =>
      ViewKeepsInv(q, poll.source, View(poll.job, end));
      ClearKeepsInv(Viewed(q, poll.source, View(poll.job, end)), poll.source);
    case None =>
      ClearKeepsInv(q, poll.source);
      ViewKeepsInv(Cleared(q, poll.source), poll.source, ErrorView(Cleared(q, poll.source), poll));
  }

  /**
   A reply that ends a chain forgets its timeout and begins a new generation, one that continues it keeps the
   generation and hands it to the next timeout; a trigger begins a new generation whose timeout carries none.
  */
  lemma GenerationsAreHandedOn(p: Page, id: nat, status: Option<JobStatus>, key: Source, job: int)
    requires IsCurrent(p, id) && p.polls[id].source == key
    ensures var q := Replied(p, id, status);
      if status == Some(IsRunning) then
        && Generation(q, key) == Generation(p, key) && key in q.timers && q.timers[key] in q.armed
        && q.armed[q.timers[key]] == Callback(key, p.polls[id].job, Some(Generation(p, key)))
      else Generation(q, key) == Generation(p, key) + 1 && key !in q.timers
    ensures var q := Tracked(p, key, job);
      && Generation(q, key) == Generation(p, key) + 1 && key in q.timers && q.timers[key] in q.armed
      && q.armed[q.timers[key]] == Callback(key, job, None)
  {
  }

  lemma ReplyIsLive(p: Page, id: nat, status: Option<JobStatus>)
    requires AllLive(p) && id in p.polls
    ensures AllLive(Replied(p, id, status))
  {
    var q := Replied(p, id, status);
    ReplyKeepsInv(p, id, status);
    var other := SomeOtherSource(p.polls[id].source);
    ReplyKeepsOthers(p, id, status, other);
    forall k ensures IsLive(q, k) {
      if IsCurrent(p, id) && k == p.polls[id].source {
        CurrentReplyIsShown(p, id, status);
      } else {
        ReplyKeepsOthers(p, id, status, k);
        SameStaysLive(p, q, k);
      }
    }
  }

  lemma HappenIsLive(p: Page, e: Event)
    requires AllLive(p) && CanHappen(p, e) && !e.Unmount?
    ensures AllLive(Happen(p, e))
  {
    match e
    case Trigger(key, job) => TrackIsLive(p, key, job);
    case LoadActive(items) => TrackAllIsLive(p, items);
    case Timeout(id) => FireIsLive(p, id);
    case Reply(poll, status) => ReplyIsLive(p, poll, status);
  }

  lemma {:induction false} UnfoldIsLive(p: Page, events: seq<Event>)
    requires AllLive(p) && CanUnfold(p, events) && Unmount !in events
    ensures AllLive(Unfold(p, events))
    decreases |events|
  {
    if events != [] {
      assert events[0] in events && forall e :: e in events[1..] ==> e in events;
      HappenIsLive(p, events[0]);
      UnfoldIsLive(Happen(p, events[0]), events[1..]);
    }
  }

  lemma FollowedIsNotIdle(p: Page, key: Source)
    requires IsLive(p, key)
    ensures ShowsRunning(p, key) <==> !Idle(p, key)
    ensures ShowsRunning(p, key) ==> Follows(p, key, p.view[key].job)
  {
  }

  /**
   Liveness: in every interleaving without an unmount, a source that shows a running job has an armed timeout or a
   poll of the current generation, never both and never two, for the job it shows; a source that shows no running
   job, because none was started or its chain ended or failed, has neither.
  */
  lemma RunningSourcesAreFollowed(events: seq<Event>, key: Source)
    requires CanUnfold(EMPTY_PAGE, events) && Unmount !in events
    ensures var p := Unfold(EMPTY_PAGE, events);
      && OneChain(p, key)
      && (ShowsRunning(p, key) <==> !Idle(p, key))
      && (ShowsRunning(p, key) ==> Follows(p, key, p.view[key].job))
  {
    UnfoldIsLive(EMPTY_PAGE, events);
    AtMostOneChainPerSource(events, key);
    FollowedIsNotIdle(Unfold(EMPTY_PAGE, events), key);
  }

  lemma TwoEvents(p: Page, a: Event, b: Event)
    requires CanHappen(p, a) && CanHappen(Happen(p, a), b)
    ensures CanUnfold(p, [a, b]) && Unfold(p, [a, b]) == Happen(Happen(p, a), b)
  {
    OneEvent(Happen(p, a), b);
    assert [a, b][1..] == [b];
  }

  lemma OneEvent(p: Page, a: Event)
    requires CanHappen(p, a)
    ensures CanUnfold(p, [a]) && Unfold(p, [a]) == Happen(p, a)
  {
    assert [a][1..] == [];
  }

  lemma FiredIsShown(p: Page, id: nat, status: Option<JobStatus>)
    requires AllLive(p) && id in p.armed
    ensures var q, c := Fired(p, id), p.armed[id];
      && p.nextId in q.polls && c.source in Replied(q, p.nextId, status).view
      && Replied(q, p.nextId, status).view[c.source] == View(c.job, status.GetOr(IsError))
  {
    FireIsLive(p, id);
    CurrentReplyIsShown(Fired(p, id), p.nextId, status);
  }

  /** Whatever a shown running job comes to, at most two more events, its timeout and its reply, show it. */
  lemma NextReplyIsShown(p: Page, key: Source, status: Option<JobStatus>) returns (more: seq<Event>)
    requires AllLive(p) && ShowsRunning(p, key)
    ensures |more| <= 2 && CanUnfold(p, more) && key in Unfold(p, more).view
    ensures Unfold(p, more).view[key] == View(p.view[key].job, status.GetOr(IsError))
  {
    assert IsLive(p, key);
    if id :| id in p.armed && p.armed[id].source == key && p.armed[id].job == p.view[key].job {
      FiredIsShown(p, id, status);
      more := [Timeout(id), Reply(p.nextId, status)];
      TwoEvents(p, more[0], more[1]);
    } else {
      var id :| IsCurrent(p, id) && p.polls[id].source == key && p.polls[id].job == p.view[key].job;
      CurrentReplyIsShown(p, id, status);
      more := [Reply(id, status)];
      OneEvent(p, more[0]);
    }
  }

  /** So whatever has happened since the page was opened, the end of a running job can still be seen. */
  lemma EveryRunningJobCanEnd(events: seq<Event>, key: Source, status: Option<JobStatus>) returns (more: seq<Event>)
    requires CanUnfold(EMPTY_PAGE, events) && Unmount !in events && ShowsRunning(Unfold(EMPTY_PAGE, events), key)
    ensures |more| <= 2 && CanUnfold(Unfold(EMPTY_PAGE, events), more)
    ensures var q := Unfold(Unfold(EMPTY_PAGE, events), more);
      key in q.view && q.view[key] == View(Unfold(EMPTY_PAGE, events).view[key].job, status.GetOr(IsError))
  {
    UnfoldIsLive(EMPTY_PAGE, events);
    more := NextReplyIsShown(Unfold(EMPTY_PAGE, events), key, status);
  }

  lemma ClearKeepsIdle(p: Page, key: Source, other: Source)
    requires Inv(p) && Idle(p, other)
    ensures Idle(Cleared(p, key), other)
  {
    var q := Cleared(p, key);
    CancelDisarms(p, key);
    CancelKeepsInv(p, key);
    BumpOutdatesPolls(Cancelled(p, key), key);
  }

  lemma UnmountIdles(p: Page, key: Source)
    requires Inv(p)
    ensures Idle(AllCleared(p), key)
  {
    var a := Cleared(p, SalesPlan);
    var b := Cleared(a, Bom);
    var c := Cleared(b, ProductionOrders);
    ClearKeepsInv(p, SalesPlan);
    ClearKeepsInv(a, Bom);
    ClearKeepsInv(b, ProductionOrders);
    ClearKeepsInv(c, Research);
    if key == SalesPlan { ClearKeepsIdle(a, Bom, key); }
    if key == SalesPlan || key == Bom { ClearKeepsIdle(b, ProductionOrders, key); }
    if key != Research { ClearKeepsIdle(c, Research, key); }
  }

  /** Neither a trigger nor a reload of running jobs. */
  predicate StartsNothing(e: Event) {
    !e.Trigger? && !e.LoadActive?
  }

  lemma ArmedIsNotIdle(p: Page, id: nat)
    requires id in p.armed
    ensures !Idle(p, p.armed[id].source)
  {
  }

  lemma NothingArmed(p: Page)
    requires forall k :: Idle(p, k)
    ensures p.armed == map[]
  {
    if id :| id in p.armed { ArmedIsNotIdle(p, id); }
  }

  lemma IdleStaysIdle(p: Page, e: Event, key: Source)
    requires Inv(p) && CanHappen(p, e) && StartsNothing(e) && forall k :: Idle(p, k)
    ensures forall k :: Idle(Happen(p, e), k)
  {
    NothingArmed(p);
    match e
    case Timeout(id) =>
    case Reply(id, status) =>
      assert Idle(p, p.polls[id].source);
      forall k ensures Idle(Happen(p, e), k) { assert Idle(p, k); }
    case Unmount => forall k ensures Idle(Happen(p, e), k) { UnmountIdles(p, k); }
    case _ =>
  }

  lemma {:induction false} NothingRestarts(p: Page, events: seq<Event>)
    requires Inv(p) && CanUnfold(p, events) && (forall k :: Idle(p, k)) && forall e :: e in events ==> StartsNothing(e)
    ensures forall k :: Idle(Unfold(p, events), k)
    decreases |events|
  {
    if events != [] {
      assert events[0] in events && forall e :: e in events[1..] ==> e in events;
      HappenKeepsInv(p, events[0]);
      IdleStaysIdle(p, events[0], Bom);
      NothingRestarts(Happen(p, events[0]), events[1..]);
    }
  }

  /** After an unmount, whenever it comes and whatever replies follow it, no source is polled until one is started. */
  lemma UnmountStopsPolling(before: seq<Event>, events: seq<Event>, key: Source)
    requires CanUnfold(EMPTY_PAGE, before) && forall e :: e in events ==> StartsNothing(e)
    requires CanUnfold(AllCleared(Unfold(EMPTY_PAGE, before)), events)
    ensures Idle(Unfold(AllCleared(Unfold(EMPTY_PAGE, before)), events), key)
  {
    var p := Unfold(EMPTY_PAGE, before);
    UnfoldKeepsInv(EMPTY_PAGE, before);
    UnmountKeepsInv(p);
    forall k ensures Idle(AllCleared(p), k) { UnmountIdles(p, k); }
    NothingRestarts(AllCleared(p), events);
  }
}
