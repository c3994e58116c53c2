/**
 The background-task queue: enqueue with dedupe, claim, and what workers do to the tasks they claimed
 (app/repository/background_task_repo.py, app/services/background_task_dispatch_service.py,
 app/services/background_task_worker_service.py).
*/
module TaskQueue {
  import opened Prelude
  import opened Sorting
  import opened SkipLocked

  datatype Status = Pending | Running | Succeeded | Failed

  datatype Task = Task(
    taskType: string,
    status: Status,
    dedupeKey: Option<string>,
    jobId: Option<nat>,
    attempts: nat,
    maxAttempts: nat,
    availableAt: int,
    claimedAt: Option<int>,
    workerId: Option<string>)

  type Rows = map<nat, Task>

  // ---- claiming ----

  function IsPending(t: Task): bool { t.status == Pending }

  function IsDue(t: Task, now: int): bool { t.availableAt <= now }

  function MarkRunning(t: Task, worker: string, now: int): Task {
    t.(status := Running, claimedAt := Some(now), workerId := Some(worker), attempts := t.attempts + 1)
  }

  const TASKS := Discipline(IsPending, IsDue, MarkRunning)

  function AvailableAt(rows: Rows, id: nat): int {
    if id in rows then rows[id].availableAt else 0
  }

  /** ORDER BY available_at, id. */
  function Earlier(rows: Rows): (nat, nat) -> bool {
    (a: nat, b: nat) =>
      AvailableAt(rows, a) < AvailableAt(rows, b) || (AvailableAt(rows, a) == AvailableAt(rows, b) && a <= b)
  }

  function Claimable(rows: Rows, locked: set<nat>, now: int): nat -> bool {
    (id: nat) => id in rows && IsPending(rows[id]) && IsDue(rows[id], now) && id !in locked
  }

  function Queue(rows: Rows, nextId: nat, locked: set<nat>, now: int): seq<nat> {
    SortBy(Filter(Ids(nextId), Claimable(rows, locked, now)), Earlier(rows))
  }

  /** The locked query: pending and due, oldest first, at most `limit`, skipping locked rows. */
  function Selected(rows: Rows, nextId: nat, locked: set<nat>, now: int, limit: nat): seq<nat> {
    var queue := Queue(rows, nextId, locked, now);
    if |queue| <= limit then queue else queue[..limit]
  }

  /** claim_available: select, then mark each task. The writes stay private until the commit. */
  method ClaimAvailable(rows: Rows, nextId: nat, locked: set<nat>, now: int, worker: string, limit: nat)
    returns (chosen: seq<nat>, writes: Rows)
    ensures chosen == Selected(rows, nextId, locked, now, limit)
    ensures forall id :: id in writes <==> id in chosen
    ensures forall id :: id in chosen ==> id in rows && writes[id] == rows[id].(status := Running,
      claimedAt := Some(now), workerId := Some(worker), attempts := rows[id].attempts + 1)
  {
    QueueMembers(rows, nextId, locked, now);
    chosen := Selected(rows, nextId, locked, now, limit);
    writes := map[];
    for i := 0 to |chosen|
      invariant forall id :: id in writes <==> id in chosen[..i]
      invariant forall id :: id in writes ==> id in rows && writes[id] == MarkRunning(rows[id], worker, now)
    {
      assert chosen[i] in Queue(rows, nextId, locked, now);
      assert chosen[..i + 1] == chosen[..i] + [chosen[i]];
      writes := writes[chosen[i] := MarkRunning(rows[chosen[i]], worker, now)];
    }
    assert chosen[..|chosen|] == chosen;
  }

  lemma OrderIsTotal(rows: Rows)
    ensures TotalPreorder(Earlier(rows))
  {
  }

  lemma QueueMembers(rows: Rows, nextId: nat, locked: set<nat>, now: int)
    ensures forall id: nat ::
      id in Queue(rows, nextId, locked, now) <==> id < nextId && Claimable(rows, locked, now)(id)
    ensures NoDuplicates(Queue(rows, nextId, locked, now)) && SortedBy(Queue(rows, nextId, locked, now), Earlier(rows))
  {
    var p := Claimable(rows, locked, now);
    FilterMembers(Ids(nextId), p);
    FilterKeepsDistinct(Ids(nextId), p);
    SortByMembers(Filter(Ids(nextId), p), Earlier(rows));
    SortKeepsDistinct(Filter(Ids(nextId), p), Earlier(rows));
    OrderIsTotal(rows);
    SortBySorts(Filter(Ids(nextId), p), Earlier(rows));
    forall id: nat | id < nextId ensures id in Ids(nextId) {
      assert Ids(nextId)[id] == id;
    }
  }

  /** Pending, due and not locked. */
  predicate IsAvailable(rows: Rows, locked: set<nat>, now: int, id: nat) {
    id in rows && rows[id].status == Pending && rows[id].availableAt <= now && id !in locked
  }

  /** Available longer, or as long with the lower id. */
  predicate WaitsLonger(rows: Rows, a: nat, b: nat)
    requires a in rows && b in rows
  {
    rows[a].availableAt < rows[b].availableAt || (rows[a].availableAt == rows[b].availableAt && a < b)
  }

  /**
   A claim selects available tasks only, in the order in which they wait; one that it leaves behind waits less long
   than all it selects, and is left only because the limit is reached.
  */
  lemma SelectedWaitLongest(rows: Rows, nextId: nat, locked: set<nat>, now: int, limit: nat)
    requires forall id :: id in rows ==> id < nextId
    ensures var chosen := Selected(rows, nextId, locked, now, limit);
      && |chosen| <= limit
      && (forall i :: 0 <= i < |chosen| ==> IsAvailable(rows, locked, now, chosen[i]))
      && (forall i, j :: 0 <= i < j < |chosen| ==> WaitsLonger(rows, chosen[i], chosen[j]))
      && forall id :: IsAvailable(rows, locked, now, id) && id !in chosen ==>
        |chosen| == limit && forall i :: 0 <= i < |chosen| ==> WaitsLonger(rows, chosen[i], id)
  {
    var queue, chosen := Queue(rows, nextId, locked, now), Selected(rows, nextId, locked, now, limit);
    QueueMembers(rows, nextId, locked, now);
    forall i | 0 <= i < |queue| ensures IsAvailable(rows, locked, now, queue[i]) { assert queue[i] in queue; }
    forall i, j | 0 <= i < j < |queue| ensures WaitsLonger(rows, queue[i], queue[j]) {
      assert Earlier(rows)(queue[i], queue[j]) && queue[i] != queue[j];
    }
    forall id | IsAvailable(rows, locked, now, id) && id !in chosen
      ensures |chosen| == limit && forall i :: 0 <= i < |chosen| ==> WaitsLonger(rows, chosen[i], id)
    {
      assert Claimable(rows, locked, now)(id) && id in queue;
      var k := BeyondPrefix(queue, |chosen|, id);
    }
  }

  // ---- enqueue ----

  predicate IsActiveWithKey(t: Task, key: string) {
    (t.status == Pending || t.status == Running) && t.dedupeKey == Some(key)
  }

  function ActiveWithKey(rows: Rows, key: string): nat -> bool {
    (id: nat) => id in rows && IsActiveWithKey(rows[id], key)
  }

  /** get_active_by_dedupe_key: the active task of the key with the highest id; a blank key finds nothing. */
  function GetActiveByDedupeKey(rows: Rows, nextId: nat, key: Option<string>): Option<nat> {
    if key.GetOr("") == "" then None
    else Head(SortBy(Filter(Ids(nextId), ActiveWithKey(rows, key.value)), (a: nat, b: nat) => a >= b))
  }

  lemma ActiveFoundIffPresent(rows: Rows, nextId: nat, key: Option<string>)
    requires key.GetOr("") != ""
    ensures var found := GetActiveByDedupeKey(rows, nextId, key);
      && (found.Some? <==> exists id :: id in rows && id < nextId && IsActiveWithKey(rows[id], key.value))
      && (found.Some? ==> found.value in rows && IsActiveWithKey(rows[found.value], key.value))
      && (found.Some? ==> forall id :: id in rows && id < nextId && IsActiveWithKey(rows[id], key.value) ==>
           id <= found.value)
  {
    var p, leq := ActiveWithKey(rows, key.value), (a: nat, b: nat) => a >= b;
    var matches := Filter(Ids(nextId), p);
    FilterMembers(Ids(nextId), p);
    SortByMembers(matches, leq);
    SortBySorts(matches, leq);
    var sorted := SortBy(matches, leq);
    forall id | id in rows && id < nextId && IsActiveWithKey(rows[id], key.value) ensures id in sorted {
      assert Ids(nextId)[id] == id;
      assert p(id) && id in matches;
    }
    if sorted != [] { assert sorted[0] in sorted && sorted[0] in matches; }
  }

  /** The task found is pending or running; when none is found, all tasks of the key have ended or it is blank. */
  lemma FoundTaskIsUnfinished(rows: Rows, nextId: nat, key: Option<string>)
    requires forall id :: id in rows ==> id < nextId
    ensures var found := GetActiveByDedupeKey(rows, nextId, key);
      if found.Some? then
        && key.GetOr("") != "" && found.value in rows && rows[found.value].dedupeKey == key
        && rows[found.value].status in {Pending, Running}
      else
        key.GetOr("") == ""
        || forall id :: id in rows && rows[id].dedupeKey == key ==> rows[id].status in {Succeeded, Failed}
  {
    if key.GetOr("") != "" {
      ActiveFoundIffPresent(rows, nextId, key);
      forall id | id in rows && rows[id].dedupeKey == key && !IsActiveWithKey(rows[id], key.value)
        ensures rows[id].status in {Succeeded, Failed}
      {
      }
    }
  }

  datatype Job = Job(jobType: string, startedAt: int, status: string)

  function JobOf(t: Task, jobs: map<nat, Job>): Option<Job> {
    if t.jobId.Some? && t.jobId.value in jobs then Some(jobs[t.jobId.value]) else None
  }

  /** The tables background_task and sync_job_log, seen by one enqueueing session. */
  class DispatchService {
    var rows: Rows
    var nextId: nat
    var jobs: map<nat, Job>
    var nextJobId: nat

    constructor ()
      ensures rows == map[] && jobs == map[] && nextId == 1 && nextJobId == 1
    {
      rows, jobs, nextId, nextJobId := map[], map[], 1, 1;
    }

    /** Either the active task of the key and its job, or a new pending task, with a queued job if one is asked for. */
    method Enqueue(taskType: string, key: Option<string>, jobType: Option<string>, maxAttempts: nat, now: int)
      returns (taskId: nat, job: Option<Job>, created: bool)
      modifies this
      ensures var existing := GetActiveByDedupeKey(old(rows), old(nextId), key);
        if existing.Some? then
          && taskId == existing.value && !created
          && rows == old(rows) && nextId == old(nextId) && jobs == old(jobs) && nextJobId == old(nextJobId)
          && (taskId in rows ==> job == JobOf(rows[taskId], jobs))
        else
          && taskId == old(nextId) && created && nextId == old(nextId) + 1
          && job == (if jobType.Some? then Some(Job(jobType.value, now, "queued")) else None)
          && jobs == (if jobType.Some? then old(jobs)[old(nextJobId) := job.value] else old(jobs))
          && nextJobId == (if jobType.Some? then old(nextJobId) + 1 else old(nextJobId))
          && var jobId := if jobType.Some? then Some(old(nextJobId)) else None;
             rows == old(rows)[taskId := Task(taskType, Pending, key, jobId, 0, maxAttempts, now, None, None)]
    {
      var existing := GetActiveByDedupeKey(rows, nextId, key);
      if existing.Some? {
        job := if existing.value in rows then JobOf(rows[existing.value], jobs) else None;
        return existing.value, job, false;
      }
      job := None;
      var jobId: Option<nat> := None;
      if jobType.Some? {
        job := Some(Job(jobType.value, now, "queued"));
        jobId := Some(nextJobId);
        jobs := jobs[nextJobId := job.value];
        nextJobId := nextJobId + 1;
      }
      taskId := nextId;
      rows := rows[taskId := NewTask(taskType, key, jobId, maxAttempts, now)];
      nextId := nextId + 1;
      created := true;
    }
  }

  function NewTask(taskType: string, key: Option<string>, jobId: Option<nat>, maxAttempts: nat, now: int): Task {
    Task(taskType, Pending, key, jobId, 0, maxAttempts, now, None, None)
  }

  // ---- the queue as a state machine ----

  /** `AddTask` is the insert of an enqueue without its check; `Enqueue` is both in one step. */
  datatype QueueAction =
    | Enqueue(taskType: string, key: Option<string>, jobId: Option<nat>, maxAttempts: nat)
    | AddTask(taskType: string, key: Option<string>, jobId: Option<nat>, maxAttempts: nat)
    | ClaimTasks(tx: nat, worker: string, limit: nat)
    | CommitTx(tx: nat)
    | RollbackTx(tx: nat)
    | Recover(id: nat, staleBefore: int, delay: nat)
    | MarkFailed(id: nat, delay: nat)
    | MarkSucceeded(id: nat)
    | Heartbeat(id: nat)
    | Wait(to: int)

  ghost function LockedIds(s: State<Task>): set<nat> {
    set tx, id | tx in s.open && id in s.open[tx].chosen :: id
  }

  /** `attempt_count < max(max_attempts or 1, 1)`. */
  predicate IsRetryable(t: Task) {
    t.attempts < if t.maxAttempts == 0 then 1 else t.maxAttempts
  }

  /** list_stale_running. */
  predicate IsStaleRunning(t: Task, staleBefore: int) {
    t.status == Running && t.claimedAt.Some? && t.claimedAt.value <= staleBefore
  }

  /** A failed task is pending again after a while, as long as attempts are left. */
  function AfterFailure(t: Task, at: int): Task {
    if IsRetryable(t) then t.(status := Pending, availableAt := at, claimedAt := None, workerId := None)
      else t.(status := Failed)
  }

  /**
   Recovery looks for stale running tasks and heartbeats for running ones. Marking a task succeeded or failed does
   not look at its status: any worker that once claimed it may do so, after the lock on its row is gone. Retries
   wait at least one unit.
  */
  ghost predicate CanTake(s: State<Task>, a: QueueAction) {
    match a
    case Enqueue(_, _, _, _) => true
    case AddTask(_, _, _, _) => true
    case ClaimTasks(tx, _, _) => tx !in s.open
    case CommitTx(tx) => tx in s.open
    case RollbackTx(tx) => tx in s.open
    case Recover(id, staleBefore, delay) =>
      id in s.rows && IsStaleRunning(s.rows[id], staleBefore) && staleBefore < s.now && delay >= 10
    case MarkFailed(id, delay) => id in s.rows && Claimed(id) in s.log && !IsLocked(s, id) && delay >= 1
    case MarkSucceeded(id) => id in s.rows && Claimed(id) in s.log && !IsLocked(s, id)
    case Heartbeat(id) => id in s.rows && s.rows[id].status == Running
    case Wait(to) => s.now <= to
  }

  /** The protocol step behind an action; an enqueue that finds an active task takes none. */
  ghost function Lower(s: State<Task>, a: QueueAction): Option<Action<Task>>
    requires CanTake(s, a)
  {
    match a
    case Enqueue(taskType, key, jobId, maxAttempts) =>
      if GetActiveByDedupeKey(s.rows, s.nextId, key).Some? then None
      else Some(Insert(NewTask(taskType, key, jobId, maxAttempts, s.now)))
    case AddTask(taskType, key, jobId, maxAttempts) => Some(Insert(NewTask(taskType, key, jobId, maxAttempts, s.now)))
    case ClaimTasks(tx, worker, limit) =>
      Some(Claim(tx, worker, Selected(s.rows, s.nextId, LockedIds(s), s.now, limit), limit))
    case CommitTx(tx) => Some(Commit(tx))
    case RollbackTx(tx) => Some(Rollback(tx))
    case Recover(id, _, delay) => Some(Write(id, AfterFailure(s.rows[id], s.now + delay)))
    case MarkFailed(id, delay) => Some(Write(id, AfterFailure(s.rows[id], s.now + delay)))
    case MarkSucceeded(id) => Some(Write(id, s.rows[id].(status := Succeeded)))
    case Heartbeat(id) => Some(Write(id, s.rows[id].(claimedAt := Some(s.now))))
    case Wait(to) => Some(Tick(to))
  }

  /** A task's attempts are its logged claims. */
  ghost predicate AttemptsLogged(rows: Rows, nextId: nat, log: seq<Event>) {
    && (forall i :: 0 <= i < |log| ==> log[i].id < nextId)
    && (forall id :: id in rows ==> rows[id].attempts == multiset(log)[Claimed(id)])
  }

  ghost predicate Attempts(s: State<Task>) {
    AttemptsLogged(s.rows, s.nextId, s.log)
  }

  /** The private writes of an open claim are its rows, marked. */
  ghost predicate WritesAreMarks(s: State<Task>) {
    forall tx, id :: tx in s.open && id in s.open[tx].chosen && id in s.rows && id in s.open[tx].writes ==>
      exists worker :: s.open[tx].writes[id] == MarkRunning(s.rows[id], worker, s.open[tx].at)
  }

  ghost predicate QueueInv(s: State<Task>) {
    Inv(TASKS, s) && Attempts(s) && WritesAreMarks(s)
  }

  lemma LockedIsLocked(s: State<Task>, id: nat)
    ensures id in LockedIds(s) <==> IsLocked(s, id)
  {
  }

  /** What the protocol steps behind the queue's actions have in common. */
  ghost predicate Tame(s: State<Task>, low: Action<Task>) {
    && Enabled(TASKS, s, low)
    && match low
       case Insert(row) => IsPending(row) && row.attempts == 0 && row.availableAt == s.now
       case Write(id, row) =>
         && row.attempts == s.rows[id].attempts && row.dedupeKey == s.rows[id].dedupeKey
         && (IsPending(row) ==> row.availableAt > s.now)
       case _ => true
  }

  lemma RunningIsUnlocked(s: State<Task>, id: nat)
    requires QueueInv(s) && id in s.rows && s.rows[id].status == Running
    ensures !IsLocked(s, id)
  {
    assert forall tx :: tx in s.open ==> TxOk(TASKS, s, s.open[tx]);
  }

  lemma SelectedIsClaimable(s: State<Task>, limit: nat)
    requires QueueInv(s)
    ensures var chosen := Selected(s.rows, s.nextId, LockedIds(s), s.now, limit);
      && NoDuplicates(chosen) && |chosen| <= limit
      && forall i :: 0 <= i < |chosen| ==>
           && chosen[i] in s.rows && !IsLocked(s, chosen[i])
           && IsPending(s.rows[chosen[i]]) && IsDue(s.rows[chosen[i]], s.now)
  {
    var queue := Queue(s.rows, s.nextId, LockedIds(s), s.now);
    var chosen := Selected(s.rows, s.nextId, LockedIds(s), s.now, limit);
    QueueMembers(s.rows, s.nextId, LockedIds(s), s.now);
    forall i | 0 <= i < |chosen| ensures Claimable(s.rows, LockedIds(s), s.now)(chosen[i]) && !IsLocked(s, chosen[i]) {
      assert chosen[i] == queue[i] && queue[i] in queue;
      LockedIsLocked(s, chosen[i]);
    }
  }

  lemma LoweredIsTame(s: State<Task>, a: QueueAction)
    requires QueueInv(s) && CanTake(s, a) && Lower(s, a).Some?
    ensures Tame(s, Lower(s, a).value)
  {
    match a
    case ClaimTasks(_, _, limit) => SelectedIsClaimable(s, limit);
    case Recover(id, _, _) => RunningIsUnlocked(s, id);
    case Heartbeat(id) => RunningIsUnlocked(s, id);
    case _ =>
  }

  ghost function Next(s: State<Task>, a: QueueAction): State<Task>
    requires QueueInv(s) && CanTake(s, a)
  {
    if Lower(s, a).Some? then
      LoweredIsTame(s, a);
      Step(TASKS, s, Lower(s, a).value)
    else s
  }

  // ---- what every step keeps ----

  lemma ClaimsCount(chosen: seq<nat>, id: nat)
    requires NoDuplicates(chosen)
    ensures multiset(Claims(chosen))[Claimed(id)] == if id in chosen then 1 else 0
  {
    DistinctCounts(Claims(chosen));
    if id in chosen {
      var i :| 0 <= i < |chosen| && chosen[i] == id;
      assert Claims(chosen)[i] == Claimed(id);
    } else {
      assert Claimed(id) !in Claims(chosen);
    }
  }

  lemma CommittedAttempts(s: State<Task>, tx: nat, id: nat)
    requires QueueInv(s) && tx in s.open && id in (s.rows + s.open[tx].writes)
    ensures (s.rows + s.open[tx].writes)[id].attempts
      == multiset(s.log)[Claimed(id)] + if id in s.open[tx].chosen then 1 else 0
  {
    var t := s.open[tx];
    assert TxOk(TASKS, s, t);
    if id in t.chosen {
      var worker :| t.writes[id] == MarkRunning(s.rows[id], worker, t.at);
    }
  }

  lemma ClaimsAdd(log: seq<Event>, chosen: seq<nat>, id: nat)
    requires NoDuplicates(chosen)
    ensures multiset(log + Claims(chosen))[Claimed(id)] == multiset(log)[Claimed(id)] + if id in chosen then 1 else 0
  {
    ClaimsCount(chosen, id);
    assert multiset(log + Claims(chosen)) == multiset(log) + multiset(Claims(chosen));
  }

  lemma CommitLogsKnownIds(s: State<Task>, tx: nat)
    requires QueueInv(s) && tx in s.open
    ensures forall e :: e in s.log + Claims(s.open[tx].chosen) ==> e.id < s.nextId
  {
    var t := s.open[tx];
    assert TxOk(TASKS, s, t);
    forall e | e in Claims(t.chosen) ensures e.id < s.nextId {
      var i :| 0 <= i < |t.chosen| && Claims(t.chosen)[i] == e;
      assert t.chosen[i] in t.chosen;
    }
  }

  lemma CommitCountsAttempts(s: State<Task>, tx: nat)
    requires QueueInv(s) && tx in s.open
    ensures Attempts(Step(TASKS, s, Commit(tx)))
  {
    var t, u := s.open[tx], Step(TASKS, s, Action<Task>.Commit(tx));
    assert NoDuplicates(t.chosen) by { assert TxOk(TASKS, s, t); }
    forall id | id in u.rows ensures u.rows[id].attempts == multiset(u.log)[Claimed(id)] {
      ClaimsAdd(s.log, t.chosen, id);
      CommittedAttempts(s, tx, id);
    }
    CommitLogsKnownIds(s, tx);
    assert forall i :: 0 <= i < |u.log| ==> u.log[i] in u.log;
  }

  lemma CommitKeepsMarks(s: State<Task>, tx: nat)
    requires QueueInv(s) && tx in s.open
    ensures WritesAreMarks(Step(TASKS, s, Commit(tx)))
  {
    var u := Step(TASKS, s, Action<Task>.Commit(tx));
    assert TxOk(TASKS, s, s.open[tx]);
    forall ux, id | ux in u.open && id in u.open[ux].chosen && id in u.rows && id in u.open[ux].writes
      ensures u.rows[id] == s.rows[id] && id in s.rows
    {
      assert id !in s.open[tx].chosen;
      assert TxOk(TASKS, s, s.open[ux]);
    }
  }

  lemma ClaimKeepsMarks(s: State<Task>, a: Action<Task>)
    requires QueueInv(s) && a.Claim? && Enabled(TASKS, s, a)
    ensures WritesAreMarks(Step(TASKS, s, a)) && Attempts(Step(TASKS, s, a))
  {
    var u := Step(TASKS, s, a);
    forall tx, id | tx in u.open && id in u.open[tx].chosen && id in u.rows && id in u.open[tx].writes
      ensures exists worker :: u.open[tx].writes[id] == MarkRunning(u.rows[id], worker, u.open[tx].at)
    {
      if tx == a.tx {
        assert u.open[tx].writes[id] == MarkRunning(s.rows[id], a.worker, s.now);
      } else {
        assert u.open[tx] == s.open[tx];
      }
    }
  }

  lemma ReopeningClaimsNothing(log: seq<Event>, more: seq<Event>, id: nat, x: nat)
    requires more == [] || more == [Reopened(id)]
    ensures multiset(log + more)[Claimed(x)] == multiset(log)[Claimed(x)]
  {
    assert multiset(log + more) == multiset(log) + multiset(more);
  }

  lemma WritingKeepsAttempts(rows: Rows, nextId: nat, log: seq<Event>, id: nat, row: Task, more: seq<Event>)
    requires AttemptsLogged(rows, nextId, log) && id in rows && id < nextId && row.attempts == rows[id].attempts
    requires more == [] || more == [Reopened(id)]
    ensures AttemptsLogged(rows[id := row], nextId, log + more)
  {
    forall x | x in rows ensures rows[id := row][x].attempts == multiset(log + more)[Claimed(x)] {
      ReopeningClaimsNothing(log, more, id, x);
    }
  }

  lemma WriteKeepsAttempts(s: State<Task>, id: nat, row: Task)
    requires Attempts(s) && Inv(TASKS, s) && id in s.rows && !IsLocked(s, id) && row.attempts == s.rows[id].attempts
    ensures Attempts(Step(TASKS, s, Write(id, row)))
  {
    var more := if !IsPending(s.rows[id]) && IsPending(row) then [Reopened(id)] else [];
    WritingKeepsAttempts(s.rows, s.nextId, s.log, id, row, more);
    assert Step(TASKS, s, Write(id, row)).log == s.log + more;
  }

  lemma WriteKeepsMarks(s: State<Task>, id: nat, row: Task)
    requires WritesAreMarks(s) && id in s.rows && !IsLocked(s, id)
    ensures WritesAreMarks(Step(TASKS, s, Write(id, row)))
  {
    var u := Step(TASKS, s, Write(id, row));
    forall tx, x | tx in u.open && x in u.open[tx].chosen && x in u.rows && x in u.open[tx].writes
      ensures exists worker :: u.open[tx].writes[x] == MarkRunning(u.rows[x], worker, u.open[tx].at)
    {
      assert x != id;
    }
  }

  lemma WriteKeepsQueueInv(s: State<Task>, id: nat, row: Task)
    requires QueueInv(s) && id in s.rows && !IsLocked(s, id) && row.attempts == s.rows[id].attempts
    ensures QueueInv(Step(TASKS, s, Write(id, row)))
  {
    StepKeepsInv(TASKS, s, Write(id, row));
    WriteKeepsAttempts(s, id, row);
    WriteKeepsMarks(s, id, row);
  }

  lemma InsertKeepsQueueInv(s: State<Task>, t: Task)
    requires QueueInv(s) && t.status == Pending && t.attempts == 0
    ensures QueueInv(Step(TASKS, s, Insert(t)))
  {
    var u := Step(TASKS, s, Insert(t));
    StepKeepsInv(TASKS, s, Insert(t));
    assert Claimed(s.nextId) !in s.log;
    forall tx, id | tx in u.open && id in u.open[tx].chosen && id in u.rows && id in u.open[tx].writes
      ensures exists worker :: u.open[tx].writes[id] == MarkRunning(u.rows[id], worker, u.open[tx].at)
    {
      assert TxOk(TASKS, s, s.open[tx]);
    }
  }

  lemma TameKeepsQueueInv(s: State<Task>, low: Action<Task>)
    requires QueueInv(s) && Tame(s, low)
    ensures QueueInv(Step(TASKS, s, low))
  {
    StepKeepsInv(TASKS, s, low);
    match low
    case Insert(row) => InsertKeepsQueueInv(s, row);
    case Claim(_, _, _, _) => ClaimKeepsMarks(s, low);
    case Commit(tx) =>
      CommitCountsAttempts(s, tx);
      CommitKeepsMarks(s, tx);
    case Write(id, row) => WriteKeepsQueueInv(s, id, row);
    case _ =>
  }

  lemma NextKeepsQueueInv(s: State<Task>, a: QueueAction)
    requires QueueInv(s) && CanTake(s, a)
    ensures QueueInv(Next(s, a))
  {
    if Lower(s, a).Some? {
      LoweredIsTame(s, a);
      TameKeepsQueueInv(s, Lower(s, a).value);
    }
  }

  // ---- runs ----

  ghost predicate CanPlay(s: State<Task>, actions: seq<QueueAction>)
    requires QueueInv(s)
    decreases |actions|
  {
    actions == []
    || (CanTake(s, actions[0]) && (NextKeepsQueueInv(s, actions[0]); CanPlay(Next(s, actions[0]), actions[1..])))
  }

  ghost function Play(s: State<Task>, actions: seq<QueueAction>): State<Task>
    requires QueueInv(s) && CanPlay(s, actions)
    decreases |actions|
  {
    if actions == [] then s
    else
      NextKeepsQueueInv(s, actions[0]);
      Play(Next(s, actions[0]), actions[1..])
  }

  lemma StartIsValid(now: int)
    ensures QueueInv(Start<Task>(now))
  {
  }

  lemma {:induction false} PlayKeepsQueueInv(s: State<Task>, actions: seq<QueueAction>)
    requires QueueInv(s) && CanPlay(s, actions)
    ensures QueueInv(Play(s, actions))
    decreases |actions|
  {
    if actions != [] {
      NextKeepsQueueInv(s, actions[0]);
      PlayKeepsQueueInv(Next(s, actions[0]), actions[1..]);
    }
  }

  /**
   In every interleaving of the queue's steps, split enqueues and late marks included: no task is held by two
   claims, a task is claimed again only after it was made pending again, and its attempt count is the number of
   its committed claims.
  */
  lemma QueueIsSafe(now: int, actions: seq<QueueAction>)
    requires CanPlay(Start<Task>(now), actions)
    ensures var u := Play(Start<Task>(now), actions);
      && Alternates(u.log)
      && (forall tx, ux, id :: tx in u.open && ux in u.open && tx != ux && id in u.open[tx].chosen ==>
           id !in u.open[ux].chosen)
      && (forall id :: id in u.rows ==> u.rows[id].attempts == multiset(u.log)[Claimed(id)])
  {
    StartIsValid(now);
    PlayKeepsQueueInv(Start<Task>(now), actions);
  }

  // ---- retries ----

  /** How often a task may be attempted: at least once. */
  function AllowedAttempts(t: Task): nat {
    if t.maxAttempts == 0 then 1 else t.maxAttempts
  }

  /** No task has used more attempts than it is allowed; a pending one has some left and a failed one has none. */
  ghost predicate WithinAttempts(rows: Rows) {
    forall id :: id in rows ==>
      && rows[id].attempts <= AllowedAttempts(rows[id])
      && (rows[id].status == Pending ==> rows[id].attempts < AllowedAttempts(rows[id]))
      && (rows[id].status == Failed ==> rows[id].attempts == AllowedAttempts(rows[id]))
  }

  lemma CommitStaysWithinAttempts(s: State<Task>, tx: nat)
    requires QueueInv(s) && tx in s.open && WithinAttempts(s.rows)
    ensures WithinAttempts(Step(TASKS, s, Commit(tx)).rows)
  {
    var t, u := s.open[tx], Step(TASKS, s, Action<Task>.Commit(tx));
    assert TxOk(TASKS, s, t);
    forall id | id in u.rows && id in t.chosen
      ensures u.rows[id].attempts <= AllowedAttempts(u.rows[id]) && u.rows[id].status == Running
    {
      assert IsPending(s.rows[id]);
      var worker :| t.writes[id] == MarkRunning(s.rows[id], worker, t.at);
    }
  }

  /** A write leaves the attempts alone, and its task is pending or failed as those say. */
  ghost predicate MindsAttempts(s: State<Task>, low: Action<Task>) {
    match low
    case Insert(t) => t.status == Pending && t.attempts == 0
    case Write(id, t) =>
      && id in s.rows && t.attempts == s.rows[id].attempts && t.maxAttempts == s.rows[id].maxAttempts
      && (t.status == Pending ==> IsRetryable(t)) && (t.status == Failed ==> !IsRetryable(t))
    case _ => true
  }

  lemma LowStaysWithinAttempts(s: State<Task>, low: Action<Task>)
    requires QueueInv(s) && Enabled(TASKS, s, low) && MindsAttempts(s, low) && WithinAttempts(s.rows)
    ensures WithinAttempts(Step(TASKS, s, low).rows)
  {
    if low.Commit? { CommitStaysWithinAttempts(s, low.tx); }
  }

  lemma LoweredMindsAttempts(s: State<Task>, a: QueueAction)
    requires CanTake(s, a) && Lower(s, a).Some? && WithinAttempts(s.rows)
    ensures MindsAttempts(s, Lower(s, a).value)
  {
  }

  lemma NextStaysWithinAttempts(s: State<Task>, a: QueueAction)
    requires QueueInv(s) && CanTake(s, a) && WithinAttempts(s.rows)
    ensures WithinAttempts(Next(s, a).rows)
  {
    if Lower(s, a).Some? {
      LoweredIsTame(s, a);
      LoweredMindsAttempts(s, a);
      LowStaysWithinAttempts(s, Lower(s, a).value);
    }
  }

  lemma {:induction false} PlayStaysWithinAttempts(s: State<Task>, actions: seq<QueueAction>)
    requires QueueInv(s) && CanPlay(s, actions) && WithinAttempts(s.rows)
    ensures WithinAttempts(Play(s, actions).rows)
    decreases |actions|
  {
    if actions != [] {
      NextKeepsQueueInv(s, actions[0]);
      NextStaysWithinAttempts(s, actions[0]);
      PlayStaysWithinAttempts(Next(s, actions[0]), actions[1..]);
    }
  }

  /**
   In every run a task is claimed at most as often as its attempts allow, once if they say zero; while it is pending
   it has an attempt left, and it is failed for good only when it has none.
  */
  lemma AttemptsAreLimited(now: int, actions: seq<QueueAction>)
    requires CanPlay(Start<Task>(now), actions)
    ensures var u := Play(Start<Task>(now), actions);
      forall id :: id in u.rows ==> (var allowed := if u.rows[id].maxAttempts == 0 then 1 else u.rows[id].maxAttempts;
        && multiset(u.log)[Claimed(id)] <= allowed
        && (u.rows[id].status == Pending ==> multiset(u.log)[Claimed(id)] < allowed)
        && (u.rows[id].status == Failed ==> multiset(u.log)[Claimed(id)] == allowed))
  {
    QueueIsSafe(now, actions);
    StartIsValid(now);
    PlayStaysWithinAttempts(Start<Task>(now), actions);
  }

  /** What a failure, or a recovery, makes of a task: pending again after the delay and unowned, or failed for good. */
  ghost predicate RetriedOrFailed(t: Task, u: Task, now: int, delay: nat) {
    u == if t.attempts < t.maxAttempts || (t.maxAttempts == 0 && t.attempts == 0)
         then t.(status := Pending, availableAt := now + delay, claimedAt := None, workerId := None)
         else t.(status := Failed)
  }

  lemma WriteTouchesItsTask(s: State<Task>, low: Action<Task>, id: nat)
    requires Enabled(TASKS, s, low) && !low.Commit? && id in s.rows && (low.Insert? ==> id != s.nextId)
    ensures id in Step(TASKS, s, low).rows
    ensures Step(TASKS, s, low).rows[id] == if low.Write? && low.id == id then low.row else s.rows[id]
  {
  }

  /** What the marks of a worker and the recovery of a stale task make of it; no step but a commit touches others. */
  lemma MarksWriteTheirTask(s: State<Task>, a: QueueAction, id: nat)
    requires QueueInv(s) && CanTake(s, a) && id in s.rows && !a.CommitTx?
    ensures id in Next(s, a).rows
    ensures var t, u := s.rows[id], Next(s, a).rows[id];
      match a
      case MarkFailed(x, delay) => if x == id then RetriedOrFailed(t, u, s.now, delay) && delay >= 1 else u == t
      case Recover(x, _, delay) =>
        if x == id then RetriedOrFailed(t, u, s.now, delay) && delay >= 10 && t.status == Running
          && t.claimedAt.Some? && t.claimedAt.value < s.now
        else u == t
      case MarkSucceeded(x) => u == if x == id then t.(status := Succeeded) else t
      case Heartbeat(x) => if x == id then t.status == Running && u == t.(claimedAt := Some(s.now)) else u == t
      case _ => u == t
  {
    if Lower(s, a).Some? {
      LoweredIsTame(s, a);
      WriteTouchesItsTask(s, Lower(s, a).value, id);
    }
  }

  // ---- one active task per key ----

  ghost predicate OneActivePerKey(rows: Rows) {
    forall a, b, key ::
      a in rows && b in rows && key != "" && IsActiveWithKey(rows[a], key) && IsActiveWithKey(rows[b], key) ==> a == b
  }

  ghost predicate OtherIsActive(rows: Rows, id: nat, key: string) {
    exists a :: a in rows && a != id && IsActiveWithKey(rows[a], key)
  }

  predicate IsActive(t: Task) {
    t.status == Pending || t.status == Running
  }

  /** An insert keeps one active task per key exactly when no active task has the key yet. */
  lemma InsertKeepsOneActiveIff(rows: Rows, id: nat, t: Task)
    requires id !in rows && t.status == Pending && OneActivePerKey(rows)
    ensures OneActivePerKey(rows[id := t]) <==>
      (t.dedupeKey.GetOr("") == "" || !exists a :: a in rows && IsActiveWithKey(rows[a], t.dedupeKey.value))
  {
    var u := rows[id := t];
    if t.dedupeKey.GetOr("") != "" {
      if a :| a in rows && IsActiveWithKey(rows[a], t.dedupeKey.value) {
        assert IsActiveWithKey(u[a], t.dedupeKey.value) && IsActiveWithKey(u[id], t.dedupeKey.value);
      }
    }
  }

  /** Writing a row keeps one active task per key exactly when the row ends up inactive or alone with its key. */
  lemma WriteKeepsOneActiveIff(rows: Rows, id: nat, t: Task)
    requires id in rows && OneActivePerKey(rows)
    ensures OneActivePerKey(rows[id := t]) <==>
      (!IsActive(t) || t.dedupeKey.GetOr("") == "" || !OtherIsActive(rows, id, t.dedupeKey.value))
  {
    var u := rows[id := t];
    if IsActive(t) && t.dedupeKey.GetOr("") != "" {
      if a :| a in rows && a != id && IsActiveWithKey(rows[a], t.dedupeKey.value) {
        assert IsActiveWithKey(u[a], t.dedupeKey.value) && IsActiveWithKey(u[id], t.dedupeKey.value);
      }
    }
    if !IsActive(t) || t.dedupeKey.GetOr("") == "" || !OtherIsActive(rows, id, t.dedupeKey.value) {
      forall a, key | a in u && a != id && key != "" && IsActiveWithKey(u[a], key)
        ensures !IsActiveWithKey(u[id], key)
      {
      }
    }
  }

  lemma CommitKeepsOneActive(s: State<Task>, tx: nat)
    requires QueueInv(s) && tx in s.open && OneActivePerKey(s.rows)
    ensures OneActivePerKey(Step(TASKS, s, Commit(tx)).rows)
  {
    var t, u := s.open[tx], Step(TASKS, s, Action<Task>.Commit(tx));
    assert TxOk(TASKS, s, t);
    forall id, key | id in u.rows && IsActiveWithKey(u.rows[id], key)
      ensures id in s.rows && IsActiveWithKey(s.rows[id], key)
    {
      if id in t.chosen {
        var worker :| t.writes[id] == MarkRunning(s.rows[id], worker, t.at);
      }
    }
  }

  /** What has to hold for a step not to make a second active task of a key. */
  ghost predicate Guarded(s: State<Task>, a: QueueAction) {
    match a
    case AddTask(_, key, _, _) =>
      key.GetOr("") == "" || !exists x :: x in s.rows && IsActiveWithKey(s.rows[x], key.value)
    case MarkFailed(id, _) =>
      id in s.rows && IsRetryable(s.rows[id]) && s.rows[id].dedupeKey.GetOr("") != "" ==>
        !OtherIsActive(s.rows, id, s.rows[id].dedupeKey.value)
    case _ => true
  }

  /** The same for the protocol steps. */
  ghost predicate LowGuarded(s: State<Task>, low: Action<Task>) {
    match low
    case Insert(t) =>
      t.dedupeKey.GetOr("") == "" || !exists a :: a in s.rows && IsActiveWithKey(s.rows[a], t.dedupeKey.value)
    case Write(id, t) => !IsActive(t) || t.dedupeKey.GetOr("") == "" || !OtherIsActive(s.rows, id, t.dedupeKey.value)
    case _ => true
  }

  lemma TameKeepsOneActiveIff(s: State<Task>, low: Action<Task>)
    requires QueueInv(s) && Tame(s, low) && OneActivePerKey(s.rows)
    ensures OneActivePerKey(Step(TASKS, s, low).rows) <==> LowGuarded(s, low)
  {
    match low
    case Insert(t) => InsertKeepsOneActiveIff(s.rows, s.nextId, t);
    case Write(id, t) => WriteKeepsOneActiveIff(s.rows, id, t);
    case Commit(tx) => CommitKeepsOneActive(s, tx);
    case _ =>
  }

  /** An active task is alone with its key already. */
  lemma ActiveIsAlone(rows: Rows, id: nat)
    requires id in rows && IsActive(rows[id]) && OneActivePerKey(rows) && rows[id].dedupeKey.GetOr("") != ""
    ensures !OtherIsActive(rows, id, rows[id].dedupeKey.value)
  {
    assert IsActiveWithKey(rows[id], rows[id].dedupeKey.value);
  }

  lemma GuardedIsLowGuarded(s: State<Task>, a: QueueAction)
    requires QueueInv(s) && CanTake(s, a) && OneActivePerKey(s.rows) && Lower(s, a).Some?
    ensures Guarded(s, a) <==> LowGuarded(s, Lower(s, a).value)
  {
    match a
    case Enqueue(_, key, _, _) =>
      if key.GetOr("") != "" { ActiveFoundIffPresent(s.rows, s.nextId, key); }
    case Recover(id, _, _) =>
      if s.rows[id].dedupeKey.GetOr("") != "" { ActiveIsAlone(s.rows, id); }
    case Heartbeat(id) =>
      if s.rows[id].dedupeKey.GetOr("") != "" { ActiveIsAlone(s.rows, id); }
    case _ =>
  }

  /** Every step keeps one active task per key exactly when it is guarded. */
  lemma NextKeepsOneActiveIff(s: State<Task>, a: QueueAction)
    requires QueueInv(s) && CanTake(s, a) && OneActivePerKey(s.rows)
    ensures OneActivePerKey(Next(s, a).rows) <==> Guarded(s, a)
  {
    if Lower(s, a).Some? {
      LoweredIsTame(s, a);
      TameKeepsOneActiveIff(s, Lower(s, a).value);
      GuardedIsLowGuarded(s, a);
    } else {
      assert a.Enqueue?;
    }
  }

  /** One active task per key in every state of the run. */
  ghost predicate OneActiveThroughout(s: State<Task>, actions: seq<QueueAction>)
    requires QueueInv(s) && CanPlay(s, actions)
    decreases |actions|
  {
    OneActivePerKey(s.rows)
    && (actions == [] || (NextKeepsQueueInv(s, actions[0]); OneActiveThroughout(Next(s, actions[0]), actions[1..])))
  }

  ghost predicate AllGuarded(s: State<Task>, actions: seq<QueueAction>)
    requires QueueInv(s) && CanPlay(s, actions)
    decreases |actions|
  {
    actions == []
    || (NextKeepsQueueInv(s, actions[0]); Guarded(s, actions[0]) && AllGuarded(Next(s, actions[0]), actions[1..]))
  }

  /**
   A run never shows two active tasks of one key exactly when every unchecked insert finds no active task of its
   key and every failure that makes its task pending again finds no other one.
  */
  lemma {:induction false} OneActiveThroughoutIff(s: State<Task>, actions: seq<QueueAction>)
    requires QueueInv(s) && OneActivePerKey(s.rows) && CanPlay(s, actions)
    ensures OneActiveThroughout(s, actions) <==> AllGuarded(s, actions)
    decreases |actions|
  {
    if actions != [] {
      var a := actions[0];
      var u := Next(s, a);
      NextKeepsQueueInv(s, a);
      NextKeepsOneActiveIff(s, a);
      if Guarded(s, a) {
        OneActiveThroughoutIff(u, actions[1..]);
      } else {
        assert !OneActiveThroughout(u, actions[1..]);
      }
    }
  }

  /** Enqueues are atomic, and only running tasks are marked failed. */
  ghost predicate Orderly(s: State<Task>, actions: seq<QueueAction>)
    requires QueueInv(s) && CanPlay(s, actions)
    decreases |actions|
  {
    actions == [] ||
    (NextKeepsQueueInv(s, actions[0]);
     && !actions[0].AddTask? && (actions[0].MarkFailed? ==> s.rows[actions[0].id].status == Running)
     && Orderly(Next(s, actions[0]), actions[1..]))
  }

  lemma {:induction false} OrderlyStepsAreGuarded(s: State<Task>, actions: seq<QueueAction>)
    requires QueueInv(s) && OneActivePerKey(s.rows) && CanPlay(s, actions) && Orderly(s, actions)
    ensures AllGuarded(s, actions)
    decreases |actions|
  {
    if actions != [] {
      var a := actions[0];
      NextKeepsQueueInv(s, a);
      if a.MarkFailed? && s.rows[a.id].dedupeKey.GetOr("") != "" {
        assert IsActiveWithKey(s.rows[a.id], s.rows[a.id].dedupeKey.value);
      }
      NextKeepsOneActiveIff(s, a);
      OrderlyStepsAreGuarded(Next(s, a), actions[1..]);
    }
  }

  /** With atomic enqueues, and failures of running tasks only, a key never has two pending or running tasks. */
  lemma OrderlyRunsKeepOneActive(now: int, actions: seq<QueueAction>)
    requires CanPlay(Start<Task>(now), actions) && Orderly(Start<Task>(now), actions)
    ensures OneActiveThroughout(Start<Task>(now), actions)
  {
    StartIsValid(now);
    OrderlyStepsAreGuarded(Start<Task>(now), actions);
    OneActiveThroughoutIff(Start<Task>(now), actions);
  }

  lemma {:induction false} OneActiveAtTheEnd(s: State<Task>, actions: seq<QueueAction>)
    requires QueueInv(s) && CanPlay(s, actions) && OneActiveThroughout(s, actions)
    ensures OneActivePerKey(Play(s, actions).rows)
    decreases |actions|
  {
    if actions != [] {
      NextKeepsQueueInv(s, actions[0]);
      OneActiveAtTheEnd(Next(s, actions[0]), actions[1..]);
    }
  }

  /** In terms of the table: two pending or running tasks of one non-blank key are one task. */
  lemma NoTwoUnfinishedTasks(now: int, actions: seq<QueueAction>, a: nat, b: nat)
    requires CanPlay(Start<Task>(now), actions) && Orderly(Start<Task>(now), actions)
    requires var rows := Play(Start<Task>(now), actions).rows;
      && a in rows && b in rows && rows[a].dedupeKey == rows[b].dedupeKey && rows[a].dedupeKey.GetOr("") != ""
      && rows[a].status in {Pending, Running} && rows[b].status in {Pending, Running}
    ensures a == b
  {
    OrderlyRunsKeepOneActive(now, actions);
    StartIsValid(now);
    OneActiveAtTheEnd(Start<Task>(now), actions);
    var rows := Play(Start<Task>(now), actions).rows;
    assert IsActiveWithKey(rows[a], rows[a].dedupeKey.value) && IsActiveWithKey(rows[b], rows[a].dedupeKey.value);
  }

  // ---- runs that leave two active tasks ----

  ghost predicate Chain<S(!new), A>(takes: (S, A, S) -> bool, s: S, actions: seq<A>, u: S)
    decreases |actions|
  {
    if actions == [] then s == u else exists m :: takes(s, actions[0], m) && Chain(takes, m, actions[1..], u)
  }

  lemma ChainFirst<S(!new), A>(takes: (S, A, S) -> bool, s: S, a: A, m: S, actions: seq<A>, u: S)
    requires takes(s, a, m) && Chain(takes, m, actions, u)
    ensures Chain(takes, s, [a] + actions, u)
  {
    assert ([a] + actions)[1..] == actions;
  }

  lemma {:induction false} ChainOn<S(!new), A>(takes: (S, A, S) -> bool, s: S, first: seq<A>, t: S, second: seq<A>,
                                               u: S)
    requires Chain(takes, s, first, t) && Chain(takes, t, second, u)
    ensures Chain(takes, s, first + second, u)
    decreases |first|
  {
    if first == [] {
      assert first + second == second;
    } else {
      var m :| takes(s, first[0], m) && Chain(takes, m, first[1..], t);
      ChainOn(takes, m, first[1..], t, second, u);
      assert (first + second)[1..] == first[1..] + second;
    }
  }

  ghost predicate Takes(s: State<Task>, a: QueueAction, u: State<Task>) {
    QueueInv(s) && CanTake(s, a) && Next(s, a) == u
  }

  /** The actions can be played and lead from s to u. */
  ghost predicate Leads(s: State<Task>, actions: seq<QueueAction>, u: State<Task>) {
    Chain(Takes, s, actions, u)
  }

  lemma {:induction false} LeadsPlays(s: State<Task>, actions: seq<QueueAction>, u: State<Task>)
    requires QueueInv(s) && Leads(s, actions, u)
    ensures CanPlay(s, actions) && Play(s, actions) == u
    decreases |actions|
  {
    if actions != [] {
      NextKeepsQueueInv(s, actions[0]);
      LeadsPlays(Next(s, actions[0]), actions[1..], u);
    }
  }

  lemma LeadsFirst(s: State<Task>, a: QueueAction, actions: seq<QueueAction>, u: State<Task>)
    requires QueueInv(s) && CanTake(s, a) && Leads(Next(s, a), actions, u)
    ensures Leads(s, [a] + actions, u)
  {
    ChainFirst(Takes, s, a, Next(s, a), actions, u);
  }

  lemma LeadsOn(s: State<Task>, first: seq<QueueAction>, t: State<Task>, second: seq<QueueAction>, u: State<Task>)
    requires Leads(s, first, t) && Leads(t, second, u)
    ensures Leads(s, first + second, u)
  {
    ChainOn(Takes, s, first, t, second, u);
  }

  lemma OneStep(s: State<Task>, a: QueueAction)
    requires QueueInv(s) && CanTake(s, a)
    ensures Leads(s, [a], Next(s, a)) && QueueInv(Next(s, a))
  {
    NextKeepsQueueInv(s, a);
    assert Leads(Next(s, a), [], Next(s, a));
    LeadsFirst(s, a, [], Next(s, a));
    assert [a] + [] == [a];
  }

  /** The table holds one task, pending and due, and nothing is open. */
  ghost predicate OnlyTask1(s: State<Task>, t: Task) {
    QueueInv(s) && s.rows == map[1 := t] && s.nextId == 2 && s.open == map[]
  }

  lemma OnlyTask1IsSelected(s: State<Task>, t: Task)
    requires OnlyTask1(s, t) && IsPending(t) && IsDue(t, s.now)
    ensures Selected(s.rows, s.nextId, {}, s.now, 1) == [1]
  {
    var queue := Queue(s.rows, s.nextId, {}, s.now);
    QueueMembers(s.rows, s.nextId, {}, s.now);
    assert Claimable(s.rows, {}, s.now)(1) && 1 in queue;
    assert forall i :: 0 <= i < |queue| ==> queue[i] in queue;
    assert forall i, j :: 0 <= i < j < |queue| ==> queue[i] != queue[j];
  }

  /** The table after a worker has claimed the task, before it commits. */
  ghost function Claiming(s: State<Task>, t: Task, tx: nat, worker: string): State<Task> {
    s.(open := map[tx := Tx([1], map[1 := MarkRunning(t, worker, s.now)], s.now, 1, true)])
  }

  lemma Task1IsTaken(s: State<Task>, t: Task, tx: nat, worker: string)
    requires OnlyTask1(s, t) && IsPending(t) && IsDue(t, s.now)
    ensures Next(s, ClaimTasks(tx, worker, 1)) == Claiming(s, t, tx, worker)
  {
    var a := Action<Task>.Claim(tx, worker, [1], 1);
    OnlyTask1IsSelected(s, t);
    assert LockedIds(s) == {};
    LoweredIsTame(s, ClaimTasks(tx, worker, 1));
    assert Lower(s, ClaimTasks(tx, worker, 1)) == Some(a);
    var u := Step(TASKS, s, a);
    assert u.open.Keys == {tx};
    assert u.open[tx].writes == map[1 := MarkRunning(t, worker, s.now)];
    assert u.open[tx].chosen == [1];
    assert u.open[tx].alone;
    assert u.open == Claiming(s, t, tx, worker).open;
  }

  /** The table after the commit. */
  ghost function HasClaimed(s: State<Task>, t: Task, worker: string): State<Task> {
    s.(rows := map[1 := MarkRunning(t, worker, s.now)], log := s.log + [Claimed(1)])
  }

  lemma Task1IsCommitted(s: State<Task>, t: Task, tx: nat, worker: string)
    requires OnlyTask1(s, t) && QueueInv(Claiming(s, t, tx, worker))
    ensures Next(Claiming(s, t, tx, worker), CommitTx(tx)) == HasClaimed(s, t, worker)
  {
    var m := Claiming(s, t, tx, worker);
    LoweredIsTame(m, CommitTx(tx));
    assert Claims([1]) == [Claimed(1)];
    assert m.rows + m.open[tx].writes == map[1 := MarkRunning(t, worker, s.now)];
    assert m.open - {tx} == map[];
  }

  /** A worker claims the task and commits. */
  lemma Task1IsClaimed(s: State<Task>, t: Task, tx: nat, worker: string)
    requires OnlyTask1(s, t) && IsPending(t) && IsDue(t, s.now)
    ensures Leads(s, [ClaimTasks(tx, worker, 1)] + [CommitTx(tx)], HasClaimed(s, t, worker))
    ensures OnlyTask1(HasClaimed(s, t, worker), MarkRunning(t, worker, s.now))
      && Claimed(1) in HasClaimed(s, t, worker).log
  {
    Task1IsTaken(s, t, tx, worker);
    OneStep(s, ClaimTasks(tx, worker, 1));
    var m := Claiming(s, t, tx, worker);
    Task1IsCommitted(s, t, tx, worker);
    OneStep(m, CommitTx(tx));
    LeadsOn(s, [ClaimTasks(tx, worker, 1)], m, [CommitTx(tx)], HasClaimed(s, t, worker));
    assert HasClaimed(s, t, worker).log[|s.log|] == Claimed(1);
  }

  lemma Task1IsRecovered(s: State<Task>, t: Task, staleBefore: int, delay: nat)
    requires OnlyTask1(s, t) && IsStaleRunning(t, staleBefore) && staleBefore < s.now && delay >= 10
    ensures CanTake(s, Recover(1, staleBefore, delay))
    ensures var u := Next(s, Recover(1, staleBefore, delay));
      u.rows == map[1 := AfterFailure(t, s.now + delay)] && u == s.(rows := u.rows, log := u.log)
  {
    LoweredIsTame(s, Recover(1, staleBefore, delay));
  }

  lemma Task1Succeeds(s: State<Task>, t: Task)
    requires OnlyTask1(s, t) && Claimed(1) in s.log
    ensures CanTake(s, MarkSucceeded(1))
    ensures var u := Next(s, MarkSucceeded(1));
      u.rows == map[1 := t.(status := Succeeded)] && u == s.(rows := u.rows, log := u.log) && s.log <= u.log
  {
    LoweredIsTame(s, MarkSucceeded(1));
  }

  /** A task of this key with three attempts allowed. */
  function Fresh(key: string, now: int): Task {
    NewTask("sync", Some(key), None, 3, now)
  }

  function EnqueueFresh(key: string): QueueAction {
    Enqueue("sync", Some(key), None, 3)
  }

  /** The claim of worker A times out, so the task is recovered and due again later. */
  const LATE: seq<QueueAction> := [Wait(7200)] + ([Recover(1, 0, 10)] + [Wait(7210)])

  function Slow(key: string): seq<QueueAction> {
    [EnqueueFresh(key)] + ([ClaimTasks(1, "A", 1)] + [CommitTx(1)]) + LATE
  }

  lemma FirstEnqueue(key: string)
    requires key != ""
    ensures Leads(Start<Task>(0), [EnqueueFresh(key)], State(map[1 := Fresh(key, 0)], 2, map[], 0, []))
    ensures OnlyTask1(State(map[1 := Fresh(key, 0)], 2, map[], 0, []), Fresh(key, 0))
  {
    var s := Start<Task>(0);
    StartIsValid(0);
    ActiveFoundIffPresent(s.rows, s.nextId, Some(key));
    OneStep(s, EnqueueFresh(key));
  }

  lemma ClaimedRuns(key: string) returns (u: State<Task>)
    requires key != ""
    ensures Leads(Start<Task>(0), [EnqueueFresh(key)] + ([ClaimTasks(1, "A", 1)] + [CommitTx(1)]), u)
    ensures OnlyTask1(u, MarkRunning(Fresh(key, 0), "A", 0)) && u.now == 0
  {
    var s1 := State(map[1 := Fresh(key, 0)], 2, map[], 0, []);
    FirstEnqueue(key);
    Task1IsClaimed(s1, Fresh(key, 0), 1, "A");
    u := HasClaimed(s1, Fresh(key, 0), "A");
    LeadsOn(Start<Task>(0), [EnqueueFresh(key)], s1, [ClaimTasks(1, "A", 1)] + [CommitTx(1)], u);
  }

  lemma Task1Waits(s: State<Task>, t: Task, to: int)
    requires OnlyTask1(s, t) && s.now <= to
    ensures Leads(s, [Wait(to)], s.(now := to)) && OnlyTask1(s.(now := to), t)
  {
    OneStep(s, Wait(to));
    LoweredIsTame(s, Wait(to));
  }

  lemma RecoveredIsDueLater(s: State<Task>, t: Task) returns (u: State<Task>)
    requires OnlyTask1(s, t) && IsStaleRunning(t, 0) && s.now == 7200
    ensures Leads(s, [Recover(1, 0, 10)] + [Wait(7210)], u) && OnlyTask1(u, AfterFailure(t, 7210)) && u.now == 7210
  {
    Task1IsRecovered(s, t, 0, 10);
    OneStep(s, Recover(1, 0, 10));
    var m := Next(s, Recover(1, 0, 10));
    Task1Waits(m, AfterFailure(t, 7210), 7210);
    u := m.(now := 7210);
    LeadsOn(s, [Recover(1, 0, 10)], m, [Wait(7210)], u);
  }

  lemma SlowRuns(key: string) returns (u: State<Task>)
    requires key != ""
    ensures Leads(Start<Task>(0), Slow(key), u) && u.now == 7210
    ensures OnlyTask1(u, AfterFailure(MarkRunning(Fresh(key, 0), "A", 0), 7210))
  {
    var s := ClaimedRuns(key);
    var t := MarkRunning(Fresh(key, 0), "A", 0);
    Task1Waits(s, t, 7200);
    u := RecoveredIsDueLater(s.(now := 7200), t);
    LeadsOn(s, [Wait(7200)], s.(now := 7200), [Recover(1, 0, 10)] + [Wait(7210)], u);
    LeadsOn(Start<Task>(0), [EnqueueFresh(key)] + ([ClaimTasks(1, "A", 1)] + [CommitTx(1)]), s, LATE, u);
  }

  /** Worker B claims the task meanwhile, and succeeds. */
  function Superseded(key: string): seq<QueueAction> {
    Slow(key) + ([ClaimTasks(2, "B", 1)] + [CommitTx(2)]) + [MarkSucceeded(1)]
  }

  /** The task as worker B leaves it. */
  function Done(key: string): Task {
    MarkRunning(AfterFailure(MarkRunning(Fresh(key, 0), "A", 0), 7210), "B", 7210).(status := Succeeded)
  }

  lemma SupersededRuns(key: string) returns (u: State<Task>)
    requires key != ""
    ensures Leads(Start<Task>(0), Superseded(key), u) && OnlyTask1(u, Done(key)) && Claimed(1) in u.log
  {
    var s := SlowRuns(key);
    var again := AfterFailure(MarkRunning(Fresh(key, 0), "A", 0), 7210);
    Task1IsClaimed(s, again, 2, "B");
    var m := HasClaimed(s, again, "B");
    Task1Succeeds(m, MarkRunning(again, "B", 7210));
    OneStep(m, MarkSucceeded(1));
    u := Next(m, MarkSucceeded(1));
    LeadsOn(Start<Task>(0), Slow(key), s, [ClaimTasks(2, "B", 1)] + [CommitTx(2)], m);
    LeadsOn(Start<Task>(0), Slow(key) + ([ClaimTasks(2, "B", 1)] + [CommitTx(2)]), m, [MarkSucceeded(1)], u);
  }

  lemma SecondEnqueue(u: State<Task>, key: string)
    requires key != "" && OnlyTask1(u, Done(key))
    ensures Next(u, EnqueueFresh(key)) == u.(rows := map[1 := Done(key), 2 := Fresh(key, u.now)], nextId := 3)
  {
    ActiveFoundIffPresent(u.rows, u.nextId, Some(key));
    LoweredIsTame(u, EnqueueFresh(key));
  }

  lemma LateFailure(v: State<Task>, key: string, now: int)
    requires QueueInv(v) && v.rows == map[1 := Done(key), 2 := Fresh(key, now)] && v.open == map[]
      && Claimed(1) in v.log && key != ""
    ensures CanTake(v, MarkFailed(1, 1)) && !OneActivePerKey(Next(v, MarkFailed(1, 1)).rows)
  {
    LoweredIsTame(v, MarkFailed(1, 1));
    var rows := Next(v, MarkFailed(1, 1)).rows;
    assert IsActiveWithKey(rows[1], key) && IsActiveWithKey(rows[2], key);
  }

  /**
   The status is not checked when a task is marked failed. So, with three attempts allowed, the failure of the
   slow worker A makes its succeeded task pending again beside a task of the same key enqueued in between.
  */
  lemma LateFailureDuplicates(key: string)
    requires key != ""
    ensures var actions := Superseded(key) + [EnqueueFresh(key)] + [MarkFailed(1, 1)];
      && CanPlay(Start<Task>(0), actions)
      && !OneActivePerKey(Play(Start<Task>(0), actions).rows)
  {
    var s0 := Start<Task>(0);
    var u := SupersededRuns(key);
    SecondEnqueue(u, key);
    OneStep(u, EnqueueFresh(key));
    var v := Next(u, EnqueueFresh(key));
    LateFailure(v, key, u.now);
    OneStep(v, MarkFailed(1, 1));
    LeadsOn(s0, Superseded(key), u, [EnqueueFresh(key)], v);
    LeadsOn(s0, Superseded(key) + [EnqueueFresh(key)], v, [MarkFailed(1, 1)], Next(v, MarkFailed(1, 1)));
    LeadsPlays(s0, Superseded(key) + [EnqueueFresh(key)] + [MarkFailed(1, 1)], Next(v, MarkFailed(1, 1)));
  }

  // ---- enqueueing in two steps ----

  /** What a session found when it checked its dedupe key. */
  datatype Looked = Looked(key: Option<string>, found: bool)

  datatype World = World(queue: State<Task>, sessions: map<nat, Looked>)

  /** A session looks first and adds its task later; anything else can happen in between. */
  datatype SplitAction =
    | Look(session: nat, key: Option<string>)
    | Add(session: nat, taskType: string, jobId: Option<nat>, maxAttempts: nat)
    | Do(action: QueueAction)

  ghost predicate CanTakeSplit(w: World, a: SplitAction) {
    match a
    case Look(session, _) => session !in w.sessions
    case Add(session, _, _, _) => session in w.sessions
    case Do(action) => !action.AddTask? && CanTake(w.queue, action)
  }

  /** The queue step behind a split action. */
  ghost function Projected(w: World, a: SplitAction): seq<QueueAction>
    requires CanTakeSplit(w, a)
  {
    match a
    case Look(_, _) => []
    case Add(session, taskType, jobId, maxAttempts) =>
      if w.sessions[session].found then [] else [AddTask(taskType, w.sessions[session].key, jobId, maxAttempts)]
    case Do(action) => [action]
  }

  ghost function NextSplit(w: World, a: SplitAction): World
    requires QueueInv(w.queue) && CanTakeSplit(w, a)
  {
    var queue := if Projected(w, a) == [] then w.queue else Next(w.queue, Projected(w, a)[0]);
    match a
    case Look(session, key) =>
      World(queue, w.sessions[session := Looked(key, GetActiveByDedupeKey(w.queue.rows, w.queue.nextId, key).Some?)])
    case Add(session, _, _, _) => World(queue, w.sessions - {session})
    case Do(_) => World(queue, w.sessions)
  }

  lemma NextSplitKeepsQueueInv(w: World, a: SplitAction)
    requires QueueInv(w.queue) && CanTakeSplit(w, a)
    ensures QueueInv(NextSplit(w, a).queue)
  {
    if Projected(w, a) != [] { NextKeepsQueueInv(w.queue, Projected(w, a)[0]); }
  }

  ghost predicate CanPlaySplit(w: World, actions: seq<SplitAction>)
    requires QueueInv(w.queue)
    decreases |actions|
  {
    actions == [] || (CanTakeSplit(w, actions[0])
      && (NextSplitKeepsQueueInv(w, actions[0]); CanPlaySplit(NextSplit(w, actions[0]), actions[1..])))
  }

  ghost function PlaySplit(w: World, actions: seq<SplitAction>): World
    requires QueueInv(w.queue) && CanPlaySplit(w, actions)
    decreases |actions|
  {
    if actions == [] then w
    else
      NextSplitKeepsQueueInv(w, actions[0]);
      PlaySplit(NextSplit(w, actions[0]), actions[1..])
  }

  ghost function AllProjected(w: World, actions: seq<SplitAction>): seq<QueueAction>
    requires QueueInv(w.queue) && CanPlaySplit(w, actions)
    decreases |actions|
  {
    if actions == [] then []
    else
      NextSplitKeepsQueueInv(w, actions[0]);
      Projected(w, actions[0]) + AllProjected(NextSplit(w, actions[0]), actions[1..])
  }

  /** A run with split enqueues is a run of the queue, so whatever holds of those holds of it. */
  lemma {:induction false} SplitRunsAreRuns(w: World, actions: seq<SplitAction>)
    requires QueueInv(w.queue) && CanPlaySplit(w, actions)
    ensures Leads(w.queue, AllProjected(w, actions), PlaySplit(w, actions).queue)
    decreases |actions|
  {
    if actions != [] {
      var a := actions[0];
      var v := NextSplit(w, a);
      NextSplitKeepsQueueInv(w, a);
      SplitRunsAreRuns(v, actions[1..]);
      var rest := AllProjected(v, actions[1..]);
      if Projected(w, a) == [] {
        assert AllProjected(w, actions) == rest;
      } else {
        LeadsFirst(w.queue, Projected(w, a)[0], rest, PlaySplit(w, actions).queue);
        assert [Projected(w, a)[0]] == Projected(w, a);
      }
    }
  }

  /** So a run with split enqueues keeps one active task per key exactly when its inserts and failures are guarded. */
  lemma SplitRunsKeepOneActiveIff(w: World, actions: seq<SplitAction>)
    requires QueueInv(w.queue) && OneActivePerKey(w.queue.rows) && CanPlaySplit(w, actions)
    ensures CanPlay(w.queue, AllProjected(w, actions))
    ensures OneActiveThroughout(w.queue, AllProjected(w, actions)) <==> AllGuarded(w.queue, AllProjected(w, actions))
  {
    SplitRunsAreRuns(w, actions);
    LeadsPlays(w.queue, AllProjected(w, actions), PlaySplit(w, actions).queue);
    OneActiveThroughoutIff(w.queue, AllProjected(w, actions));
  }

  ghost predicate LeadsSplit(w: World, actions: seq<SplitAction>, v: World) {
    QueueInv(w.queue) && CanPlaySplit(w, actions) && PlaySplit(w, actions) == v
  }

  lemma LeadsSplitFirst(w: World, a: SplitAction, actions: seq<SplitAction>, v: World)
    requires QueueInv(w.queue) && CanTakeSplit(w, a) && LeadsSplit(NextSplit(w, a), actions, v)
    ensures LeadsSplit(w, [a] + actions, v)
  {
    assert ([a] + actions)[1..] == actions;
    NextSplitKeepsQueueInv(w, a);
  }

  lemma LookFindsNothing(w: World, session: nat, key: string)
    requires QueueInv(w.queue) && w.queue.rows == map[] && session !in w.sessions && key != ""
    ensures NextSplit(w, Look(session, Some(key))) == World(w.queue, w.sessions[session := Looked(Some(key), false)])
  {
    ActiveFoundIffPresent(w.queue.rows, w.queue.nextId, Some(key));
  }

  lemma SessionAdds(w: World, session: nat, taskType: string, key: string)
    requires QueueInv(w.queue) && session in w.sessions && w.sessions[session] == Looked(Some(key), false)
    ensures var one := NewTask(taskType, Some(key), None, 1, w.queue.now);
      var v := NextSplit(w, Add(session, taskType, None, 1));
      && QueueInv(v.queue) && v.sessions == w.sessions - {session}
      && v.queue == w.queue.(rows := w.queue.rows[w.queue.nextId := one], nextId := w.queue.nextId + 1)
  {
    NextSplitKeepsQueueInv(w, Add(session, taskType, None, 1));
  }

  lemma SecondSessionAdds(w: World, taskType: string, key: string) returns (v: World)
    requires QueueInv(w.queue) && key != "" && w.queue.rows == map[] && w.queue.nextId == 1
    requires w.sessions == map[1 := Looked(Some(key), false), 2 := Looked(Some(key), false)]
    ensures LeadsSplit(w, [Add(1, taskType, None, 1)] + ([Add(2, taskType, None, 1)] + []), v)
    ensures !OneActivePerKey(v.queue.rows)
  {
    SessionAdds(w, 1, taskType, key);
    var m := NextSplit(w, Add(1, taskType, None, 1));
    SessionAdds(m, 2, taskType, key);
    v := NextSplit(m, Add(2, taskType, None, 1));
    assert LeadsSplit(v, [], v);
    LeadsSplitFirst(m, Add(2, taskType, None, 1), [], v);
    LeadsSplitFirst(w, Add(1, taskType, None, 1), [Add(2, taskType, None, 1)] + [], v);
    assert IsActiveWithKey(v.queue.rows[1], key) && IsActiveWithKey(v.queue.rows[2], key);
  }

  lemma BothLook(now: int, key: string, last: seq<SplitAction>, v: World)
    requires key != "" && QueueInv(Start<Task>(now))
    requires var looked := map[1 := Looked(Some(key), false), 2 := Looked(Some(key), false)];
      LeadsSplit(World(Start<Task>(now), looked), last, v)
    ensures LeadsSplit(World(Start<Task>(now), map[]), [Look(1, Some(key))] + ([Look(2, Some(key))] + last), v)
  {
    var w0 := World(Start<Task>(now), map[]);
    LookFindsNothing(w0, 1, key);
    var w1 := NextSplit(w0, Look(1, Some(key)));
    LookFindsNothing(w1, 2, key);
    LeadsSplitFirst(w1, Look(2, Some(key)), last, v);
    LeadsSplitFirst(w0, Look(1, Some(key)), [Look(2, Some(key))] + last, v);
  }

  /** Two sessions that both look before either adds: a run that ends with two active tasks of one key. */
  lemma InterleavedEnqueuesDuplicate(now: int, taskType: string, key: string)
    requires key != ""
    ensures var start := World(Start<Task>(now), map[]);
      var actions := [Look(1, Some(key)), Look(2, Some(key)), Add(1, taskType, None, 1), Add(2, taskType, None, 1)];
      CanPlaySplit(start, actions) && !OneActivePerKey(PlaySplit(start, actions).queue.rows)
  {
    StartIsValid(now);
    var looked := World(Start<Task>(now), map[1 := Looked(Some(key), false), 2 := Looked(Some(key), false)]);
    var v := SecondSessionAdds(looked, taskType, key);
    var last := [Add(1, taskType, None, 1)] + ([Add(2, taskType, None, 1)] + []);
    BothLook(now, key, last, v);
    assert [Look(1, Some(key))] + ([Look(2, Some(key))] + last)
      == [Look(1, Some(key)), Look(2, Some(key)), Add(1, taskType, None, 1), Add(2, taskType, None, 1)];
  }

  // ---- bounded overtaking ----

  /** The pending tasks that the claim order puts before t. */
  ghost function Ahead(rows: Rows, t: nat): set<nat> {
    set u | u in rows && IsPending(rows[u]) && u != t && Earlier(rows)(u, t)
  }

  /** t stays the same pending task across the step, and is due already. */
  ghost predicate WaitsOver(s: State<Task>, u: State<Task>, t: nat) {
    t in s.rows && t in u.rows && s.rows[t] == u.rows[t] && IsPending(s.rows[t]) && s.rows[t].availableAt <= s.now
  }

  /** Being ahead of t is a matter of the two rows alone. */
  lemma AheadReadsTwoRows(rows: Rows, others: Rows, id: nat, t: nat)
    requires id in rows && id in others && t in rows && t in others && rows[id] == others[id] && rows[t] == others[t]
    ensures id in Ahead(rows, t) <==> id in Ahead(others, t)
  {
  }

  lemma AheadAfterMarking(rows: Rows, writes: Rows, t: nat)
    requires t in rows && t !in writes && writes.Keys <= rows.Keys
    requires forall id :: id in writes ==> !IsPending(writes[id])
    ensures Ahead(rows + writes, t) == Ahead(rows, t) - writes.Keys
  {
    forall id | id in rows && id !in writes ensures id in Ahead(rows + writes, t) <==> id in Ahead(rows, t) {
      AheadReadsTwoRows(rows, rows + writes, id, t);
    }
  }

  /** A row that is not pending, or is due later than t, or is new and due no earlier, is not ahead of t. */
  lemma AheadAfterWriting(rows: Rows, id: nat, row: Task, t: nat)
    requires t in rows && t != id
    requires !IsPending(row) || rows[t].availableAt < row.availableAt
      || (rows[t].availableAt == row.availableAt && t < id)
    ensures Ahead(rows[id := row], t) <= Ahead(rows, t)
  {
    forall x | x in Ahead(rows[id := row], t) && x != id ensures x in Ahead(rows, t) {
      AheadReadsTwoRows(rows, rows[id := row], x, t);
    }
  }

  lemma TameKeepsAhead(s: State<Task>, low: Action<Task>, t: nat)
    requires QueueInv(s) && Tame(s, low) && WaitsOver(s, Step(TASKS, s, low), t)
    ensures Ahead(Step(TASKS, s, low).rows, t) <= Ahead(s.rows, t)
  {
    match low
    case Insert(row) => AheadAfterWriting(s.rows, s.nextId, row, t);
    case Write(id, row) => AheadAfterWriting(s.rows, id, row, t);
    case Commit(tx) => CommitLeavesAhead(s, tx, t);
    case _ =>
  }

  /** No step puts a task ahead of a due pending one: later enqueues and retries line up behind it. */
  lemma NothingGetsAhead(s: State<Task>, a: QueueAction, t: nat)
    requires QueueInv(s) && CanTake(s, a) && WaitsOver(s, Next(s, a), t)
    ensures Ahead(Next(s, a).rows, t) <= Ahead(s.rows, t)
  {
    if Lower(s, a).Some? {
      LoweredIsTame(s, a);
      TameKeepsAhead(s, Lower(s, a).value, t);
    }
  }

  lemma CommitLeavesAhead(s: State<Task>, tx: nat, t: nat)
    requires QueueInv(s) && tx in s.open && t in s.rows && t !in s.open[tx].writes
    ensures Ahead(s.rows + s.open[tx].writes, t) == Ahead(s.rows, t) - s.open[tx].writes.Keys
  {
    assert TxOk(TASKS, s, s.open[tx]);
    AheadAfterMarking(s.rows, s.open[tx].writes, t);
  }

  /** A claim that met no locks took t, or took its full limit from the tasks ahead of t. */
  ghost predicate IsFair(s: State<Task>, x: Tx<Task>, t: nat) {
    x.alone ==> t in x.chosen || (|x.chosen| == x.limit && forall id :: id in x.chosen ==> id in Ahead(s.rows, t))
  }

  ghost predicate AllFair(s: State<Task>, t: nat) {
    forall tx :: tx in s.open ==> IsFair(s, s.open[tx], t)
  }

  /** In the claim order, what stands before t is ahead of t. */
  lemma EarlierInTheQueue(rows: Rows, queue: seq<nat>, k: nat, t: nat)
    requires k < |queue| && queue[k] == t && NoDuplicates(queue) && SortedBy(queue, Earlier(rows))
    requires forall id :: id in queue ==> id in rows && IsPending(rows[id])
    ensures forall i :: 0 <= i < k ==> queue[i] in Ahead(rows, t)
  {
    forall i | 0 <= i < k ensures queue[i] in Ahead(rows, t) {
      assert queue[i] in queue && queue[i] != queue[k] && Earlier(rows)(queue[i], queue[k]);
    }
  }

  /** What an unhindered selection takes: t, or as many as it may from the tasks ahead of t. */
  lemma SelectionIsFair(rows: Rows, nextId: nat, now: int, limit: nat, t: nat)
    requires t in rows && t < nextId && IsPending(rows[t]) && IsDue(rows[t], now)
    ensures var chosen := Selected(rows, nextId, {}, now, limit);
      t in chosen || (|chosen| == limit && forall id :: id in chosen ==> id in Ahead(rows, t))
  {
    var queue, chosen := Queue(rows, nextId, {}, now), Selected(rows, nextId, {}, now, limit);
    QueueMembers(rows, nextId, {}, now);
    assert Claimable(rows, {}, now)(t) && t in queue;
    var k :| 0 <= k < |queue| && queue[k] == t;
    EarlierInTheQueue(rows, queue, k, t);
    assert forall i :: 0 <= i < |chosen| ==> chosen[i] == queue[i] && chosen[i] in chosen;
    if t !in chosen {
      assert |chosen| == limit <= k;
      forall id | id in chosen ensures id in Ahead(rows, t) {
        var i :| 0 <= i < |chosen| && chosen[i] == id;
        assert queue[i] == id;
      }
    }
  }

  lemma AloneMeansUnlocked(s: State<Task>, a: QueueAction)
    requires QueueInv(s) && CanTake(s, a) && a.ClaimTasks? && Next(s, a).open[a.tx].alone
    ensures LockedIds(s) == {}
  {
    assert forall tx :: tx in s.open ==> s.open[tx].chosen == [];
  }

  lemma NewClaimIsFair(s: State<Task>, a: QueueAction, t: nat)
    requires QueueInv(s) && CanTake(s, a) && a.ClaimTasks? && WaitsOver(s, Next(s, a), t)
    ensures IsFair(Next(s, a), Next(s, a).open[a.tx], t)
  {
    if Next(s, a).open[a.tx].alone {
      AloneMeansUnlocked(s, a);
      SelectionIsFair(s.rows, s.nextId, s.now, a.limit, t);
    }
  }

  /** A step changes no row that another open claim holds. */
  lemma HeldRowsStay(s: State<Task>, low: Action<Task>, tx: nat, id: nat)
    requires QueueInv(s) && Enabled(TASKS, s, low)
    requires tx in s.open && tx in Step(TASKS, s, low).open && id in s.open[tx].chosen
    ensures id in s.rows && id in Step(TASKS, s, low).rows && Step(TASKS, s, low).rows[id] == s.rows[id]
  {
    assert TxOk(TASKS, s, s.open[tx]);
    match low
    case Commit(ux) =>
      assert TxOk(TASKS, s, s.open[ux]);
      assert id !in s.open[ux].writes;
    case Write(x, _) => assert IsLocked(s, id);
    case _ =>
  }

  /** Fairness to t is a matter of the claim's own rows and t. */
  lemma OldClaimStaysFair(s: State<Task>, u: State<Task>, x: Tx<Task>, t: nat)
    requires t in s.rows && t in u.rows && s.rows[t] == u.rows[t] && IsFair(s, x, t)
    requires forall id :: id in x.chosen ==> id in s.rows && id in u.rows && s.rows[id] == u.rows[id]
    ensures IsFair(u, x, t)
  {
    forall id | id in x.chosen && id in Ahead(s.rows, t) ensures id in Ahead(u.rows, t) {
      AheadReadsTwoRows(s.rows, u.rows, id, t);
    }
  }

  lemma OldClaimsStayFair(s: State<Task>, low: Action<Task>, t: nat)
    requires QueueInv(s) && Enabled(TASKS, s, low) && WaitsOver(s, Step(TASKS, s, low), t) && AllFair(s, t)
    ensures var u := Step(TASKS, s, low);
      forall tx :: tx in u.open && !(low.Claim? && tx == low.tx) ==> IsFair(u, u.open[tx], t)
  {
    var u := Step(TASKS, s, low);
    forall tx | tx in u.open && !(low.Claim? && tx == low.tx) ensures IsFair(u, u.open[tx], t) {
      assert tx in s.open && u.open[tx] == s.open[tx];
      forall id | id in s.open[tx].chosen ensures id in s.rows && id in u.rows && s.rows[id] == u.rows[id] {
        HeldRowsStay(s, low, tx, id);
      }
      OldClaimStaysFair(s, u, s.open[tx], t);
    }
  }

  lemma NextKeepsFair(s: State<Task>, a: QueueAction, t: nat)
    requires QueueInv(s) && CanTake(s, a) && WaitsOver(s, Next(s, a), t) && AllFair(s, t)
    ensures AllFair(Next(s, a), t)
  {
    if Lower(s, a).Some? {
      LoweredIsTame(s, a);
      OldClaimsStayFair(s, Lower(s, a).value, t);
      if a.ClaimTasks? { NewClaimIsFair(s, a, t); }
    }
  }

  function Elements(s: seq<nat>): set<nat> {
    set x | x in s
  }

  lemma {:induction false} DistinctSize(s: seq<nat>)
    requires NoDuplicates(s)
    ensures |Elements(s)| == |s|
  {
    if s != [] {
      DistinctSize(s[1..]);
      assert s[0] !in Elements(s[1..]);
      assert Elements(s) == Elements(s[1..]) + {s[0]};
    }
  }

  /** Committing a claim that met no locks removes its limit from the tasks ahead of t. */
  lemma CommitServesTheFront(s: State<Task>, a: QueueAction, t: nat)
    requires QueueInv(s) && CanTake(s, a) && a.CommitTx? && s.open[a.tx].alone
    requires WaitsOver(s, Next(s, a), t) && AllFair(s, t)
    ensures |Ahead(Next(s, a).rows, t)| == |Ahead(s.rows, t)| - s.open[a.tx].limit
  {
    var x := s.open[a.tx];
    assert TxOk(TASKS, s, x) && IsFair(s, x, t);
    assert t !in x.writes;
    assert x.writes.Keys == Elements(x.chosen);
    CommitLeavesAhead(s, a.tx, t);
    DistinctSize(x.chosen);
    assert x.writes.Keys <= Ahead(s.rows, t);
  }

  /** t is the same due pending task in every state of the run. */
  ghost predicate WaitsThrough(s: State<Task>, actions: seq<QueueAction>, t: nat)
    requires QueueInv(s) && CanPlay(s, actions)
    decreases |actions|
  {
    actions == [] ||
    (NextKeepsQueueInv(s, actions[0]);
     WaitsOver(s, Next(s, actions[0]), t) && WaitsThrough(Next(s, actions[0]), actions[1..], t))
  }

  /** The limits of the committed claims that met no locks, added up. */
  ghost function Served(s: State<Task>, actions: seq<QueueAction>): nat
    requires QueueInv(s) && CanPlay(s, actions)
    decreases |actions|
  {
    if actions == [] then 0
    else
      NextKeepsQueueInv(s, actions[0]);
      (if actions[0].CommitTx? && s.open[actions[0].tx].alone then s.open[actions[0].tx].limit else 0)
      + Served(Next(s, actions[0]), actions[1..])
  }

  lemma {:induction false} WaitingShrinksTheFront(s: State<Task>, actions: seq<QueueAction>, t: nat)
    requires QueueInv(s) && CanPlay(s, actions) && WaitsThrough(s, actions, t) && AllFair(s, t)
    ensures Served(s, actions) + |Ahead(Play(s, actions).rows, t)| <= |Ahead(s.rows, t)|
    decreases |actions|
  {
    if actions != [] {
      var a := actions[0];
      var u := Next(s, a);
      NextKeepsQueueInv(s, a);
      NextKeepsFair(s, a, t);
      WaitingShrinksTheFront(u, actions[1..], t);
      if a.CommitTx? && s.open[a.tx].alone {
        CommitServesTheFront(s, a, t);
      } else {
        NothingGetsAhead(s, a, t);
        SubsetSize(Ahead(u.rows, t), Ahead(s.rows, t));
      }
    }
  }

  lemma {:induction false} SubsetSize(a: set<nat>, b: set<nat>)
    requires a <= b
    ensures |a| <= |b|
  {
    assert b == a + (b - a);
  }

  /**
   Bounded overtaking: a due pending task is passed over by committed lock-free claims only as long as their
   limits add up to no more than the tasks that were ahead of it at the start.
  */
  lemma OvertakingIsBounded(s: State<Task>, actions: seq<QueueAction>, t: nat)
    requires QueueInv(s) && s.open == map[] && CanPlay(s, actions) && WaitsThrough(s, actions, t)
    ensures Served(s, actions) <= |Ahead(s.rows, t)|
  {
    WaitingShrinksTheFront(s, actions, t);
  }
}
