/**
 Interleaved transactions that claim rows with SELECT ... FOR UPDATE SKIP LOCKED, mark them and commit or
 roll back. The protocol is shared by the background tasks and the BOM queue, which differ in what a row is,
 when it may be claimed and how it is marked.
*/
module SkipLocked {
  import opened Sorting

  /** The row ids 0, 1, ..., n - 1. */
  function Ids(n: nat): seq<nat> {
    seq(n, i => i)
  }

  /** What a queue says about its rows: may be claimed at all, is due at an instant, is marked as claimed. */
  datatype Discipline<!R> = Discipline(claimable: R -> bool, due: (R, int) -> bool, mark: (R, string, int) -> R)

  /** A marked row may not be claimed again. */
  ghost predicate Lawful<R(!new)>(d: Discipline<R>) {
    forall r, worker, now :: d.claimable(r) && d.due(r, now) ==> !d.claimable(d.mark(r, worker, now))
  }

  /** An open claim: the rows it locks, its private writes, its clock and whether it met no other locks. */
  datatype Tx<R> = Tx(chosen: seq<nat>, writes: map<nat, R>, at: int, limit: nat, alone: bool)

  datatype Event = Claimed(id: nat) | Reopened(id: nat)

  /** The committed rows, the open claims, the clock and the history of committed events. */
  datatype State<R> = State(rows: map<nat, R>, nextId: nat, open: map<nat, Tx<R>>, now: int, log: seq<Event>)

  datatype Action<R> =
    | Insert(row: R)
    | Claim(tx: nat, worker: string, chosen: seq<nat>, limit: nat)
    | Commit(tx: nat)
    | Rollback(tx: nat)
    | Write(id: nat, row: R)
    | Tick(to: int)

  ghost predicate IsLocked<R>(s: State<R>, id: nat) {
    exists tx :: tx in s.open && id in s.open[tx].chosen
  }

  /** A claim skips locked rows; any other write waits for the lock. */
  ghost predicate Enabled<R>(d: Discipline<R>, s: State<R>, a: Action<R>) {
    match a
    case Insert(_) => true
    case Claim(tx, _, chosen, limit) =>
      && tx !in s.open && NoDuplicates(chosen) && |chosen| <= limit
      && forall i :: 0 <= i < |chosen| ==>
           && chosen[i] in s.rows && !IsLocked(s, chosen[i])
           && d.claimable(s.rows[chosen[i]]) && d.due(s.rows[chosen[i]], s.now)
    case Commit(tx) => tx in s.open
    case Rollback(tx) => tx in s.open
    case Write(id, _) => id in s.rows && !IsLocked(s, id)
    case Tick(to) => s.now <= to
  }

  function Claims(chosen: seq<nat>): seq<Event> {
    seq(|chosen|, i requires 0 <= i < |chosen| => Claimed(chosen[i]))
  }

  ghost function Step<R>(d: Discipline<R>, s: State<R>, a: Action<R>): State<R>
    requires Enabled(d, s, a)
  {
    match a
    case Insert(row) => s.(rows := s.rows[s.nextId := row], nextId := s.nextId + 1)
    case Claim(tx, worker, chosen, limit) =>
      var writes := map id | id in chosen :: d.mark(s.rows[id], worker, s.now);
      s.(open := s.open[tx := Tx(chosen, writes, s.now, limit, forall ux :: ux in s.open ==> s.open[ux].chosen == [])])
    case Commit(tx) =>
      s.(rows := s.rows + s.open[tx].writes, open := s.open - {tx}, log := s.log + Claims(s.open[tx].chosen))
    case Rollback(tx) => s.(open := s.open - {tx})
    case Write(id, row) =>
      s.(rows := s.rows[id := row],
         log := s.log + if !d.claimable(s.rows[id]) && d.claimable(row) then [Reopened(id)] else [])
    case Tick(to) => s.(now := to)
  }

  // ---- the invariant ----

  /** Between two claims of a row there is an event that made it claimable again. */
  ghost predicate Alternates(log: seq<Event>) {
    forall i, j :: 0 <= i < j < |log| && log[i].Claimed? && log[i] == log[j] ==> ReopenedIn(log, log[i].id, i, j)
  }

  ghost predicate ReopenedIn(log: seq<Event>, id: nat, from: int, to: int) {
    exists k :: from < k < to && 0 <= k < |log| && log[k] == Reopened(id)
  }

  /** A row claimed and not reopened since is not claimable now. */
  ghost predicate ClaimsStand<R>(d: Discipline<R>, s: State<R>) {
    forall i :: 0 <= i < |s.log| && s.log[i].Claimed? && !ReopenedIn(s.log, s.log[i].id, i, |s.log|) ==>
      s.log[i].id in s.rows && !d.claimable(s.rows[s.log[i].id])
  }

  ghost predicate TxOk<R>(d: Discipline<R>, s: State<R>, t: Tx<R>) {
    && NoDuplicates(t.chosen)
    && (forall id :: id in t.writes <==> id in t.chosen)
    && forall id :: id in t.chosen ==> id in s.rows && d.claimable(s.rows[id]) && !d.claimable(t.writes[id])
  }

  ghost predicate Inv<R>(d: Discipline<R>, s: State<R>) {
    && (forall id :: id in s.rows ==> id < s.nextId)
    && (forall tx :: tx in s.open ==> TxOk(d, s, s.open[tx]))
    && (forall tx, ux, id :: tx in s.open && ux in s.open && tx != ux && id in s.open[tx].chosen ==>
         id !in s.open[ux].chosen)
    && Alternates(s.log) && ClaimsStand(d, s)
  }

  lemma LogGrows(log: seq<Event>, more: seq<Event>, id: nat, from: int, to: int)
    requires to <= |log| && ReopenedIn(log, id, from, to)
    ensures ReopenedIn(log + more, id, from, to) && ReopenedIn(log + more, id, from, |log + more|)
  {
    var k :| from < k < to && 0 <= k < |log| && log[k] == Reopened(id);
    assert (log + more)[k] == Reopened(id);
  }

  /** Rows that are claimable may be claimed once each without breaking the alternation. */
  lemma ClaimingKeepsAlternation<R>(d: Discipline<R>, s: State<R>, chosen: seq<nat>)
    requires Alternates(s.log) && ClaimsStand(d, s) && NoDuplicates(chosen)
    requires forall id :: id in chosen ==> id in s.rows && d.claimable(s.rows[id])
    ensures Alternates(s.log + Claims(chosen))
  {
    var n, log := |s.log|, s.log + Claims(chosen);
    forall i, j | 0 <= i < j < |log| && log[i].Claimed? && log[i] == log[j] ensures ReopenedIn(log, log[i].id, i, j) {
      if j < n {
        LogGrows(s.log, Claims(chosen), log[i].id, i, j);
      } else {
        assert log[j] == Claimed(chosen[j - n]) && chosen[j - n] in chosen;
        if i < n {
          assert s.log[i] == log[i];
          var k :| i < k < n && s.log[k] == Reopened(log[i].id);
          assert log[k] == Reopened(log[i].id);
        }
      }
    }
  }

  lemma CommitKeepsInv<R(!new)>(d: Discipline<R>, s: State<R>, tx: nat)
    requires Inv(d, s) && tx in s.open
    ensures Inv(d, Step(d, s, Commit(tx)))
  {
    var t, u := s.open[tx], Step(d, s, Action<R>.Commit(tx));
    ClaimingKeepsAlternation(d, s, t.chosen);
    forall i | 0 <= i < |u.log| && u.log[i].Claimed? && !ReopenedIn(u.log, u.log[i].id, i, |u.log|)
      ensures u.log[i].id in u.rows && !d.claimable(u.rows[u.log[i].id])
    {
      if i < |s.log| {
        if ReopenedIn(s.log, s.log[i].id, i, |s.log|) { LogGrows(s.log, Claims(t.chosen), s.log[i].id, i, |s.log|); }
      } else {
        assert u.log[i].id == t.chosen[i - |s.log|] && u.log[i].id in t.chosen;
      }
    }
    forall ux | ux in u.open ensures TxOk(d, u, u.open[ux]) {
      forall id | id in u.open[ux].chosen ensures id in u.rows && u.rows[id] == s.rows[id] {
        assert id !in t.chosen;
      }
    }
  }

  lemma WriteKeepsInv<R(!new)>(d: Discipline<R>, s: State<R>, id: nat, row: R)
    requires Inv(d, s) && id in s.rows && !IsLocked(s, id)
    ensures Inv(d, Step(d, s, Write(id, row)))
  {
    var u := Step(d, s, Write(id, row));
    var more := u.log[|s.log|..];
    assert u.log == s.log + more;
    assert more != [] ==> u.log[|s.log|] == Reopened(id);
    forall i, j | 0 <= i < j < |u.log| && u.log[i].Claimed? && u.log[i] == u.log[j]
      ensures ReopenedIn(u.log, u.log[i].id, i, j)
    {
      assert s.log[i] == u.log[i] && s.log[j] == u.log[j];
      LogGrows(s.log, more, s.log[i].id, i, j);
    }
    forall i | 0 <= i < |u.log| && u.log[i].Claimed? && !ReopenedIn(u.log, u.log[i].id, i, |u.log|)
      ensures u.log[i].id in u.rows && !d.claimable(u.rows[u.log[i].id])
    {
      assert s.log[i] == u.log[i];
      if ReopenedIn(s.log, s.log[i].id, i, |s.log|) { LogGrows(s.log, more, s.log[i].id, i, |s.log|); }
    }
    forall tx | tx in u.open ensures TxOk(d, u, u.open[tx]) {
      assert id !in s.open[tx].chosen;
    }
  }

  lemma ClaimKeepsInv<R(!new)>(d: Discipline<R>, s: State<R>, a: Action<R>)
    requires Lawful(d) && Inv(d, s) && a.Claim? && Enabled(d, s, a)
    ensures Inv(d, Step(d, s, a))
  {
    var u := Step(d, s, a);
    forall id | id in a.chosen
      ensures id in s.rows && !IsLocked(s, id) && d.claimable(s.rows[id]) && d.due(s.rows[id], s.now)
    {
      var i :| 0 <= i < |a.chosen| && a.chosen[i] == id;
    }
    assert TxOk(d, u, u.open[a.tx]);
    forall tx | tx in s.open ensures TxOk(d, u, u.open[tx]) {
      assert TxOk(d, s, s.open[tx]);
    }
    forall tx, ux, id | tx in u.open && ux in u.open && tx != ux && id in u.open[tx].chosen
      ensures id !in u.open[ux].chosen
    {
      if tx == a.tx { assert !IsLocked(s, id); }
      if ux == a.tx { assert IsLocked(s, id); }
    }
  }

  lemma StepKeepsInv<R(!new)>(d: Discipline<R>, s: State<R>, a: Action<R>)
    requires Lawful(d) && Inv(d, s) && Enabled(d, s, a)
    ensures Inv(d, Step(d, s, a))
  {
    match a
    case Claim(_, _, _, _) => ClaimKeepsInv(d, s, a);
    case Commit(tx) => CommitKeepsInv(d, s, tx);
    case Write(id, row) => WriteKeepsInv(d, s, id, row);
    case _ =>
      var u := Step(d, s, a);
      assert u.log == s.log && forall id :: id in s.rows ==> id in u.rows && u.rows[id] == s.rows[id];
  }

  // ---- runs ----

  ghost predicate CanRun<R>(d: Discipline<R>, s: State<R>, actions: seq<Action<R>>)
    decreases |actions|
  {
    actions == [] || (Enabled(d, s, actions[0]) && CanRun(d, Step(d, s, actions[0]), actions[1..]))
  }

  ghost function Run<R>(d: Discipline<R>, s: State<R>, actions: seq<Action<R>>): State<R>
    requires CanRun(d, s, actions)
    decreases |actions|
  {
    if actions == [] then s else Run(d, Step(d, s, actions[0]), actions[1..])
  }

  ghost function Start<R>(now: int): State<R> {
    State(map[], 1, map[], now, [])
  }

  lemma {:induction false} RunKeepsInv<R(!new)>(d: Discipline<R>, s: State<R>, actions: seq<Action<R>>)
    requires Lawful(d) && Inv(d, s) && CanRun(d, s, actions)
    ensures Inv(d, Run(d, s, actions))
    decreases |actions|
  {
    if actions != [] {
      StepKeepsInv(d, s, actions[0]);
      RunKeepsInv(d, Step(d, s, actions[0]), actions[1..]);
    }
  }

  /**
   In every interleaving of inserts, claims, commits, rollbacks and writes by any number of workers: no row is
   held by two open claims, and no row is claimed twice unless it was made claimable in between.
  */
  lemma NoRowIsClaimedTwice<R(!new)>(d: Discipline<R>, now: int, actions: seq<Action<R>>)
    requires Lawful(d) && CanRun(d, Start<R>(now), actions)
    ensures var s := Run(d, Start<R>(now), actions);
      && Alternates(s.log)
      && forall tx, ux, id :: tx in s.open && ux in s.open && tx != ux && id in s.open[tx].chosen ==>
        id !in s.open[ux].chosen
  {
    RunKeepsInv(d, Start<R>(now), actions);
  }
}
