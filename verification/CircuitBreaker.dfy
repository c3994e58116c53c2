/**
 The circuit breaker shared by all requests to a service, and the retry loop of one request
 (app/integration/http_client.py).
*/
module CircuitBreaker {
  import opened Prelude
  import opened Sorting

  const FAILURE_THRESHOLD := 5

  const COOLDOWN_SECONDS := 60.0

  datatype Status = Closed | Open | HalfOpen

  datatype Circuit = Circuit(failures: nat, lastFailure: real, status: Status)

  const NEW_CIRCUIT := Circuit(0, 0.0, Closed)

  /** _check_circuit raises when this holds. */
  predicate Refuses(c: Circuit, now: real) {
    c.status == Open && now - c.lastFailure < COOLDOWN_SECONDS
  }

  function AfterCheck(c: Circuit, now: real): Circuit {
    if c.status == Open && now - c.lastFailure >= COOLDOWN_SECONDS then c.(status := HalfOpen) else c
  }

  function AfterResult(c: Circuit, success: bool, now: real): Circuit {
    if success then c.(failures := 0, status := Closed)
    else Circuit(c.failures + 1, now, if c.failures + 1 >= FAILURE_THRESHOLD then Open else c.status)
  }

  /** The module-level dict of circuit states. */
  class CircuitRegistry {
    var states: map<string, Circuit>

    constructor ()
      ensures states == map[]
    {
      states := map[];
    }

    function StateOf(service: string): Circuit
      reads this
    {
      if service in states then states[service] else NEW_CIRCUIT
    }

    method CheckCircuit(service: string, now: real) returns (allowed: bool)
      modifies this
      ensures allowed <==> !Refuses(old(StateOf(service)), now)
      ensures StateOf(service) == AfterCheck(old(StateOf(service)), now)
      ensures forall other :: other != service ==> StateOf(other) == old(StateOf(other))
    {
      if service !in states || states[service].status == Closed { return true; }
      var c := states[service];
      if c.status == Open {
        if now - c.lastFailure >= COOLDOWN_SECONDS {
          states := states[service := c.(status := HalfOpen)];
          return true;
        }
        return false;
      }
      return true;
    }

    method RecordCircuitResult(service: string, success: bool, now: real)
      modifies this
      ensures StateOf(service) == AfterResult(old(StateOf(service)), success, now)
      ensures forall other :: other != service ==> StateOf(other) == old(StateOf(other))
    {
      if service !in states { states := states[service := NEW_CIRCUIT]; }
      var c := states[service];
      if success {
        c := c.(failures := 0, status := Closed);
      } else {
        c := c.(failures := c.failures + 1, lastFailure := now);
        if c.failures >= FAILURE_THRESHOLD { c := c.(status := Open); }
      }
      states := states[service := c];
    }

    /** One request: `outcome(k)` is what its k-th attempt meets. */
    method Request(service: string, maxRetries: int, retryStatuses: set<int>, outcome: int -> Outcome, startedAt: real,
                   endedAt: real)
      returns (result: Result, attempts: nat)
      modifies this
      ensures Refuses(old(StateOf(service)), startedAt) <==> result == CircuitOpen
      ensures result == CircuitOpen ==> attempts == 0 && StateOf(service) == old(StateOf(service))
      ensures result != CircuitOpen ==>
        && EndsWith(result, attempts, maxRetries, retryStatuses, outcome)
        && StateOf(service) == (var checked := AfterCheck(old(StateOf(service)), startedAt);
             if Recorded(result).Some? then AfterResult(checked, Recorded(result).value, endedAt) else checked)
      ensures forall other :: other != service ==> StateOf(other) == old(StateOf(other))
    {
      var allowed := CheckCircuit(service, startedAt);
      if !allowed { return CircuitOpen, 0; }
      var attempt := 1;
      while attempt < maxRetries + 2
        invariant attempt == 1 || 1 <= attempt <= maxRetries + 1
        invariant forall k :: 1 <= k < attempt ==> k <= maxRetries && IsRetryable(outcome(k), retryStatuses)
        invariant StateOf(service) == AfterCheck(old(StateOf(service)), startedAt)
        invariant forall other :: other != service ==> StateOf(other) == old(StateOf(other))
        decreases maxRetries + 2 - attempt
      {
        match outcome(attempt) {
          case Response(status) =>
            if status in retryStatuses && attempt <= maxRetries {
              attempt := attempt + 1;
              continue;
            }
            if IsSuccess(status) {
              RecordCircuitResult(service, true, endedAt);
            } else {
              RecordCircuitResult(service, false, endedAt);
            }
            return Returned(status), attempt;
          case RequestError =>
            if attempt <= maxRetries {
              attempt := attempt + 1;
              continue;
            }
            RecordCircuitResult(service, false, endedAt);
            return RaisedRequestError, attempt;
          case OtherError =>
            return RaisedOther, attempt;
        }
      }
      return Unexpected, attempt - 1;
    }
  }

  // ---- one request ----

  /** A reply, an httpx.RequestError, or any other exception, which is neither retried nor recorded. */
  datatype Outcome = Response(status: int) | RequestError | OtherError

  datatype Result = Returned(status: int) | RaisedRequestError | RaisedOther | CircuitOpen | Unexpected

  predicate IsSuccess(status: int) { 200 <= status <= 299 }

  predicate IsRetryable(o: Outcome, retryStatuses: set<int>) {
    o.RequestError? || (o.Response? && o.status in retryStatuses)
  }

  /** The outcome a request reports to the breaker: none unless it ends in a response or a RequestError. */
  function Recorded(result: Result): Option<bool> {
    match result
    case Returned(status) => Some(IsSuccess(status))
    case RaisedRequestError => Some(false)
    case _ => None
  }

  /** A status from 200 to 299 is reported as a success, any other status and a RequestError as a failure. */
  lemma RecordedExactly(result: Result)
    ensures Recorded(result) == Some(true) <==> result.Returned? && 200 <= result.status < 300
    ensures Recorded(result) == Some(false) <==>
      result == RaisedRequestError || (result.Returned? && !(200 <= result.status < 300))
  {
  }

  /** How a request may end: all attempts but the last were retryable, and the last one decides. */
  ghost predicate EndsWith(result: Result, attempts: nat, maxRetries: int, retryStatuses: set<int>,
                           outcome: int -> Outcome) {
    && (forall k :: 1 <= k < attempts ==>
         outcome(k) == RequestError || (outcome(k).Response? && outcome(k).status in retryStatuses))
    && (result == Unexpected <==> maxRetries < 0)
    && (if maxRetries < 0 then attempts == 0 else 1 <= attempts <= maxRetries + 1)
    && (attempts > 0 ==>
         match outcome(attempts)
         case Response(status) => result == Returned(status) && (status in retryStatuses ==> attempts == maxRetries + 1)
         case RequestError => result == RaisedRequestError && attempts == maxRetries + 1
         case OtherError => result == RaisedOther)
  }

  /** What the attempts from this one on lead to: the first that is not to be retried decides. */
  function End(attempt: nat, maxRetries: int, retryStatuses: set<int>, outcome: int -> Outcome): (Result, nat)
    requires 1 <= attempt <= maxRetries + 1
    decreases maxRetries - attempt
  {
    if attempt <= maxRetries && IsRetryable(outcome(attempt), retryStatuses) then
      End(attempt + 1, maxRetries, retryStatuses, outcome)
    else
      match outcome(attempt)
      case Response(status) => (Returned(status), attempt)
      case RequestError => (RaisedRequestError, attempt)
      case OtherError => (RaisedOther, attempt)
  }

  lemma {:induction false} EndEnds(attempt: nat, maxRetries: int, retryStatuses: set<int>, outcome: int -> Outcome)
    requires 1 <= attempt <= maxRetries + 1
    requires forall k :: 1 <= k < attempt ==> IsRetryable(outcome(k), retryStatuses)
    ensures var end := End(attempt, maxRetries, retryStatuses, outcome);
      EndsWith(end.0, end.1, maxRetries, retryStatuses, outcome)
    decreases maxRetries - attempt
  {
    if attempt <= maxRetries && IsRetryable(outcome(attempt), retryStatuses) {
      EndEnds(attempt + 1, maxRetries, retryStatuses, outcome);
    }
  }

  lemma EndsAgree(r: Result, n: nat, q: Result, m: nat, maxRetries: int, retryStatuses: set<int>,
                  outcome: int -> Outcome)
    requires EndsWith(r, n, maxRetries, retryStatuses, outcome) && EndsWith(q, m, maxRetries, retryStatuses, outcome)
    ensures r == q && n == m
  {
    assert 0 < n < m ==> IsRetryable(outcome(n), retryStatuses);
    assert 0 < m < n ==> IsRetryable(outcome(m), retryStatuses);
  }

  /** What a request promises of its end leaves exactly one end possible, the one its attempts lead to. */
  lemma RequestEndIsDetermined(r: Result, n: nat, maxRetries: int, retryStatuses: set<int>, outcome: int -> Outcome)
    requires maxRetries >= 0
    ensures EndsWith(r, n, maxRetries, retryStatuses, outcome) <==> (r, n) == End(1, maxRetries, retryStatuses, outcome)
  {
    var end := End(1, maxRetries, retryStatuses, outcome);
    EndEnds(1, maxRetries, retryStatuses, outcome);
    if EndsWith(r, n, maxRetries, retryStatuses, outcome) {
      EndsAgree(r, n, end.0, end.1, maxRetries, retryStatuses, outcome);
    }
  }

  // ---- interleaved requests ----

  /** What happens to the circuit of one service, in the order it happens. */
  datatype Event =
    | Checked(request: nat, at: real)
    | Sent(request: nat, at: real)
    | Reported(request: nat, success: bool, at: real)

  predicate IsFailure(e: Event) { e.Reported? && !e.success }

  function AfterEvent(c: Circuit, e: Event): Circuit {
    match e
    case Checked(_, at) => AfterCheck(c, at)
    case Sent(_, _) => c
    case Reported(_, success, at) => AfterResult(c, success, at)
  }

  function After(events: seq<Event>): Circuit {
    if events == [] then NEW_CIRCUIT else AfterEvent(After(events[..|events| - 1]), events[|events| - 1])
  }

  lemma AfterGrows(events: seq<Event>, e: Event)
    ensures After(events + [e]) == AfterEvent(After(events), e)
  {
    assert (events + [e])[..|events|] == events;
  }

  /** The position just after the last success. */
  function SinceSuccess(events: seq<Event>): (k: nat)
    ensures k <= |events|
    ensures forall i :: k <= i < |events| ==> !(events[i].Reported? && events[i].success)
    ensures k > 0 ==> events[k - 1].Reported? && events[k - 1].success
  {
    if events == [] then 0
    else
      var n := |events| - 1;
      if events[n].Reported? && events[n].success then n + 1
      else
        assert forall i :: 0 <= i < n ==> events[..n][i] == events[i];
        SinceSuccess(events[..n])
  }

  /** The failures reported since the last success. */
  function Failures(events: seq<Event>): nat {
    |Filter(events[SinceSuccess(events)..], IsFailure)|
  }

  function LastFailureAt(events: seq<Event>): real {
    if events == [] then 0.0
    else
      var n := |events| - 1;
      if IsFailure(events[n]) then events[n].at else LastFailureAt(events[..n])
  }

  ghost predicate ClockRuns(events: seq<Event>) {
    forall i, j :: 0 <= i < j < |events| ==> events[i].at <= events[j].at
  }

  lemma FailuresExtend(before: seq<Event>, e: Event)
    ensures Failures(before + [e]) ==
      if e.Reported? && e.success then 0 else Failures(before) + if IsFailure(e) then 1 else 0
    ensures LastFailureAt(before + [e]) == if IsFailure(e) then e.at else LastFailureAt(before)
  {
    var events := before + [e];
    assert events[..|events| - 1] == before;
    if e.Reported? && e.success {
      assert events[SinceSuccess(events)..] == [];
    } else {
      var k := SinceSuccess(before);
      assert SinceSuccess(events) == k;
      assert events[k..] == before[k..] + [e];
      FilterConcat(before[k..], [e], IsFailure);
      assert Filter([e], IsFailure) == if IsFailure(e) then [e] else [];
    }
  }

  lemma {:induction false} CircuitCountsFailures(events: seq<Event>)
    ensures var c := After(events);
      && c.failures == Failures(events) && c.lastFailure == LastFailureAt(events)
      && (c.status == Closed <==> Failures(events) < 5)
  {
    if events != [] {
      var n := |events| - 1;
      CircuitCountsFailures(events[..n]);
      assert events == events[..n] + [events[n]];
      FailuresExtend(events[..n], events[n]);
    }
  }

  lemma {:induction false} HalfOpenOnlyAfterCooldown(events: seq<Event>)
    requires ClockRuns(events) && After(events).status == HalfOpen
    ensures events != [] && events[|events| - 1].at - After(events).lastFailure >= 60.0
  {
    var n := |events| - 1;
    if After(events[..n]).status == HalfOpen {
      HalfOpenOnlyAfterCooldown(events[..n]);
      CircuitCountsFailures(events[..n]);
    }
  }

  /** A check sixty seconds or more after the last failure, with no report after it. */
  ghost predicate HasProbe(events: seq<Event>) {
    exists i :: IsProbe(events, i)
  }

  ghost predicate IsProbe(events: seq<Event>, i: int) {
    && 0 <= i < |events| && events[i].Checked? && events[i].at - LastFailureAt(events) >= 60.0
    && forall j :: i < j < |events| ==> !events[j].Reported?
  }

  lemma ProbesExtend(before: seq<Event>, e: Event)
    ensures HasProbe(before + [e]) <==>
      !e.Reported? && (HasProbe(before) || (e.Checked? && e.at - LastFailureAt(before) >= 60.0))
  {
    var events, n := before + [e], |before|;
    FailuresExtend(before, e);
    if i :| IsProbe(events, i) {
      assert i < n ==> events[i] == before[i] && events[n] == e;
      assert forall j :: i < j < n ==> before[j] == events[j];
      assert i < n ==> IsProbe(before, i);
    }
    if !e.Reported? {
      if i :| IsProbe(before, i) {
        assert forall j :: i < j < |events| ==> events[j] == if j < n then before[j] else e;
        assert IsProbe(events, i);
      }
      if e.Checked? && e.at - LastFailureAt(before) >= 60.0 { assert IsProbe(events, n); }
    }
  }

  /** The circuit is half open exactly after five failures and a probe: a check past the cooldown, not yet reported. */
  lemma {:induction false} HalfOpenExactly(events: seq<Event>)
    ensures After(events).status == HalfOpen <==> Failures(events) >= 5 && HasProbe(events)
  {
    if events != [] {
      var n := |events| - 1;
      var before, e := events[..n], events[n];
      assert events == before + [e];
      HalfOpenExactly(before);
      CircuitCountsFailures(before);
      FailuresExtend(before, e);
      ProbesExtend(before, e);
    }
  }

  /**
   In every interleaving of any number of requests under a running clock, a check refuses exactly when five or
   more failures were reported since the last success and the last failure is less than sixty seconds old.
  */
  lemma RefusesExactlyWhileCooling(events: seq<Event>, now: real)
    requires ClockRuns(events) && (events != [] ==> events[|events| - 1].at <= now)
    ensures Refuses(After(events), now) <==>
      (Failures(events) >= 5 && now - LastFailureAt(events) < 60.0)
  {
    CircuitCountsFailures(events);
    if After(events).status == HalfOpen {
      HalfOpenOnlyAfterCooldown(events);
    }
  }

  ghost predicate Cooling(events: seq<Event>, now: real) {
    Failures(events) >= 5 && now - LastFailureAt(events) < 60.0
  }

  lemma {:induction false} WithoutFailuresNothingCools(events: seq<Event>, c: nat, i: nat)
    requires c <= i <= |events| && forall k :: c <= k < i ==> !IsFailure(events[k])
    ensures Failures(events[..i]) <= Failures(events[..c])
    ensures LastFailureAt(events[..i]) == LastFailureAt(events[..c])
    decreases i
  {
    if c < i {
      WithoutFailuresNothingCools(events, c, i - 1);
      assert events[..i] == events[..i - 1] + [events[i - 1]];
      FailuresExtend(events[..i - 1], events[i - 1]);
    }
  }

  predicate IsSuccessReport(e: Event) { e.Reported? && e.success }

  lemma {:induction false} WithoutSuccessesCoolingLasts(events: seq<Event>, a: nat, i: nat)
    requires ClockRuns(events) && 0 < a <= i <= |events| && IsFailure(events[a - 1])
    requires forall k :: a <= k < i ==> !IsSuccessReport(events[k])
    ensures Failures(events[..i]) >= Failures(events[..a])
    ensures LastFailureAt(events[..i]) >= events[a - 1].at
    decreases i
  {
    assert events[..i] == events[..i - 1] + [events[i - 1]];
    FailuresExtend(events[..i - 1], events[i - 1]);
    if a < i { WithoutSuccessesCoolingLasts(events, a, i - 1); }
  }

  /** Failure k came after position c, left the breaker open, is under sixty seconds old and no success followed. */
  ghost predicate TrippedBy(events: seq<Event>, c: nat, i: nat, k: nat)
    requires i < |events|
  {
    && c < k < i && IsFailure(events[k]) && After(events[..k + 1]).status == Open
    && events[i].at - events[k].at < 60.0
    && forall j :: k < j < i ==> !IsSuccessReport(events[j])
  }

  lemma OpenAfterFive(events: seq<Event>)
    requires After(events).status == Open
    ensures Failures(events) >= 5
  {
    CircuitCountsFailures(events);
  }

  lemma CoolsSince(events: seq<Event>, i: nat, k: nat)
    requires ClockRuns(events) && k < i < |events| && IsFailure(events[k]) && events[i].at - events[k].at < 60.0
    requires Failures(events[..k + 1]) >= 5 && forall j :: k < j < i ==> !IsSuccessReport(events[j])
    ensures Cooling(events[..i], events[i].at)
  {
    WithoutSuccessesCoolingLasts(events, k + 1, i);
  }

  lemma TrippingCools(events: seq<Event>, c: nat, i: nat, k: nat)
    requires ClockRuns(events) && i < |events| && TrippedBy(events, c, i, k)
    ensures Cooling(events[..i], events[i].at)
  {
    OpenAfterFive(events[..k + 1]);
    CoolsSince(events, i, k);
  }

  lemma {:induction false} LastFailureIn(events: seq<Event>, c: nat, i: nat) returns (k: nat)
    requires c < i <= |events| && exists j :: c <= j < i && IsFailure(events[j])
    ensures c <= k < i && IsFailure(events[k]) && forall j :: k < j < i ==> !IsFailure(events[j])
    decreases i
  {
    if IsFailure(events[i - 1]) {
      k := i - 1;
    } else {
      k := LastFailureIn(events, c, i - 1);
    }
  }

  lemma SuccessEndsCooling(events: seq<Event>, j: nat, i: nat)
    requires j < i <= |events| && IsSuccessReport(events[j]) && forall m :: j < m < i ==> !IsFailure(events[m])
    ensures Failures(events[..i]) == 0
  {
    assert events[..j + 1] == events[..j] + [events[j]];
    FailuresExtend(events[..j], events[j]);
    WithoutFailuresNothingCools(events, j + 1, i);
  }

  lemma CoolingHasAFailure(events: seq<Event>, c: nat, i: nat)
    requires ClockRuns(events) && c < i < |events| && events[c].Checked? && !Refuses(After(events[..c]), events[c].at)
    requires Cooling(events[..i], events[i].at)
    ensures exists j :: c <= j < i && IsFailure(events[j])
  {
    if forall j :: c <= j < i ==> !IsFailure(events[j]) {
      assert ClockRuns(events[..c]);
      RefusesExactlyWhileCooling(events[..c], events[c].at);
      WithoutFailuresNothingCools(events, c, i);
    }
  }

  lemma LastFailureTrips(events: seq<Event>, k: nat, i: nat)
    requires k < i <= |events| && IsFailure(events[k]) && forall j :: k < j < i ==> !IsFailure(events[j])
    requires Failures(events[..i]) >= 5
    ensures After(events[..k + 1]).status == Open && LastFailureAt(events[..i]) == events[k].at
    ensures forall j :: k < j < i ==> !IsSuccessReport(events[j])
  {
    assert events[..k + 1] == events[..k] + [events[k]];
    AfterGrows(events[..k], events[k]);
    FailuresExtend(events[..k], events[k]);
    CircuitCountsFailures(events[..k]);
    WithoutFailuresNothingCools(events, k + 1, i);
    forall j | k < j < i ensures !IsSuccessReport(events[j]) {
      if IsSuccessReport(events[j]) { SuccessEndsCooling(events, j, i); }
    }
  }

  lemma CoolingWasTripped(events: seq<Event>, c: nat, i: nat) returns (k: nat)
    requires ClockRuns(events) && c < i < |events| && events[c].Checked? && !Refuses(After(events[..c]), events[c].at)
    requires Cooling(events[..i], events[i].at)
    ensures TrippedBy(events, c, i, k)
  {
    CoolingHasAFailure(events, c, i);
    k := LastFailureIn(events, c, i);
    LastFailureTrips(events, k, i);
  }

  /**
   A request that passed its check at c sends while the breaker is cooling exactly when some failure reported in
   between left the breaker open, is under sixty seconds old, and was followed by no success.
  */
  lemma SentWhileCoolingIff(events: seq<Event>, c: nat, i: nat)
    requires ClockRuns(events) && c < i < |events|
    requires events[c].Checked? && events[i] == Sent(events[c].request, events[i].at)
    requires !Refuses(After(events[..c]), events[c].at)
    ensures Cooling(events[..i], events[i].at) <==> exists k :: TrippedBy(events, c, i, k)
  {
    if Cooling(events[..i], events[i].at) {
      var k := CoolingWasTripped(events, c, i);
    }
    if k :| TrippedBy(events, c, i, k) { TrippingCools(events, c, i, k); }
  }

  /** Without a failure since its check, an admitted request sends nothing while the breaker cools. */
  lemma NothingSentWhileCooling(events: seq<Event>, c: nat, i: nat)
    requires ClockRuns(events) && c < i < |events|
    requires events[c].Checked? && events[i] == Sent(events[c].request, events[i].at)
    requires !Refuses(After(events[..c]), events[c].at)
    requires forall k :: c <= k < i ==> !IsFailure(events[k])
    ensures !Cooling(events[..i], events[i].at)
  {
    SentWhileCoolingIff(events, c, i);
  }

  // ---- what requests can do ----

  function IsSendOf(request: nat): Event -> bool {
    (e: Event) => e.Sent? && e.request == request
  }

  function Sends(events: seq<Event>, request: nat): nat {
    |Filter(events, IsSendOf(request))|
  }

  ghost predicate Unseen(events: seq<Event>, request: nat) {
    forall i :: 0 <= i < |events| ==> events[i].request != request
  }

  ghost predicate HasReported(events: seq<Event>, request: nat) {
    exists i :: 0 <= i < |events| && events[i].Reported? && events[i].request == request
  }

  /** The check of the request is at c and let it through. */
  ghost predicate AdmittedAt(events: seq<Event>, request: nat, c: int) {
    0 <= c < |events| && events[c].Checked? && events[c].request == request
      && !Refuses(After(events[..c]), events[c].at)
  }

  /**
   A request is checked once. Its first attempt follows its check without a suspension point in between, so no
   other request comes between them; further attempts come within its retries and before its one report.
  */
  ghost predicate MayHappen(before: seq<Event>, e: Event, maxRetries: nat -> int) {
    match e
    case Checked(r, _) => Unseen(before, r)
    case Sent(r, _) =>
      && !HasReported(before, r) && Sends(before, r) <= maxRetries(r)
      && (Sends(before, r) == 0 ==> AdmittedAt(before, r, |before| - 1))
    case Reported(r, _, _) => !HasReported(before, r) && Sends(before, r) > 0
  }

  ghost predicate Legal(events: seq<Event>, maxRetries: nat -> int) {
    events == []
    || (Legal(events[..|events| - 1], maxRetries)
         && MayHappen(events[..|events| - 1], events[|events| - 1], maxRetries))
  }

  lemma {:induction false} EveryEventMayHappen(events: seq<Event>, maxRetries: nat -> int, i: nat)
    requires Legal(events, maxRetries) && i < |events|
    ensures MayHappen(events[..i], events[i], maxRetries)
  {
    var before := events[..|events| - 1];
    if i < |before| {
      EveryEventMayHappen(before, maxRetries, i);
      assert before[..i] == events[..i];
    }
  }

  lemma LegalGrows(events: seq<Event>, e: Event, maxRetries: nat -> int)
    requires Legal(events, maxRetries) && MayHappen(events, e, maxRetries)
    ensures Legal(events + [e], maxRetries)
  {
    assert (events + [e])[..|events|] == events;
  }

  lemma SendsGrow(events: seq<Event>, e: Event, request: nat)
    ensures Sends(events + [e], request) == Sends(events, request) + if IsSendOf(request)(e) then 1 else 0
  {
    FilterConcat(events, [e], IsSendOf(request));
    assert Filter([e], IsSendOf(request)) == if IsSendOf(request)(e) then [e] else [];
  }

  lemma UnseenSendsNothing(events: seq<Event>, request: nat)
    requires Unseen(events, request)
    ensures Sends(events, request) == 0 && !HasReported(events, request)
  {
    FilterNone(events, IsSendOf(request));
  }

  lemma CheckHappens(events: seq<Event>, request: nat, at: real, maxRetries: nat -> int)
    requires Legal(events, maxRetries) && Unseen(events, request)
    ensures var u := events + [Checked(request, at)];
      && Legal(u, maxRetries) && Sends(u, request) == 0 && !HasReported(u, request)
      && (!Refuses(After(events), at) ==> AdmittedAt(u, request, |u| - 1))
  {
    LegalGrows(events, Checked(request, at), maxRetries);
    UnseenSendsNothing(events, request);
    SendsGrow(events, Checked(request, at), request);
    assert (events + [Checked(request, at)])[..|events|] == events;
  }

  lemma SendHappens(events: seq<Event>, request: nat, at: real, maxRetries: nat -> int)
    requires Legal(events, maxRetries) && !HasReported(events, request) && Sends(events, request) <= maxRetries(request)
    requires Sends(events, request) == 0 ==> AdmittedAt(events, request, |events| - 1)
    ensures var u := events + [Sent(request, at)];
      Legal(u, maxRetries) && Sends(u, request) == Sends(events, request) + 1 && !HasReported(u, request)
  {
    LegalGrows(events, Sent(request, at), maxRetries);
    SendsGrow(events, Sent(request, at), request);
  }

  lemma FirstSendFollowsItsCheck(events: seq<Event>, maxRetries: nat -> int, i: nat)
    requires i < |events| && Legal(events, maxRetries) && events[i].Sent? && Sends(events[..i], events[i].request) == 0
    ensures i > 0 && AdmittedAt(events, events[i].request, i - 1)
  {
    EveryEventMayHappen(events, maxRetries, i);
    assert events[..i][..i - 1] == events[..i - 1];
  }

  /** Behind every send there is the admitted check of its request. */
  lemma {:induction false} SendHasItsCheck(events: seq<Event>, maxRetries: nat -> int, i: nat, request: nat)
    returns (c: nat)
    requires i <= |events| && Legal(events, maxRetries) && Sends(events[..i], request) > 0
    ensures c < i && AdmittedAt(events, request, c)
    decreases i
  {
    assert events[..i] == events[..i - 1] + [events[i - 1]];
    SendsGrow(events[..i - 1], events[i - 1], request);
    if Sends(events[..i - 1], request) > 0 {
      c := SendHasItsCheck(events, maxRetries, i - 1, request);
    } else {
      FirstSendFollowsItsCheck(events, maxRetries, i - 1);
      c := i - 2;
    }
  }

  /** The first attempt of a request is never sent while the breaker is cooling. */
  lemma FirstAttemptIsNotSentWhileCooling(events: seq<Event>, maxRetries: nat -> int, i: nat)
    requires Legal(events, maxRetries) && ClockRuns(events) && i < |events| && events[i].Sent?
    requires Sends(events[..i], events[i].request) == 0
    ensures !Cooling(events[..i], events[i].at)
  {
    EveryEventMayHappen(events, maxRetries, i);
    assert events[..i][..i - 1] == events[..i - 1];
    SentWhileCoolingIff(events, i - 1, i);
  }

  lemma SendIsCounted(events: seq<Event>, i: nat)
    requires i < |events| && events[i].Sent?
    ensures Sends(events[..i + 1], events[i].request) == Sends(events[..i], events[i].request) + 1
  {
    assert events[..i + 1] == events[..i] + [events[i]];
    SendsGrow(events[..i], events[i], events[i].request);
  }

  lemma SendIsWithinRetries(events: seq<Event>, maxRetries: nat -> int, i: nat)
    requires Legal(events, maxRetries) && i < |events| && events[i].Sent?
    ensures Sends(events[..i], events[i].request) <= maxRetries(events[i].request)
  {
    EveryEventMayHappen(events, maxRetries, i);
  }

  /**
   In every interleaving of requests, a send has one admitted check before it, and it goes out while the breaker
   cools exactly when a failure since that check tripped the breaker. What goes out so is a retry: a request
   with max_retries of zero never sends while the breaker cools.
  */
  lemma SentWhileCoolingExactly(events: seq<Event>, maxRetries: nat -> int, i: nat) returns (c: nat)
    requires Legal(events, maxRetries) && ClockRuns(events) && i < |events| && events[i].Sent?
    ensures c < i && AdmittedAt(events, events[i].request, c)
    ensures Cooling(events[..i], events[i].at) <==> exists k :: TrippedBy(events, c, i, k)
    ensures Cooling(events[..i], events[i].at) ==> Sends(events[..i], events[i].request) >= 1
    ensures maxRetries(events[i].request) <= 0 ==> !Cooling(events[..i], events[i].at)
  {
    SendIsCounted(events, i);
    SendIsWithinRetries(events, maxRetries, i);
    c := SendHasItsCheck(events, maxRetries, i + 1, events[i].request);
    SentWhileCoolingIff(events, c, i);
    if Sends(events[..i], events[i].request) == 0 { FirstAttemptIsNotSentWhileCooling(events, maxRetries, i); }
  }

  // ---- a run in which a retry is sent while the breaker cools ----

  /** Request 0 is checked and sent; then requests 1 to n, without retries, are checked, sent and fail. */
  function Failing(n: nat): seq<Event> {
    if n == 0 then [Checked(0, 0.0), Sent(0, 0.0)]
    else Failing(n - 1) + [Checked(n, 1.0)] + [Sent(n, 1.0)] + [Reported(n, false, 1.0)]
  }

  function OneRetryForRequest0(request: nat): int { if request == 0 then 1 else 0 }

  /** A run of requests 0 to n up to instant 1, in which request 0 has not reported. */
  ghost predicate Early(events: seq<Event>, n: nat) {
    && ClockRuns(events) && !HasReported(events, 0)
    && forall i :: 0 <= i < |events| ==> events[i].request <= n && events[i].at <= 1.0
  }

  ghost predicate FailedSoFar(events: seq<Event>, n: nat) {
    && Legal(events, OneRetryForRequest0) && Early(events, n)
    && Sends(events, 0) == 1 && Failures(events) == n && (n > 0 ==> LastFailureAt(events) == 1.0)
  }

  lemma EarlyGrows(events: seq<Event>, n: nat, e: Event)
    requires Early(events, n) && 0 < e.request <= n && e.at == 1.0
    ensures Early(events + [e], n)
  {
  }

  lemma OneMoreIsLegal(events: seq<Event>, r: nat)
    requires Legal(events, OneRetryForRequest0) && Unseen(events, r) && r > 0 && !Refuses(After(events), 1.0)
    ensures Legal(events + [Checked(r, 1.0)] + [Sent(r, 1.0)] + [Reported(r, false, 1.0)], OneRetryForRequest0)
  {
    CheckHappens(events, r, 1.0, OneRetryForRequest0);
    SendHappens(events + [Checked(r, 1.0)], r, 1.0, OneRetryForRequest0);
    LegalGrows(events + [Checked(r, 1.0)] + [Sent(r, 1.0)], Reported(r, false, 1.0), OneRetryForRequest0);
  }

  lemma OneMoreFailure(events: seq<Event>, r: nat)
    requires r > 0
    ensures var u := events + [Checked(r, 1.0)] + [Sent(r, 1.0)] + [Reported(r, false, 1.0)];
      Failures(u) == Failures(events) + 1 && LastFailureAt(u) == 1.0 && Sends(u, 0) == Sends(events, 0)
  {
    var checked := events + [Checked(r, 1.0)];
    var sent := checked + [Sent(r, 1.0)];
    SendsGrow(events, Checked(r, 1.0), 0);
    SendsGrow(checked, Sent(r, 1.0), 0);
    SendsGrow(sent, Reported(r, false, 1.0), 0);
    FailuresExtend(events, Checked(r, 1.0));
    FailuresExtend(checked, Sent(r, 1.0));
    FailuresExtend(sent, Reported(r, false, 1.0));
  }

  lemma StartHappens()
    ensures Legal(Failing(0), OneRetryForRequest0) && Sends(Failing(0), 0) == 1 && !HasReported(Failing(0), 0)
  {
    var check := [Checked(0, 0.0)];
    assert [] + check == check && check + [Sent(0, 0.0)] == Failing(0);
    CheckHappens([], 0, 0.0, OneRetryForRequest0);
    SendHappens(check, 0, 0.0, OneRetryForRequest0);
  }

  lemma StartHasNoFailures()
    ensures Failures(Failing(0)) == 0
  {
    var check := [Checked(0, 0.0)];
    assert [] + check == check && check + [Sent(0, 0.0)] == Failing(0);
    FailuresExtend([], Checked(0, 0.0));
    FailuresExtend(check, Sent(0, 0.0));
  }

  lemma StartIsLegal()
    ensures FailedSoFar(Failing(0), 0)
  {
    StartHappens();
    StartHasNoFailures();
  }

  lemma OneMoreFails(events: seq<Event>, n: nat)
    requires n < 5 && FailedSoFar(events, n)
    ensures FailedSoFar(events + [Checked(n + 1, 1.0)] + [Sent(n + 1, 1.0)] + [Reported(n + 1, false, 1.0)], n + 1)
  {
    assert Unseen(events, n + 1);
    CircuitCountsFailures(events);
    OneMoreIsLegal(events, n + 1);
    OneMoreFailure(events, n + 1);
    EarlyGrows(events, n + 1, Checked(n + 1, 1.0));
    EarlyGrows(events + [Checked(n + 1, 1.0)], n + 1, Sent(n + 1, 1.0));
    EarlyGrows(events + [Checked(n + 1, 1.0)] + [Sent(n + 1, 1.0)], n + 1, Reported(n + 1, false, 1.0));
  }

  lemma {:induction false} FailingIsLegal(n: nat)
    requires n <= 5
    ensures FailedSoFar(Failing(n), n)
  {
    if n == 0 {
      StartIsLegal();
    } else {
      FailingIsLegal(n - 1);
      OneMoreFails(Failing(n - 1), n - 1);
    }
  }

  /** A legal run: five requests fail after request 0 was admitted, and its retry goes out while the breaker cools. */
  lemma RetrySentWhileCooling()
    ensures var retry := Sent(0, 2.0);
      && Legal(Failing(5) + [retry], OneRetryForRequest0) && ClockRuns(Failing(5) + [retry])
      && Cooling(Failing(5), 2.0) && Refuses(After(Failing(5)), 2.0)
  {
    FailingIsLegal(5);
    var failed := Failing(5);
    assert FailedSoFar(failed, 5);
    RetryOfRequest0(failed);
  }

  lemma RetryOfRequest0(failed: seq<Event>)
    requires FailedSoFar(failed, 5)
    ensures Legal(failed + [Sent(0, 2.0)], OneRetryForRequest0) && ClockRuns(failed + [Sent(0, 2.0)])
    ensures Cooling(failed, 2.0) && Refuses(After(failed), 2.0)
  {
    SendHappens(failed, 0, 2.0, OneRetryForRequest0);
    RefusesExactlyWhileCooling(failed, 2.0);
  }

  // ---- a request that runs by itself is a legal run ----

  function Attempts(request: nat, n: nat, sentAt: nat -> real): seq<Event> {
    if n == 0 then [] else Attempts(request, n - 1, sentAt) + [Sent(request, sentAt(n))]
  }

  /** The events of a request with this end. */
  function OwnEvents(request: nat, result: Result, attempts: nat, startedAt: real, sentAt: nat -> real,
                     endedAt: real): seq<Event> {
    [Checked(request, startedAt)] + Attempts(request, attempts, sentAt)
    + if Recorded(result).Some? then [Reported(request, Recorded(result).value, endedAt)] else []
  }

  /** A run of this request that may go on sending. */
  ghost predicate MaySend(events: seq<Event>, request: nat, maxRetries: nat -> int) {
    && Legal(events, maxRetries) && !HasReported(events, request)
    && (Sends(events, request) == 0 ==> AdmittedAt(events, request, |events| - 1))
  }

  lemma OneMoreSend(events: seq<Event>, request: nat, at: real, maxRetries: nat -> int)
    requires MaySend(events, request, maxRetries) && Sends(events, request) <= maxRetries(request)
    ensures var ran := events + [Sent(request, at)];
      && MaySend(ran, request, maxRetries) && Sends(ran, request) == Sends(events, request) + 1
      && After(ran) == After(events)
  {
    SendHappens(events, request, at, maxRetries);
    AfterGrows(events, Sent(request, at));
  }

  lemma {:induction false} AttemptsAreLegal(events: seq<Event>, request: nat, n: nat, sentAt: nat -> real,
                                            maxRetries: nat -> int)
    requires MaySend(events, request, maxRetries) && Sends(events, request) == 0
    requires n <= maxRetries(request) + 1 || n == 0
    ensures var ran := events + Attempts(request, n, sentAt);
      && MaySend(ran, request, maxRetries) && Sends(ran, request) == n && After(ran) == After(events)
  {
    if n == 0 {
      assert events + [] == events;
    } else {
      var ran := events + Attempts(request, n - 1, sentAt);
      AttemptsAreLegal(events, request, n - 1, sentAt, maxRetries);
      OneMoreSend(ran, request, sentAt(n), maxRetries);
      assert events + Attempts(request, n, sentAt) == ran + [Sent(request, sentAt(n))];
    }
  }

  lemma ReportHappens(sent: seq<Event>, request: nat, success: bool, at: real, maxRetries: nat -> int)
    requires Legal(sent, maxRetries) && !HasReported(sent, request) && Sends(sent, request) > 0
    ensures Legal(sent + [Reported(request, success, at)], maxRetries)
    ensures After(sent + [Reported(request, success, at)]) == AfterResult(After(sent), success, at)
  {
    LegalGrows(sent, Reported(request, success, at), maxRetries);
    AfterGrows(sent, Reported(request, success, at));
  }

  lemma AttemptsFollowTheCheck(events: seq<Event>, request: nat, attempts: nat, startedAt: real, sentAt: nat -> real,
                               maxRetries: nat -> int)
    requires Legal(events, maxRetries) && Unseen(events, request) && !Refuses(After(events), startedAt)
    requires attempts <= maxRetries(request) + 1 || attempts == 0
    ensures var sent := events + [Checked(request, startedAt)] + Attempts(request, attempts, sentAt);
      && Legal(sent, maxRetries) && !HasReported(sent, request) && Sends(sent, request) == attempts
      && After(sent) == AfterCheck(After(events), startedAt)
  {
    CheckHappens(events, request, startedAt, maxRetries);
    AfterGrows(events, Checked(request, startedAt));
    AttemptsAreLegal(events + [Checked(request, startedAt)], request, attempts, sentAt, maxRetries);
  }

  lemma OwnEventsFollow(events: seq<Event>, request: nat, result: Result, attempts: nat, startedAt: real,
                        sentAt: nat -> real, endedAt: real)
    ensures var sent := events + [Checked(request, startedAt)] + Attempts(request, attempts, sentAt);
      events + OwnEvents(request, result, attempts, startedAt, sentAt, endedAt) ==
        if Recorded(result).Some? then sent + [Reported(request, Recorded(result).value, endedAt)] else sent
  {
    ConcatAssociates(events, [Checked(request, startedAt)], Attempts(request, attempts, sentAt));
    ConcatAssociates(events, [Checked(request, startedAt)] + Attempts(request, attempts, sentAt),
                     if Recorded(result).Some? then [Reported(request, Recorded(result).value, endedAt)] else []);
  }

  /** What Request promises of a request that was let through is a legal run, and leads to the circuit it promises. */
  lemma RequestRunsLegally(events: seq<Event>, request: nat, result: Result, attempts: nat, maxRetries: nat -> int,
                           retryStatuses: set<int>, outcome: int -> Outcome, startedAt: real, sentAt: nat -> real,
                           endedAt: real)
    requires Legal(events, maxRetries) && Unseen(events, request) && !Refuses(After(events), startedAt)
    requires result != CircuitOpen && EndsWith(result, attempts, maxRetries(request), retryStatuses, outcome)
    ensures var ran := events + OwnEvents(request, result, attempts, startedAt, sentAt, endedAt);
      && Legal(ran, maxRetries)
      && After(ran) == (var checked := AfterCheck(After(events), startedAt);
           if Recorded(result).Some? then AfterResult(checked, Recorded(result).value, endedAt) else checked)
  {
    var sent := events + [Checked(request, startedAt)] + Attempts(request, attempts, sentAt);
    AttemptsFollowTheCheck(events, request, attempts, startedAt, sentAt, maxRetries);
    OwnEventsFollow(events, request, result, attempts, startedAt, sentAt, endedAt);
    if Recorded(result).Some? {
      assert Sends(sent, request) > 0;
      ReportHappens(sent, request, Recorded(result).value, endedAt, maxRetries);
    }
  }
}
