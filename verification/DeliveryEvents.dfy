/** Delivery events, their retry plan, and the conditional updates workers make on them. */
module DeliveryEvents {
  import opened Wrappers

  const SECOND := 1_000_000_000
  const LEASE := 60 * SECOND
  const BATCH_SIZE: nat := 10
  const DEFAULT_RETRY_LIMIT := 3

  datatype Status = Pending | Delivering | Delivered | Retrying | Failed

  datatype Event = Event(status: Status, attempts: nat, next: Option<int>, created: int)

  predicate Open(e: Event) {
    e.status == Pending || e.status == Retrying || e.status == Delivering
  }

  datatype Plan = Plan(delays: seq<int>, limit: int)

  ghost predicate ValidPlan(plan: Plan) {
    plan.limit >= 1 && plan.delays != [] && forall i | 0 <= i < |plan.delays| :: plan.delays[i] > 0
  }

  /** newRetryPlan: the configured seconds as durations, and a limit that is never below one. */
  method NewRetryPlan(seconds: seq<int>, retryLimit: int) returns (plan: Plan)
    ensures plan.limit == if retryLimit < 1 then 3 else retryLimit
    ensures |plan.delays| == |seconds| && forall i | 0 <= i < |seconds| :: plan.delays[i] == seconds[i] * 1_000_000_000
    ensures seconds != [] && (forall i | 0 <= i < |seconds| :: seconds[i] > 0) ==> ValidPlan(plan)
  {
    var delays := new int[|seconds|];
    for i := 0 to |seconds|
      invariant forall j | 0 <= j < i :: delays[j] == seconds[j] * SECOND
    {
      delays[i] := seconds[i] * SECOND;
    }
    plan := Plan(delays[..], if retryLimit < 1 then DEFAULT_RETRY_LIMIT else retryLimit);
  }

  function Min(a: int, b: int): int {
    if a < b then a else b
  }

  function Max(a: int, b: int): int {
    if a < b then b else a
  }

  /** When the attempt after the given one is due: the plan's last delay serves all later attempts. */
  function NextAttempt(plan: Plan, attempt: int, now: int): (r: Option<int>)
    ensures r.None? <==> plan.delays == []
    ensures plan.delays != [] && 1 <= attempt <= |plan.delays| ==> r == Some(now + plan.delays[attempt - 1])
    ensures plan.delays != [] && attempt > |plan.delays| ==> r == Some(now + plan.delays[|plan.delays| - 1])
    ensures ValidPlan(plan) ==> now < r.value <= now + MaxDelay(plan.delays)
  {
    if plan.delays == [] then None
    else
      var index := Min(Max(attempt - 1, 0), |plan.delays| - 1);
      MaxDelayBounds(plan.delays, index);
      Some(now + plan.delays[index])
  }

  function MaxDelay(delays: seq<int>): int {
    if delays == [] then 0 else Max(delays[0], MaxDelay(delays[1..]))
  }

  lemma {:induction false} MaxDelayBounds(delays: seq<int>, i: nat)
    requires i < |delays|
    ensures delays[i] <= MaxDelay(delays)
  {
    if i > 0 {
      MaxDelayBounds(delays[1..], i - 1);
    }
  }

  /** How one attempt ended; Unavailable is every reason not to send at all. */
  datatype Outcome = Sent | SendFailed | Unavailable

  datatype DeliveryState = DeliveryState(status: Status, next: Option<int>, attempts: Option<nat>)

  function DeliveredState(previous: nat): DeliveryState {
    DeliveryState(Delivered, None, Some(previous + 1))
  }

  function FinalState(): DeliveryState {
    DeliveryState(Failed, None, None)
  }

  function RetryState(previous: nat, plan: Plan, now: int): DeliveryState {
    var attempts := previous + 1;
    if attempts >= plan.limit then DeliveryState(Failed, None, Some(attempts))
    else DeliveryState(Retrying, NextAttempt(plan, attempts, now), Some(attempts))
  }

  function StateAfter(outcome: Outcome, previous: nat, plan: Plan, now: int): DeliveryState {
    match outcome
    case Sent => DeliveredState(previous)
    case SendFailed => RetryState(previous, plan, now)
    case Unavailable => FinalState()
  }

  /**
   * What an attempt makes of the row it was begun on, field by field. A counted failure below the limit is tried again
   * after the delay that serves that attempt; the last delay serves all later ones.
   */
  ghost predicate RecordsAttempt(plan: Plan, before: Event, outcome: Outcome, time: int, after: Event) {
    && after.created == before.created
    && after.attempts == (if outcome == Unavailable then before.attempts else before.attempts + 1)
    && (after.status == Delivered <==> outcome == Sent)
    && (after.status == Failed <==>
          outcome == Unavailable || (outcome == SendFailed && before.attempts + 1 >= plan.limit))
    && (after.status == Retrying <==> outcome == SendFailed && before.attempts + 1 < plan.limit)
    && (after.next.Some? <==> after.status == Retrying && plan.delays != [])
    && (after.next.Some? ==>
          after.next.value == time + plan.delays[if before.attempts < |plan.delays| then before.attempts
                                                 else |plan.delays| - 1])
  }

  lemma StateRecordsAttempt(plan: Plan, e: Event, outcome: Outcome, time: int)
    ensures RecordsAttempt(plan, e, outcome, time, Saved(e, StateAfter(outcome, e.attempts, plan, time)))
  {
  }

  /** The WHERE clause of a claim, and of the query for due events. */
  predicate Due(e: Event, now: int) {
    Open(e) && (e.next.None? || e.next.value <= now)
  }

  function Claimed(e: Event, now: int): Event {
    e.(status := Delivering, next := Some(now + LEASE))
  }

  /** The fence of a save: the row still shows the lease the worker was given. */
  predicate Holds(e: Event, lease: int) {
    e.status == Delivering && e.next == Some(lease)
  }

  function Saved(e: Event, state: DeliveryState): Event {
    Event(state.status, if state.attempts.Some? then state.attempts.value else e.attempts, state.next, e.created)
  }

  function Reset(e: Event, now: int): Event {
    Event(Pending, 0, Some(now), e.created)
  }

  /** A new event is due from the moment it was created. */
  function NewEvent(now: int): Event {
    Event(Pending, 0, Some(now), now)
  }

  /** What a claim makes of the table: nothing unless the event is due at the time read before the transaction. */
  function AfterClaim(rows: map<nat, Event>, id: nat, now: int): map<nat, Event> {
    if id in rows && Due(rows[id], now) then rows[id := Claimed(rows[id], now)] else rows
  }

  /** What a save makes of the table: nothing unless the row still shows the worker's lease. */
  function AfterSave(rows: map<nat, Event>, id: nat, lease: int, state: DeliveryState): map<nat, Event> {
    if id in rows && Holds(rows[id], lease) then rows[id := Saved(rows[id], state)] else rows
  }

  /** What a manual retry makes of the table: nothing unless the event has failed. */
  function AfterRetry(rows: map<nat, Event>, id: nat, now: int): map<nat, Event> {
    if id in rows && rows[id].status == Failed then rows[id := Reset(rows[id], now)] else rows
  }

  /**
   * A manual retry gives a failed event all its attempts again, due at once and under nobody's lease, leaves every
   * other event alone, and has nothing left to do when repeated.
   */
  lemma RetryStartsOver(rows: map<nat, Event>, id: nat, now: int, later: int)
    ensures
      var after := AfterRetry(rows, id, now);
      && after.Keys == rows.Keys
      && (forall other | other in rows && other != id :: after[other] == rows[other])
      && (id in rows && rows[id].status == Failed ==>
            && Open(after[id]) && after[id].attempts == 0 && after[id].created == rows[id].created
            && (forall time | time >= now :: Due(after[id], time))
            && forall lease :: !Holds(after[id], lease))
      && (id in rows && rows[id].status != Failed ==> after[id] == rows[id])
      && AfterRetry(after, id, later) == after
  {
  }

  /** One table of events. */
  class EventTable {
    var rows: map<nat, Event>

    constructor ()
      ensures rows == map[]
    {
      rows := map[];
    }

    /** createDeliveryEvents. */
    method Add(id: nat, now: int)
      modifies this
      ensures rows == if id in old(rows) then old(rows) else old(rows)[id := Event(Pending, 0, Some(now), now)]
    {
      if id !in rows {
        rows := rows[id := NewEvent(now)];
      }
    }

    /** The event goes with its submission. */
    method Remove(id: nat)
      modifies this
      ensures rows == old(rows) - {id}
    {
      rows := rows - {id};
    }

    /** claimEvent. */
    method Claim(id: nat, now: int) returns (lease: Option<int>)
      modifies this
      ensures rows == AfterClaim(old(rows), id, now)
      ensures lease == if id in old(rows) && Due(old(rows)[id], now) then Some(now + 60_000_000_000) else None
      ensures lease.Some? <==>
                && id in old(rows) && old(rows)[id].status != Delivered && old(rows)[id].status != Failed
                && (old(rows)[id].next.None? || old(rows)[id].next.value <= now)
      ensures lease.Some? ==> rows == old(rows)[id := old(rows)[id].(status := Delivering, next := lease)]
    {
      if id in rows && Due(rows[id], now) {
        rows := rows[id := Claimed(rows[id], now)];
        return Some(now + LEASE);
      }
      return None;
    }

    /** saveClaimedState. */
    method Save(id: nat, lease: int, state: DeliveryState) returns (ok: bool)
      modifies this
      ensures rows == AfterSave(old(rows), id, lease, state)
      ensures ok <==> id in old(rows) && old(rows)[id].status == Delivering && old(rows)[id].next == Some(lease)
    {
      ok := id in rows && Holds(rows[id], lease);
      if ok {
        rows := rows[id := Saved(rows[id], state)];
      }
    }

    /** retryDeliveryEvent. */
    method Retry(id: nat, now: int) returns (found: bool)
      modifies this
      ensures rows == AfterRetry(old(rows), id, now)
      ensures found <==> id in old(rows) && old(rows)[id].status == Failed
    {
      found := id in rows && rows[id].status == Failed;
      if found {
        rows := rows[id := Reset(rows[id], now)];
      }
    }
  }
}
