/** One dispatcher working through due events in batches, and why no due event waits for ever. */
module Dispatch {
  import opened Wrappers
  import opened DeliveryEvents

  /** ORDER BY next_attempt_at, created_at, id: an absent time sorts first. */
  predicate Before(a: Event, i: nat, b: Event, j: nat) {
    if a.next != b.next then a.next.None? || (b.next.Some? && a.next.value < b.next.value)
    else if a.created != b.created then a.created < b.created
    else i < j
  }

  lemma BeforeIsStrictTotal(a: Event, i: nat, b: Event, j: nat, c: Event, k: nat)
    ensures !Before(a, i, a, i)
    ensures i != j ==> Before(a, i, b, j) != Before(b, j, a, i)
    ensures Before(a, i, b, j) && Before(b, j, c, k) ==> Before(a, i, c, k)
  {
  }

  predicate DueIn(rows: map<nat, Event>, id: nat, now: int) {
    id in rows && Due(rows[id], now)
  }

  /** The first events of the queue, at most a batch of them, in queue order. */
  ghost predicate FirstDue(rows: map<nat, Event>, now: int, ids: seq<nat>) {
    && |ids| <= 10
    && (forall n | 0 <= n < |ids| :: DueIn(rows, ids[n], now))
    && (forall m, n | 0 <= m < n < |ids| :: Before(rows[ids[m]], ids[m], rows[ids[n]], ids[n]))
    && (forall id | DueIn(rows, id, now) && id !in ids ::
          |ids| == 10 && forall n | 0 <= n < |ids| :: Before(rows[ids[n]], ids[n], rows[id], id))
  }

  /** dueEventIDs. */
  method DueEventIds(rows: map<nat, Event>, now: int) returns (ids: seq<nat>)
    ensures FirstDue(rows, now, ids)
  {
    var rest := set id | id in rows && Due(rows[id], now);
    ids := [];
    while rest != {} && |ids| < BATCH_SIZE
      invariant |ids| <= BATCH_SIZE
      invariant forall n | 0 <= n < |ids| :: DueIn(rows, ids[n], now) && ids[n] !in rest
      invariant forall id | id in rest :: DueIn(rows, id, now)
      invariant forall id | DueIn(rows, id, now) :: id in rest || id in ids
      invariant forall m, n | 0 <= m < n < |ids| :: Before(rows[ids[m]], ids[m], rows[ids[n]], ids[n])
      invariant forall n, id | 0 <= n < |ids| && id in rest :: Before(rows[ids[n]], ids[n], rows[id], id)
    {
      var first := Earliest(rows, rest);
      ids, rest := ids + [first], rest - {first};
    }
  }

  method Earliest(rows: map<nat, Event>, candidates: set<nat>) returns (first: nat)
    requires candidates != {} && candidates <= rows.Keys
    ensures first in candidates
    ensures forall id | id in candidates && id != first :: Before(rows[first], first, rows[id], id)
  {
    first :| first in candidates;
    var rest := candidates - {first};
    while rest != {}
      invariant rest < candidates && first in candidates - rest
      invariant forall id | id in candidates - rest && id != first :: Before(rows[first], first, rows[id], id)
    {
      var id :| id in rest;
      if Before(rows[id], id, rows[first], first) {
        forall other | other in candidates - rest && other != first ensures Before(rows[id], id, rows[other], other) {
          BeforeIsStrictTotal(rows[id], id, rows[first], first, rows[other], other);
        }
        first := id;
      } else {
        BeforeIsStrictTotal(rows[id], id, rows[first], first, rows[first], first);
      }
      rest := rest - {id};
    }
  }

  /** What happens while a dispatcher works: its own claims, attempts and saves, and what others do to the table. */
  datatype Move =
    | Claims(id: nat, now: int)
    | Tries(id: nat, outcome: Outcome)
    | Saves(id: nat, lease: int, outcome: Outcome, time: int, state: DeliveryState)
    | Adds(id: nat, now: int)
    | Retries(id: nat, now: int)
    | Removes(id: nat)

  function Apply(rows: map<nat, Event>, m: Move): map<nat, Event> {
    match m
    case Claims(id, now) => AfterClaim(rows, id, now)
    case Tries(_, _) => rows
    case Saves(id, lease, _, _, state) => AfterSave(rows, id, lease, state)
    case Adds(id, now) => if id in rows then rows else rows[id := NewEvent(now)]
    case Retries(id, now) => AfterRetry(rows, id, now)
    case Removes(id) => rows - {id}
  }

  function ApplyAll(rows: map<nat, Event>, moves: seq<Move>): map<nat, Event> {
    if moves == [] then rows else Apply(ApplyAll(rows, moves[..|moves| - 1]), moves[|moves| - 1])
  }

  /** What is stored after an attempt begun at that time: the event is closed, or due only later. */
  predicate Concludes(state: DeliveryState, now: int) {
    && state.status != Pending && state.status != Delivering
    && (state.status == Retrying ==> state.next.Some? && state.next.value > now)
  }

  /** The events that were claimed, with or without success. */
  function Claimants(moves: seq<Move>): set<nat> {
    if moves == [] then {}
    else
      var last := moves[|moves| - 1];
      Claimants(moves[..|moves| - 1]) + if last.Claims? then {last.id} else {}
  }

  /** The i-th move claims the event, and was given that lease. */
  ghost predicate GrantedAt(rows: map<nat, Event>, moves: seq<Move>, id: nat, lease: int, i: nat) {
    i < |moves| && moves[i] == Claims(id, lease - LEASE) && DueIn(ApplyAll(rows, moves[..i]), id, lease - LEASE)
  }

  ghost predicate Granted(rows: map<nat, Event>, moves: seq<Move>, id: nat, lease: int) {
    exists i: nat :: GrantedAt(rows, moves, id, lease, i)
  }

  /** How the last attempt at the event ended. */
  function Tried(moves: seq<Move>, id: nat): Option<Outcome> {
    if moves == [] then None
    else
      var last := moves[|moves| - 1];
      if last.Tries? && last.id == id then Some(last.outcome) else Tried(moves[..|moves| - 1], id)
  }

  /**
   * The dispatcher's own next move: it claims a chosen event once, not before the choice; it tries it once, and only
   * under a lease that it was given before; and it saves only under such a lease, and what the attempt came to. Others
   * may do anything.
   */
  ghost predicate Legal(rows: map<nat, Event>, moves: seq<Move>, m: Move, now: int, chosen: seq<nat>) {
    match m
    case Claims(id, time) => id in chosen && time >= now && id !in Claimants(moves)
    case Tries(id, _) => id in chosen && Tried(moves, id).None? && exists lease :: Granted(rows, moves, id, lease)
    case Saves(id, lease, outcome, time, state) =>
      && id in chosen && Concludes(state, now) && time >= now && time >= lease - LEASE
      && Granted(rows, moves, id, lease) && Tried(moves, id) == Some(outcome)
    case _ => true
  }

  ghost predicate Orderly(rows: map<nat, Event>, moves: seq<Move>, now: int, chosen: seq<nat>) {
    moves == [] ||
    (var front := moves[..|moves| - 1];
     Orderly(rows, front, now, chosen) && Legal(rows, front, moves[|moves| - 1], now, chosen))
  }

  /** A save that its fence lets through records the attempt on the row as it then is. */
  ghost predicate Records(plan: Plan, rows: map<nat, Event>, m: Move) {
    m.Saves? && m.id in rows && Holds(rows[m.id], m.lease) ==>
      m.id in Apply(rows, m) && RecordsAttempt(plan, rows[m.id], m.outcome, m.time, Apply(rows, m)[m.id])
  }

  ghost predicate Recorded(plan: Plan, rows: map<nat, Event>, moves: seq<Move>) {
    forall j | 0 <= j < |moves| && moves[j].Saves? :: Records(plan, ApplyAll(rows, moves[..j]), moves[j])
  }

  lemma RecordedOneMore(plan: Plan, rows: map<nat, Event>, moves: seq<Move>, m: Move)
    requires Recorded(plan, rows, moves) && Records(plan, ApplyAll(rows, moves), m)
    ensures Recorded(plan, rows, moves + [m])
  {
    hide Records, ApplyAll;
    var more := moves + [m];
    forall j | 0 <= j < |more| && more[j].Saves? ensures Records(plan, ApplyAll(rows, more[..j]), more[j]) {
      if j < |moves| {
        assert more[..j] == moves[..j];
      } else {
        assert more[..j] == moves;
      }
    }
  }

  lemma OneMore(rows: map<nat, Event>, moves: seq<Move>, m: Move, now: int, chosen: seq<nat>)
    requires Orderly(rows, moves, now, chosen) && Legal(rows, moves, m, now, chosen)
    ensures Orderly(rows, moves + [m], now, chosen)
    ensures forall id :: Tried(moves + [m], id) == if m.Tries? && m.id == id then Some(m.outcome) else Tried(moves, id)
    ensures ApplyAll(rows, moves + [m]) == Apply(ApplyAll(rows, moves), m)
    ensures Claimants(moves + [m]) == Claimants(moves) + if m.Claims? then {m.id} else {}
  {
    assert (moves + [m])[..|moves|] == moves;
  }

  lemma GrantedStays(rows: map<nat, Event>, moves: seq<Move>, more: seq<Move>, id: nat, lease: int)
    requires Granted(rows, moves, id, lease) && moves <= more
    ensures Granted(rows, more, id, lease)
  {
    var i: nat :| GrantedAt(rows, moves, id, lease, i);
    assert more[..i] == moves[..i];
    assert GrantedAt(rows, more, id, lease, i);
  }

  /** The i-th move claims the event and was refused, or the lease it gave was later saved under. */
  ghost predicate HandledAt(rows: map<nat, Event>, moves: seq<Move>, id: nat, i: nat) {
    && i < |moves| && moves[i].Claims? && moves[i].id == id
    && (DueIn(ApplyAll(rows, moves[..i]), id, moves[i].now) ==>
          SavedFrom(rows, moves, id, moves[i].now + LEASE, i + 1))
  }

  ghost predicate SavedFrom(rows: map<nat, Event>, moves: seq<Move>, id: nat, lease: int, from: nat) {
    exists j: nat :: from <= j && SavedAt(rows, moves, id, lease, j)
  }

  /** The j-th move saves the event under that lease, and the row still showed it. */
  ghost predicate SavedAt(rows: map<nat, Event>, moves: seq<Move>, id: nat, lease: int, j: nat) {
    && j < |moves| && moves[j].Saves? && moves[j].id == id && moves[j].lease == lease
    && id in ApplyAll(rows, moves[..j]) && Holds(ApplyAll(rows, moves[..j])[id], lease)
  }

  ghost predicate Handled(rows: map<nat, Event>, moves: seq<Move>, id: nat) {
    exists i: nat :: HandledAt(rows, moves, id, i)
  }

  /** Every chosen event was passed over, or claimed, tried and saved. */
  ghost predicate Completed(rows: map<nat, Event>, moves: seq<Move>, chosen: seq<nat>) {
    forall n | 0 <= n < |chosen| :: Handled(rows, moves, chosen[n])
  }

  lemma HandledStays(rows: map<nat, Event>, moves: seq<Move>, more: seq<Move>, id: nat)
    requires Handled(rows, moves, id) && moves <= more
    ensures Handled(rows, more, id)
  {
    var i: nat :| HandledAt(rows, moves, id, i);
    assert more[..i] == moves[..i];
    if DueIn(ApplyAll(rows, moves[..i]), id, moves[i].now) {
      var j: nat :| i < j && SavedAt(rows, moves, id, moves[i].now + LEASE, j);
      assert more[..j] == moves[..j];
      assert SavedAt(rows, more, id, more[i].now + LEASE, j);
    }
    assert HandledAt(rows, more, id, i);
  }

  lemma CompletedStays(rows: map<nat, Event>, moves: seq<Move>, more: seq<Move>, chosen: seq<nat>)
    requires Completed(rows, moves, chosen) && moves <= more
    ensures Completed(rows, more, chosen)
  {
    forall n | 0 <= n < |chosen| ensures Handled(rows, more, chosen[n]) {
      HandledStays(rows, moves, more, chosen[n]);
    }
  }

  lemma RefusedIsHandled(rows: map<nat, Event>, moves: seq<Move>, longer: seq<Move>, id: nat, now: int)
    requires longer == moves + [Claims(id, now)] && !DueIn(ApplyAll(rows, moves), id, now)
    ensures Handled(rows, longer, id)
  {
    assert longer[..|moves|] == moves;
    assert HandledAt(rows, longer, id, |moves|);
  }

  lemma SavedIsHandled(rows: map<nat, Event>, moves: seq<Move>, claimed: seq<Move>, longer: seq<Move>, id: nat,
                       now: int, from: nat)
    requires claimed == moves + [Claims(id, now)] && claimed <= longer
    requires from >= |claimed| && SavedFrom(rows, longer, id, now + LEASE, from)
    ensures Handled(rows, longer, id)
  {
    assert longer[|moves|] == claimed[|moves|];
    assert SavedFrom(rows, longer, id, now + LEASE, |moves| + 1);
    assert HandledAt(rows, longer, id, |moves|);
  }

  lemma ClaimIsGranted(rows: map<nat, Event>, moves: seq<Move>, longer: seq<Move>, id: nat, now: int)
    requires longer == moves + [Claims(id, now)] && DueIn(ApplyAll(rows, moves), id, now)
    ensures Granted(rows, longer, id, now + LEASE)
  {
    assert longer[..|moves|] == moves;
    assert GrantedAt(rows, longer, id, now + LEASE, |moves|);
  }

  /** Nothing is tried that was not claimed. */
  lemma {:induction false} TriedIsClaimed(rows: map<nat, Event>, moves: seq<Move>, now: int, chosen: seq<nat>, id: nat)
    requires Orderly(rows, moves, now, chosen) && Tried(moves, id).Some?
    ensures id in Claimants(moves)
  {
    var front, last := moves[..|moves| - 1], moves[|moves| - 1];
    if last.Tries? && last.id == id {
      var lease :| Granted(rows, front, id, lease);
      GrantedIsClaimed(rows, front, id, lease);
    } else {
      TriedIsClaimed(rows, front, now, chosen, id);
    }
  }

  /** Others touch no row that a worker holds, but they may delete it. */
  ghost predicate LeavesLeases(before: map<nat, Event>, after: map<nat, Event>, moves: seq<Move>) {
    && (forall id | id in after && after[id].status == Delivering :: id in before && after[id] == before[id])
    && (forall id | id in before && before[id].status == Delivering && Removes(id) !in moves ::
          id in after && after[id] == before[id])
  }

  lemma OthersLeaveLeases(start: map<nat, Event>, before: map<nat, Event>, moves: seq<Move>, m: Move)
    requires LeavesLeases(start, before, moves) && !m.Claims? && !m.Saves?
    ensures LeavesLeases(start, Apply(before, m), moves + [m])
  {
    forall id | Removes(id) !in moves + [m] ensures Removes(id) !in moves && m != Removes(id) {
      assert m in moves + [m];
    }
  }

  class Dispatcher {
    const table: EventTable
    const plan: Plan
    var clock: int
    // The database answers every query and commits every transaction.
    const reliable: bool

    constructor (table: EventTable, plan: Plan, clock: int, reliable: bool)
      ensures this.table == table && this.plan == plan && this.clock == clock && this.reliable == reliable
    {
      this.table, this.plan, this.clock, this.reliable := table, plan, clock, reliable;
    }

    /**
     * The table is what those moves made of the start, the dispatcher's own ones are in order, and its saves record
     * their attempts.
     */
    ghost predicate Noted(start: map<nat, Event>, moves: seq<Move>, now: int, chosen: seq<nat>)
      reads table
    {
      table.rows == ApplyAll(start, moves) && Orderly(start, moves, now, chosen) && Recorded(plan, start, moves)
    }

    /** The wall clock, read again: never earlier than before. */
    method ReadClock() returns (now: int)
      modifies this`clock
      ensures now == clock >= old(clock)
    {
      now := *;
      if now < clock {
        now := clock;
      }
      clock := now;
    }

    /** A query or a transaction that the database may refuse. */
    method Works() returns (ok: bool)
      ensures reliable ==> ok
    {
      ok := *;
      ok := ok || reliable;
    }

    /** Submissions, manual retries and deletions that come in meanwhile, with whatever times they have read. */
    method OtherRequests(ghost start: map<nat, Event>, ghost moves: seq<Move>, ghost now: int, ghost chosen: seq<nat>)
      returns (ghost longer: seq<Move>)
      requires Noted(start, moves, now, chosen)
      modifies table
      ensures Noted(start, longer, now, chosen) && moves <= longer && Claimants(longer) == Claimants(moves)
      ensures forall id :: Tried(longer, id) == Tried(moves, id)
      ensures LeavesLeases(old(table.rows), table.rows, longer)
    {
      hide Records, LeavesLeases;
      longer := moves;
      assert LeavesLeases(table.rows, table.rows, moves) by {
        NothingChanged(table.rows, moves);
      }
      var n: int, i := *, 0;
      while i < n
        invariant Noted(start, longer, now, chosen) && moves <= longer && Claimants(longer) == Claimants(moves)
        invariant forall id :: Tried(longer, id) == Tried(moves, id)
        invariant LeavesLeases(old(table.rows), table.rows, longer)
      {
        var kind: int, id: nat, time: int := *, *, *;
        ghost var m, before := Removes(id), table.rows;
        if kind == 0 {
          table.Add(id, time);
          m := Adds(id, time);
        } else if kind == 1 {
          var found := table.Retry(id, time);
          m := Retries(id, time);
        } else {
          table.Remove(id);
        }
        OneMoreOfOthers(plan, start, longer, m, now, chosen);
        OthersLeaveLeases(old(table.rows), before, longer, m);
        longer := longer + [m];
        i := i + 1;
      }
    }

    /** claimEvent, noted as the dispatcher's own move. */
    method Claim(id: nat, claimNow: int, ghost start: map<nat, Event>, ghost moves: seq<Move>, ghost now: int,
                 ghost chosen: seq<nat>)
      returns (lease: Option<int>, ghost longer: seq<Move>)
      requires Noted(start, moves, now, chosen) && id in chosen && claimNow >= now && id !in Claimants(moves)
      modifies table
      ensures Noted(start, longer, now, chosen) && Claimants(longer) == Claimants(moves) + {id}
      ensures longer == moves + [Claims(id, claimNow)] && forall other :: Tried(longer, other) == Tried(moves, other)
      ensures lease == if DueIn(ApplyAll(start, moves), id, claimNow) then Some(claimNow + LEASE) else None
      ensures lease.Some? ==>
                && Granted(start, longer, id, lease.value)
                && id in table.rows && Holds(table.rows[id], lease.value)
    {
      hide Recorded, Records;
      lease := table.Claim(id, claimNow);
      OneMore(start, moves, Claims(id, claimNow), now, chosen);
      NoSaveToRecord(plan, start, moves, Claims(id, claimNow));
      longer := moves + [Claims(id, claimNow)];
      if lease.Some? {
        ClaimIsGranted(start, moves, longer, id, claimNow);
      }
    }

    /**
     * The claim, then the load, the attempt and the save of one event; a lost claim is passed over. With a working
     * database it fails only when the event was deleted.
     */
    method Handle(id: nat, ghost start: map<nat, Event>, ghost moves: seq<Move>, ghost now: int, ghost chosen: seq<nat>)
      returns (ok: bool, ghost longer: seq<Move>)
      requires ValidPlan(plan) && Noted(start, moves, now, chosen)
      requires id in chosen && now <= clock && id !in Claimants(moves)
      modifies this`clock, table
      ensures clock >= old(clock)
      ensures Noted(start, longer, now, chosen) && moves <= longer && Claimants(longer) <= Claimants(moves) + {id}
      ensures ok ==> Handled(start, longer, id)
      ensures reliable && !ok ==> Removes(id) in longer
    {
      hide ApplyAll, Orderly, Recorded, DueIn, SavedFrom, Granted, Handled, LeavesLeases;
      if Tried(moves, id).Some? {
        TriedIsClaimed(start, moves, now, chosen, id);
      }
      var claimNow := ReadClock();
      longer := OtherRequests(start, moves, now, chosen);
      var works := Works();
      if !works {
        return false, longer;
      }
      ghost var before := longer;
      var lease;
      lease, longer := Claim(id, claimNow, start, before, now, chosen);
      if lease.None? {
        RefusedIsHandled(start, before, longer, id, claimNow);
        return true, longer;
      }
      ghost var claimed, held := longer, table.rows;
      longer := OtherRequests(start, longer, now, chosen);
      GrantedStays(start, claimed, longer, id, lease.value);
      StillHeld(held, table.rows, longer, id, lease.value);
      works := Works();
      if !works || id !in table.rows {
        return false, longer;
      }
      var attempts := table.rows[id].attempts;
      ghost var from := |longer|;
      ghost var loaded := longer;
      ok, longer := Deliver(id, lease.value, attempts, start, longer, now, chosen);
      assert claimed <= loaded <= longer;
      if ok {
        SavedIsHandled(start, before, claimed, longer, id, claimNow, from);
      }
    }

    /** The send, by whatever means: nobody controls how it ends. */
    method Attempt(id: nat, ghost start: map<nat, Event>, ghost moves: seq<Move>, ghost now: int,
                   ghost chosen: seq<nat>, ghost lease: int)
      returns (outcome: Outcome, ghost longer: seq<Move>)
      requires Noted(start, moves, now, chosen)
      requires id in chosen && Granted(start, moves, id, lease) && Tried(moves, id).None?
      ensures Noted(start, longer, now, chosen) && Claimants(longer) == Claimants(moves)
      ensures longer == moves + [Tries(id, outcome)] && Tried(longer, id) == Some(outcome)
    {
      hide Recorded, Records, Granted;
      var fate: int := *;
      outcome := if fate == 0 then Sent else if fate == 1 then SendFailed else Unavailable;
      OneMore(start, moves, Tries(id, outcome), now, chosen);
      NoSaveToRecord(plan, start, moves, Tries(id, outcome));
      longer := moves + [Tries(id, outcome)];
    }

    /** deliver: one attempt, stored under the worker's lease. */
    method Deliver(id: nat, lease: int, attempts: nat, ghost start: map<nat, Event>, ghost moves: seq<Move>,
                   ghost now: int, ghost chosen: seq<nat>)
      returns (ok: bool, ghost longer: seq<Move>)
      requires ValidPlan(plan) && Noted(start, moves, now, chosen)
      requires id in chosen && now <= clock && Granted(start, moves, id, lease) && Tried(moves, id).None?
      requires lease - LEASE <= clock
      requires id in table.rows && Holds(table.rows[id], lease) ==> table.rows[id].attempts == attempts
      modifies this`clock, table
      ensures clock >= old(clock)
      ensures Noted(start, longer, now, chosen) && moves <= longer && Claimants(longer) == Claimants(moves)
      ensures ok ==> SavedFrom(start, longer, id, lease, |moves|)
      ensures reliable && !ok && old(id in table.rows && Holds(table.rows[id], lease)) ==> Removes(id) in longer
    {
      hide Granted, Recorded, Orderly, ApplyAll, LeavesLeases, SavedFrom;
      ghost var held := table.rows;
      longer := OtherRequests(start, moves, now, chosen);
      GrantedStays(start, moves, longer, id, lease);
      ghost var first := longer;
      StillHeld(held, table.rows, longer, id, lease);
      ghost var between := table.rows;
      var outcome;
      outcome, longer := Attempt(id, start, longer, now, chosen, lease);
      GrantedStays(start, first, longer, id, lease);
      var saveNow := ReadClock();
      ghost var tried := longer;
      longer := OtherRequests(start, longer, now, chosen);
      GrantedStays(start, tried, longer, id, lease);
      StillHeld(between, table.rows, longer, id, lease);
      assert moves <= first <= tried <= longer;
      var works := Works();
      if !works {
        return false, longer;
      }
      ghost var before := longer;
      ok, longer := Store(id, lease, attempts, outcome, saveNow, start, longer, now, chosen);
      SaveIsLater(start, longer, id, lease, |moves|, |before|);
    }

    /** saveClaimedState with the state the outcome asks for. */
    method Store(id: nat, lease: int, attempts: nat, outcome: Outcome, saveNow: int, ghost start: map<nat, Event>,
                 ghost moves: seq<Move>, ghost now: int, ghost chosen: seq<nat>)
      returns (ok: bool, ghost longer: seq<Move>)
      requires ValidPlan(plan) && Noted(start, moves, now, chosen) && id in chosen && now <= saveNow
      requires Granted(start, moves, id, lease) && Tried(moves, id) == Some(outcome) && lease - LEASE <= saveNow
      requires id in table.rows && Holds(table.rows[id], lease) ==> table.rows[id].attempts == attempts
      modifies table
      ensures Noted(start, longer, now, chosen) && moves <= longer && Claimants(longer) == Claimants(moves)
      ensures ok <==> id in old(table.rows) && Holds(old(table.rows)[id], lease)
      ensures ok ==> SavedFrom(start, longer, id, lease, |moves|)
      ensures forall other :: Removes(other) in moves ==> Removes(other) in longer
    {
      hide Granted, Recorded, Orderly, ApplyAll;
      var state := StateAfter(outcome, attempts, plan, saveNow);
      ghost var m := Saves(id, lease, outcome, saveNow, state);
      StateConcludes(plan, outcome, attempts, saveNow);
      SaveRecords(plan, table.rows, m, attempts);
      ok := table.Save(id, lease, state);
      OneMore(start, moves, m, now, chosen);
      RecordedOneMore(plan, start, moves, m);
      longer := moves + [m];
      assert longer[..|moves|] == moves;
      assert ok ==> SavedAt(start, longer, id, lease, |moves|);
    }

    /**
     * ProcessBatch: the batch is chosen once, then each event is claimed, loaded, tried and saved by statements of its
     * own, while others go on using the table. The first statement that fails ends the batch; with a working database
     * that takes the deletion of a chosen event.
     */
    method ProcessBatch() returns (ok: bool, ghost now: int, ghost chosen: seq<nat>, ghost moves: seq<Move>)
      requires ValidPlan(plan)
      modifies this`clock, table
      ensures clock >= now >= old(clock)
      ensures FirstDue(old(table.rows), now, chosen) || (!ok && chosen == [] && moves == [])
      ensures Noted(old(table.rows), moves, now, chosen)
      ensures ok ==> Completed(old(table.rows), moves, chosen)
      ensures reliable && !ok ==> exists id | id in chosen :: Removes(id) in moves
    {
      var started := ReadClock();
      now, chosen, moves := started, [], [];
      var works := Works();
      if !works {
        return false, now, chosen, moves;
      }
      var ids := DueEventIds(table.rows, started);
      chosen := ids;
      DistinctIds(table.rows, started, ids);
      for n := 0 to |ids|
        invariant clock >= started
        invariant Noted(old(table.rows), moves, started, ids) && Claimants(moves) <= Elements(ids[..n])
        invariant Completed(old(table.rows), moves, ids[..n])
      {
        hide Noted, Handled;
        ghost var before := moves;
        ok, moves := Handle(ids[n], old(table.rows), moves, started, ids);
        if !ok {
          return;
        }
        CompletedStays(old(table.rows), before, moves, ids[..n]);
        assert ids[..n + 1] == ids[..n] + [ids[n]];
      }
      assert ids[..|ids|] == ids;
      ok := true;
    }

    /** Runner.Run: one batch after another, whether or not the one before it failed, up to some tick. */
    method Run(ticks: nat) returns (ghost rounds: seq<Round>)
      requires ValidPlan(plan)
      modifies this`clock, table
      ensures |rounds| == ticks
      ensures Rounds(old(table.rows), rounds, old(clock)) && table.rows == RowsAt(old(table.rows), rounds, |rounds|)
      ensures forall r | 0 <= r < |rounds| :: Recorded(plan, RowsAt(old(table.rows), rounds, r), rounds[r].moves)
    {
      rounds := [];
      for i := 0 to ticks
        invariant |rounds| == i && clock >= old(clock) && Rounds(old(table.rows), rounds, old(clock))
        invariant table.rows == RowsAt(old(table.rows), rounds, |rounds|)
        invariant forall r | 0 <= r < |rounds| :: Recorded(plan, RowsAt(old(table.rows), rounds, r), rounds[r].moves)
      {
        hide Recorded, LeavesLeases, FirstDue, Completed;
        ghost var start := table.rows;
        ghost var now, chosen, moves;
        var ok;
        ok, now, chosen, moves := ProcessBatch();
        ghost var longer := OtherRequests(start, moves, now, chosen);
        if ok {
          CompletedStays(start, moves, longer, chosen);
        }
        ghost var round := Round(now, chosen, longer, ok);
        RoundsOneMore(old(table.rows), rounds, round, old(clock));
        ghost var more := rounds + [round];
        forall r | 0 <= r < |more| ensures Recorded(plan, RowsAt(old(table.rows), more, r), more[r].moves) {
          RowsAtPrefix(old(table.rows), rounds, round, r);
        }
        rounds := more;
      }
    }
  }

  lemma NothingChanged(rows: map<nat, Event>, moves: seq<Move>)
    ensures LeavesLeases(rows, rows, moves)
  {
  }

  lemma OneMoreOfOthers(plan: Plan, rows: map<nat, Event>, moves: seq<Move>, m: Move, now: int, chosen: seq<nat>)
    requires Orderly(rows, moves, now, chosen) && Recorded(plan, rows, moves)
    requires m.Adds? || m.Retries? || m.Removes?
    ensures Orderly(rows, moves + [m], now, chosen) && Recorded(plan, rows, moves + [m])
    ensures ApplyAll(rows, moves + [m]) == Apply(ApplyAll(rows, moves), m)
    ensures Claimants(moves + [m]) == Claimants(moves) && forall id :: Tried(moves + [m], id) == Tried(moves, id)
  {
    OneMore(rows, moves, m, now, chosen);
    NoSaveToRecord(plan, rows, moves, m);
  }

  lemma NoSaveToRecord(plan: Plan, rows: map<nat, Event>, moves: seq<Move>, m: Move)
    requires Recorded(plan, rows, moves) && !m.Saves?
    ensures Recorded(plan, rows, moves + [m])
  {
    RecordedOneMore(plan, rows, moves, m);
  }

  /** A held row is as it was when it was claimed, or deleted. */
  lemma StillHeld(before: map<nat, Event>, after: map<nat, Event>, moves: seq<Move>, id: nat, lease: int)
    requires LeavesLeases(before, after, moves)
    ensures id in after && Holds(after[id], lease) ==> id in before && after[id] == before[id]
    ensures id in before && Holds(before[id], lease) && Removes(id) !in moves ==>
              id in after && after[id] == before[id]
  {
  }

  lemma StateConcludes(plan: Plan, outcome: Outcome, attempts: nat, time: int)
    requires ValidPlan(plan)
    ensures Concludes(StateAfter(outcome, attempts, plan, time), time)
  {
  }

  lemma SaveRecords(plan: Plan, rows: map<nat, Event>, m: Move, attempts: nat)
    requires m.Saves? && m.state == StateAfter(m.outcome, attempts, plan, m.time)
    requires m.id in rows && Holds(rows[m.id], m.lease) ==> rows[m.id].attempts == attempts
    ensures Records(plan, rows, m)
  {
    if m.id in rows {
      StateRecordsAttempt(plan, rows[m.id], m.outcome, m.time);
    }
  }

  lemma SaveIsLater(rows: map<nat, Event>, moves: seq<Move>, id: nat, lease: int, from: nat, later: nat)
    requires from <= later
    ensures SavedFrom(rows, moves, id, lease, later) ==> SavedFrom(rows, moves, id, lease, from)
  {
  }

  lemma {:induction false} RowsAtPrefix(rows: map<nat, Event>, rounds: seq<Round>, round: Round, r: nat)
    requires r <= |rounds|
    ensures RowsAt(rows, rounds + [round], r) == RowsAt(rows, rounds, r)
    decreases r
  {
    if r > 0 {
      assert (rounds + [round])[1..] == rounds[1..] + [round];
      RowsAtPrefix(ApplyAll(rows, rounds[0].moves), rounds[1..], round, r - 1);
    }
  }

  /** The open events that come before one in the queue. */
  ghost function Ahead(rows: map<nat, Event>, e: nat): set<nat>
    requires e in rows
  {
    set id | id in rows && Open(rows[id]) && Before(rows[id], id, rows[e], e)
  }

  /** The move brings an event into the queue that then stands before the given one. */
  predicate Overtakes(rows: map<nat, Event>, m: Move, e: nat) {
    && e in rows
    && match m
       case Adds(id, now) => id !in rows && Before(NewEvent(now), id, rows[e], e)
       case Retries(id, now) => id in rows && rows[id].status == Failed && Before(Reset(rows[id], now), id, rows[e], e)
       case _ => false
  }

  /** What others do brings exactly one event ahead when it overtakes, and none otherwise. */
  lemma OvertakesExactlyWhen(rows: map<nat, Event>, m: Move, e: nat)
    requires e in rows && Open(rows[e]) && !m.Claims? && !m.Saves? && m != Removes(e)
    ensures e in Apply(rows, m) && Apply(rows, m)[e] == rows[e]
    ensures Overtakes(rows, m, e) ==> m.id !in Ahead(rows, e) && Ahead(Apply(rows, m), e) == Ahead(rows, e) + {m.id}
    ensures !Overtakes(rows, m, e) ==>
              Ahead(Apply(rows, m), e) == if m.Removes? then Ahead(rows, e) - {m.id} else Ahead(rows, e)
  {
  }

  /** The move is an insert or a retry that takes effect. */
  predicate TakesEffect(rows: map<nat, Event>, m: Move) {
    (m.Adds? && m.id !in rows) || (m.Retries? && m.id in rows && rows[m.id].status == Failed)
  }

  /** The insert or retry read the clock before that time, or at that very time for an event that sorts first. */
  predicate ReadsBefore(rows: map<nat, Event>, m: Move, due: int, e: nat)
    requires e in rows && TakesEffect(rows, m)
  {
    var created := if m.Adds? then m.now else rows[m.id].created;
    m.now < due || (m.now == due && (created < rows[e].created || (created == rows[e].created && m.id < e)))
  }

  /**
   * Overtaking is a matter of the time that was read: exactly what read the clock before the event was due overtakes
   * it, and at the very time it is due what belongs to an earlier event. Nothing overtakes an event without a time.
   */
  lemma OnlyStaleReadingsOvertake(rows: map<nat, Event>, m: Move, e: nat)
    requires e in rows && TakesEffect(rows, m)
    ensures Overtakes(rows, m, e) <==> rows[e].next.Some? && ReadsBefore(rows, m, rows[e].next.value, e)
  {
  }

  /** How many moves of a round overtake the event. */
  function Overtakers(rows: map<nat, Event>, moves: seq<Move>, e: nat): nat {
    if moves == [] then 0
    else
      var before := ApplyAll(rows, moves[..|moves| - 1]);
      Overtakers(rows, moves[..|moves| - 1], e) + if Overtakes(before, moves[|moves| - 1], e) then 1 else 0
  }

  /** Nobody claims the event and nobody deletes it. */
  ghost predicate Spares(moves: seq<Move>, e: nat) {
    e !in Claimants(moves) && Removes(e) !in moves
  }

  /** What is still before the event: who is ahead of it, and those that wait to be claimed. */
  ghost function InTheWay(rows: map<nat, Event>, moves: seq<Move>, ids: set<nat>, e: nat): set<nat>
    requires e in rows
  {
    Ahead(rows, e) + (ids - Claimants(moves))
  }

  /** A claim or a save of another event moves nothing ahead, and a claimed one, granted or refused, is not ahead. */
  lemma OwnMoveMakesWay(rows: map<nat, Event>, m: Move, now: int, e: nat)
    requires DueIn(rows, e, now) && m.id != e
    requires (m.Claims? && m.now >= now) || (m.Saves? && Concludes(m.state, now))
    ensures e in Apply(rows, m) && Apply(rows, m)[e] == rows[e]
    ensures Ahead(Apply(rows, m), e) <= Ahead(rows, e)
    ensures m.Claims? ==> m.id !in Ahead(Apply(rows, m), e)
  {
  }

  lemma {:induction false} GrantedIsClaimed(rows: map<nat, Event>, moves: seq<Move>, id: nat, lease: int)
    requires Granted(rows, moves, id, lease)
    ensures id in Claimants(moves)
  {
    var i: nat :| GrantedAt(rows, moves, id, lease, i);
    ClaimIsNoted(moves, i);
  }

  lemma {:induction false} ClaimIsNoted(moves: seq<Move>, i: nat)
    requires i < |moves| && moves[i].Claims?
    ensures moves[i].id in Claimants(moves)
  {
    if i < |moves| - 1 {
      ClaimIsNoted(moves[..|moves| - 1], i);
    }
  }

  lemma SparedFront(rows: map<nat, Event>, moves: seq<Move>, now: int, chosen: seq<nat>, e: nat)
    requires moves != [] && Orderly(rows, moves, now, chosen) && Spares(moves, e)
    ensures
      var front, last := moves[..|moves| - 1], moves[|moves| - 1];
      && Orderly(rows, front, now, chosen) && Spares(front, e) && last != Removes(e) && moves == front + [last]
      && (last.Claims? || last.Saves? ==> last.id != e && last.id in chosen)
      && (last.Claims? ==> last.now >= now) && (last.Saves? ==> Concludes(last.state, now))
  {
    var front, last := moves[..|moves| - 1], moves[|moves| - 1];
    assert last in moves;
    if last.Saves? {
      GrantedIsClaimed(rows, front, last.id, last.lease);
    }
  }

  lemma {:induction false} UntouchedInRound(rows: map<nat, Event>, moves: seq<Move>, now: int, chosen: seq<nat>, e: nat)
    requires DueIn(rows, e, now) && Orderly(rows, moves, now, chosen) && Spares(moves, e)
    ensures e in ApplyAll(rows, moves) && ApplyAll(rows, moves)[e] == rows[e]
  {
    if moves != [] {
      var front, last := moves[..|moves| - 1], moves[|moves| - 1];
      SparedFront(rows, moves, now, chosen, e);
      UntouchedInRound(rows, front, now, chosen, e);
      if last.Claims? || last.Saves? {
        OwnMoveMakesWay(ApplyAll(rows, front), last, now, e);
      } else {
        OvertakesExactlyWhen(ApplyAll(rows, front), last, e);
      }
    }
  }

  lemma OneMoveInTheWay(rows: map<nat, Event>, moves: seq<Move>, m: Move, now: int, ids: set<nat>, e: nat)
    requires DueIn(rows, e, now) && m != Removes(e)
    requires m.Claims? || m.Saves? ==> m.id != e
    requires (m.Claims? ==> m.now >= now) && (m.Saves? ==> Concludes(m.state, now))
    ensures e in Apply(rows, m)
    ensures
      var newly := if m.Claims? && m.id in ids - Claimants(moves) then 1 else 0;
      |InTheWay(Apply(rows, m), moves + [m], ids, e)| + newly
      <= |InTheWay(rows, moves, ids, e)| + (if Overtakes(rows, m, e) then 1 else 0)
  {
    hide Ahead, Before, Apply;
    assert (moves + [m])[..|moves|] == moves;
    var before := InTheWay(rows, moves, ids, e);
    if m.Claims? || m.Saves? {
      OwnMoveMakesWay(rows, m, now, e);
      SubsetSize(InTheWay(Apply(rows, m), moves + [m], ids, e), if m.Claims? then before - {m.id} else before);
    } else {
      OvertakesExactlyWhen(rows, m, e);
      var after := InTheWay(Apply(rows, m), moves + [m], ids, e);
      if Overtakes(rows, m, e) {
        assert after == before + {m.id};
      } else {
        SubsetSize(after, before);
      }
    }
  }

  lemma DueStays(before: map<nat, Event>, after: map<nat, Event>, now: int, e: nat)
    requires DueIn(before, e, now) && e in after && after[e] == before[e]
    ensures DueIn(after, e, now)
  {
  }

  /** Of any events: those claimed in the round no longer stand before the event, and only overtaking adds one. */
  lemma {:induction false} RoundInTheWay(rows: map<nat, Event>, moves: seq<Move>, now: int, chosen: seq<nat>,
                                         ids: set<nat>, e: nat)
    requires DueIn(rows, e, now) && Orderly(rows, moves, now, chosen) && Spares(moves, e)
    ensures e in ApplyAll(rows, moves)
    ensures |InTheWay(ApplyAll(rows, moves), moves, ids, e)| + |ids * Claimants(moves)|
            <= |InTheWay(rows, [], ids, e)| + Overtakers(rows, moves, e)
  {
    hide InTheWay, Ahead, Overtakes, DueIn, Legal, Apply, Orderly, Spares;
    UntouchedInRound(rows, moves, now, chosen, e);
    if moves == [] {
      assert ids * Claimants(moves) == {};
    } else {
      var front, last := moves[..|moves| - 1], moves[|moves| - 1];
      SparedFront(rows, moves, now, chosen, e);
      RoundInTheWay(rows, front, now, chosen, ids, e);
      UntouchedInRound(rows, front, now, chosen, e);
      DueStays(rows, ApplyAll(rows, front), now, e);
      OneMoveInTheWay(ApplyAll(rows, front), front, last, now, ids, e);
      ClaimedOneMore(front, last, ids);
    }
  }

  lemma ClaimedOneMore(moves: seq<Move>, m: Move, ids: set<nat>)
    ensures |ids * Claimants(moves + [m])|
         == |ids * Claimants(moves)| + if m.Claims? && m.id in ids - Claimants(moves) then 1 else 0
  {
    assert (moves + [m])[..|moves|] == moves;
    assert ids * Claimants(moves + [m])
        == ids * Claimants(moves) + if m.Claims? && m.id in ids - Claimants(moves) then {m.id} else {};
  }

  /**
   * A completed batch that leaves a due event alone takes a whole batch of those ahead of it out of its way,
   * whatever others do in the meantime; only overtaking moves bring any back.
   */
  lemma BatchMakesWay(rows: map<nat, Event>, now: int, chosen: seq<nat>, moves: seq<Move>, e: nat)
    requires FirstDue(rows, now, chosen) && DueIn(rows, e, now)
    requires Orderly(rows, moves, now, chosen) && Completed(rows, moves, chosen) && Spares(moves, e)
    ensures e in ApplyAll(rows, moves) && ApplyAll(rows, moves)[e] == rows[e]
    ensures |Ahead(ApplyAll(rows, moves), e)| + 10 <= |Ahead(rows, e)| + Overtakers(rows, moves, e)
  {
    hide Completed, Orderly, FirstDue, Overtakers, Ahead, Claimants, InTheWay, ApplyAll, Spares, Elements, Due;
    var ids := Elements(chosen);
    AllClaimed(rows, moves, chosen);
    UntouchedInRound(rows, moves, now, chosen, e);
    RoundInTheWay(rows, moves, now, chosen, ids, e);
    NotReached(moves, chosen, e);
    ChosenAreAhead(rows, now, chosen, e);
    NoneWait(rows, [], ids, e);
    NoneWait(ApplyAll(rows, moves), moves, ids, e);
    assert ids * Claimants(moves) == ids;
    DistinctIds(rows, now, chosen);
    CountDistinct(chosen);
  }

  lemma NotReached(moves: seq<Move>, chosen: seq<nat>, e: nat)
    requires Spares(moves, e) && Elements(chosen) <= Claimants(moves)
    ensures e !in chosen
  {
    assert e in chosen ==> e in Elements(chosen);
  }

  /** Nobody waits to be claimed who is not ahead anyway. */
  lemma NoneWait(rows: map<nat, Event>, moves: seq<Move>, ids: set<nat>, e: nat)
    requires e in rows && ids - Claimants(moves) <= Ahead(rows, e)
    ensures InTheWay(rows, moves, ids, e) == Ahead(rows, e)
  {
  }

  /** A batch that fails brings nothing ahead of the event either. */
  lemma FailedBatchAddsNothing(rows: map<nat, Event>, now: int, chosen: seq<nat>, moves: seq<Move>, e: nat)
    requires DueIn(rows, e, now) && Orderly(rows, moves, now, chosen) && Spares(moves, e)
    ensures e in ApplyAll(rows, moves) && ApplyAll(rows, moves)[e] == rows[e]
    ensures |Ahead(ApplyAll(rows, moves), e)| <= |Ahead(rows, e)| + Overtakers(rows, moves, e)
  {
    hide Orderly, Overtakers, Ahead, Claimants, InTheWay, ApplyAll, Spares, Due;
    UntouchedInRound(rows, moves, now, chosen, e);
    RoundInTheWay(rows, moves, now, chosen, {}, e);
    assert {} <= Ahead(rows, e) && {} <= Ahead(ApplyAll(rows, moves), e);
    NoneWait(rows, [], {}, e);
    NoneWait(ApplyAll(rows, moves), moves, {}, e);
  }

  lemma AllClaimed(rows: map<nat, Event>, moves: seq<Move>, chosen: seq<nat>)
    requires Completed(rows, moves, chosen)
    ensures Elements(chosen) <= Claimants(moves)
  {
    forall id | id in Elements(chosen) ensures id in Claimants(moves) {
      var n :| 0 <= n < |chosen| && chosen[n] == id;
      var i: nat :| HandledAt(rows, moves, chosen[n], i);
      ClaimIsNoted(moves, i);
    }
  }

  lemma ChosenAreAhead(rows: map<nat, Event>, now: int, chosen: seq<nat>, e: nat)
    requires FirstDue(rows, now, chosen) && DueIn(rows, e, now) && e !in chosen
    ensures Elements(chosen) <= Ahead(rows, e) && |chosen| == 10
  {
    forall id | id in Elements(chosen) ensures id in Ahead(rows, e) {
      var n :| 0 <= n < |chosen| && chosen[n] == id;
    }
  }

  ghost function Elements(ids: seq<nat>): set<nat> {
    set id | id in ids
  }

  lemma DistinctIds(rows: map<nat, Event>, now: int, ids: seq<nat>)
    requires FirstDue(rows, now, ids)
    ensures forall m, n | 0 <= m < n < |ids| :: ids[m] != ids[n]
  {
    forall m, n | 0 <= m < n < |ids| ensures ids[m] != ids[n] {
      BeforeIsStrictTotal(rows[ids[m]], ids[m], rows[ids[n]], ids[n], rows[ids[n]], ids[n]);
    }
  }

  lemma {:induction false} CountDistinct(ids: seq<nat>)
    requires forall m, n | 0 <= m < n < |ids| :: ids[m] != ids[n]
    ensures |Elements(ids)| == |ids|
  {
    if ids != [] {
      var rest := ids[..|ids| - 1];
      CountDistinct(rest);
      assert Elements(ids) == Elements(rest) + {ids[|ids| - 1]};
    }
  }

  lemma {:induction false} SubsetSize(a: set<nat>, b: set<nat>)
    requires a <= b
    ensures |a| <= |b|
  {
    assert b == a + (b - a);
  }

  /** One batch, with everything that happened from its choice to the next one's. */
  datatype Round = Round(now: int, chosen: seq<nat>, moves: seq<Move>, completed: bool)

  ghost predicate IsRound(rows: map<nat, Event>, round: Round) {
    && Orderly(rows, round.moves, round.now, round.chosen)
    && (round.completed ==>
          FirstDue(rows, round.now, round.chosen) && Completed(rows, round.moves, round.chosen))
  }

  /** Batches one after another, from some time on; any of them may fail. */
  ghost predicate Rounds(rows: map<nat, Event>, rounds: seq<Round>, since: int)
    decreases |rounds|
  {
    rounds == [] ||
    (rounds[0].now >= since && IsRound(rows, rounds[0]) && Rounds(ApplyAll(rows, rounds[0].moves), rounds[1..], since))
  }

  /** The table after that many rounds. */
  function RowsAt(rows: map<nat, Event>, rounds: seq<Round>, r: nat): map<nat, Event>
    requires r <= |rounds|
    decreases r
  {
    if r == 0 then rows else RowsAt(ApplyAll(rows, rounds[0].moves), rounds[1..], r - 1)
  }

  lemma {:induction false} RoundsOneMore(rows: map<nat, Event>, rounds: seq<Round>, round: Round, since: int)
    requires Rounds(rows, rounds, since) && round.now >= since && IsRound(RowsAt(rows, rounds, |rounds|), round)
    ensures Rounds(rows, rounds + [round], since)
    ensures RowsAt(rows, rounds + [round], |rounds| + 1) == ApplyAll(RowsAt(rows, rounds, |rounds|), round.moves)
    decreases |rounds|
  {
    var more := rounds + [round];
    if rounds == [] {
      assert more[1..] == [];
    } else {
      assert more[1..] == rounds[1..] + [round];
      RoundsOneMore(ApplyAll(rows, rounds[0].moves), rounds[1..], round, since);
    }
  }

  function CompletedRounds(rounds: seq<Round>): nat {
    if rounds == [] then 0 else (if rounds[0].completed then 1 else 0) + CompletedRounds(rounds[1..])
  }

  /** The overtaking moves until a round claims or deletes the event. */
  ghost function OvertakersUntilClaimed(rows: map<nat, Event>, rounds: seq<Round>, e: nat): nat
    decreases |rounds|
  {
    if rounds == [] || !Spares(rounds[0].moves, e) then 0
    else Overtakers(rows, rounds[0].moves, e) + OvertakersUntilClaimed(ApplyAll(rows, rounds[0].moves), rounds[1..], e)
  }

  /** The round claims the event with success, and if it completes, saves it under the lease it was given. */
  ghost predicate ClaimedIn(rows: map<nat, Event>, round: Round, e: nat) {
    exists i: nat, lease: int :: GrantedAt(rows, round.moves, e, lease, i)
                                 && (round.completed ==> SavedFrom(rows, round.moves, e, lease, i + 1))
  }

  /** Up to its claim a due event is as it was, so the claim is granted. */
  lemma {:induction false} FirstClaimIsGranted(rows: map<nat, Event>, moves: seq<Move>, now: int, chosen: seq<nat>,
                                               e: nat)
    returns (lease: int, i: nat)
    requires DueIn(rows, e, now) && Orderly(rows, moves, now, chosen)
    requires e in Claimants(moves) && Removes(e) !in moves
    ensures e in chosen && GrantedAt(rows, moves, e, lease, i)
  {
    var front, last := moves[..|moves| - 1], moves[|moves| - 1];
    if e in Claimants(front) {
      lease, i := FirstClaimIsGranted(rows, front, now, chosen, e);
      assert moves[..i] == front[..i];
    } else {
      UntouchedInRound(rows, front, now, chosen, e);
      lease, i := last.now + LEASE, |front|;
    }
  }

  lemma {:induction false} OneClaimEach(rows: map<nat, Event>, moves: seq<Move>, now: int, chosen: seq<nat>,
                                        i: nat, j: nat)
    requires Orderly(rows, moves, now, chosen) && i < j < |moves| && moves[i].Claims? && moves[j].Claims?
    ensures moves[i].id != moves[j].id
  {
    var front := moves[..|moves| - 1];
    if j < |front| {
      OneClaimEach(rows, front, now, chosen, i, j);
    } else {
      ClaimIsNoted(front, i);
    }
  }

  lemma TouchedIsClaimed(rows: map<nat, Event>, round: Round, e: nat)
    requires DueIn(rows, e, round.now) && IsRound(rows, round)
    requires e in Claimants(round.moves) && Removes(e) !in round.moves
    ensures ClaimedIn(rows, round, e)
  {
    hide Orderly, FirstDue;
    var moves := round.moves;
    var lease, i := FirstClaimIsGranted(rows, moves, round.now, round.chosen, e);
    if round.completed {
      var n :| 0 <= n < |round.chosen| && round.chosen[n] == e;
      var k: nat :| HandledAt(rows, moves, round.chosen[n], k);
      if i < k {
        OneClaimEach(rows, moves, round.now, round.chosen, i, k);
      } else if k < i {
        OneClaimEach(rows, moves, round.now, round.chosen, k, i);
      }
    }
    assert GrantedAt(rows, moves, e, lease, i) && (round.completed ==> SavedFrom(rows, moves, e, lease, i + 1));
  }

  /**
   * No starvation: with k events ahead of it, a due event is claimed before more than k/10 batches have completed
   * without doing so, whatever others do and however many batches fail in between; each overtaking move counts as one
   * more event ahead. Up to that round the event is as it was, and a round that completes also saves it.
   */
  lemma {:induction false} ClaimedInTime(rows: map<nat, Event>, rounds: seq<Round>, since: int, e: nat)
    returns (r: nat)
    requires DueIn(rows, e, since) && Rounds(rows, rounds, since)
    requires CompletedRounds(rounds) >= (|Ahead(rows, e)| + OvertakersUntilClaimed(rows, rounds, e)) / 10 + 1
    ensures r < |rounds|
    ensures CompletedRounds(rounds[..r]) <= (|Ahead(rows, e)| + OvertakersUntilClaimed(rows, rounds, e)) / 10
    ensures e in RowsAt(rows, rounds, r) && RowsAt(rows, rounds, r)[e] == rows[e]
    ensures Removes(e) in rounds[r].moves || ClaimedIn(RowsAt(rows, rounds, r), rounds[r], e)
    decreases |rounds|
  {
    hide Ahead, FirstDue, Completed, Orderly, ClaimedIn;
    var round := rounds[0];
    if !Spares(round.moves, e) {
      r := 0;
      if Removes(e) !in round.moves {
        TouchedIsClaimed(rows, round, e);
      }
    } else {
      if round.completed {
        BatchMakesWay(rows, round.now, round.chosen, round.moves, e);
      } else {
        FailedBatchAddsNothing(rows, round.now, round.chosen, round.moves, e);
      }
      var later := ClaimedInTime(ApplyAll(rows, round.moves), rounds[1..], since, e);
      r := later + 1;
      assert rounds[..r][1..] == rounds[1..][..later];
    }
  }

  /** No insert and no retry that takes effect read the clock before the event was due, in the sense above. */
  ghost predicate FreshReadings(rows: map<nat, Event>, moves: seq<Move>, due: int, e: nat) {
    forall i | 0 <= i < |moves| && TakesEffect(ApplyAll(rows, moves[..i]), moves[i])
        && e in ApplyAll(rows, moves[..i]) ::
      !ReadsBefore(ApplyAll(rows, moves[..i]), moves[i], due, e)
  }

  lemma FreshFront(rows: map<nat, Event>, moves: seq<Move>, due: int, e: nat)
    requires moves != [] && FreshReadings(rows, moves, due, e)
    ensures
      var front, last := moves[..|moves| - 1], moves[|moves| - 1];
      && FreshReadings(rows, front, due, e)
      && (TakesEffect(ApplyAll(rows, front), last) && e in ApplyAll(rows, front) ==>
            !ReadsBefore(ApplyAll(rows, front), last, due, e))
  {
    hide ApplyAll, TakesEffect, ReadsBefore;
    var front := moves[..|moves| - 1];
    assert forall i | 0 <= i < |front| :: moves[..i] == front[..i] && moves[i] == front[i];
  }

  lemma FreshDoesNotOvertake(rows: map<nat, Event>, m: Move, e: nat)
    requires e in rows
    requires rows[e].next.Some? && TakesEffect(rows, m) ==> !ReadsBefore(rows, m, rows[e].next.value, e)
    ensures !Overtakes(rows, m, e)
  {
    if TakesEffect(rows, m) {
      OnlyStaleReadingsOvertake(rows, m, e);
    }
  }

  lemma {:induction false} NoneOvertakes(rows: map<nat, Event>, moves: seq<Move>, now: int, chosen: seq<nat>, e: nat)
    requires DueIn(rows, e, now) && Orderly(rows, moves, now, chosen) && Spares(moves, e)
    requires rows[e].next.Some? ==> FreshReadings(rows, moves, rows[e].next.value, e)
    ensures Overtakers(rows, moves, e) == 0
  {
    hide FreshReadings, Orderly, Spares, Overtakes, ReadsBefore, TakesEffect, ApplyAll;
    if moves != [] {
      var front, last := moves[..|moves| - 1], moves[|moves| - 1];
      SparedFront(rows, moves, now, chosen, e);
      if rows[e].next.Some? {
        FreshFront(rows, moves, rows[e].next.value, e);
      }
      NoneOvertakes(rows, front, now, chosen, e);
      UntouchedInRound(rows, front, now, chosen, e);
      FreshDoesNotOvertake(ApplyAll(rows, front), last, e);
    }
  }

  /** So with fresh readings only, the bound is k/10. */
  lemma ClaimedInTimeWithFreshReadings(rows: map<nat, Event>, rounds: seq<Round>, since: int, e: nat) returns (r: nat)
    requires DueIn(rows, e, since) && Rounds(rows, rounds, since)
    requires rows[e].next.Some? ==>
               forall n | 0 <= n < |rounds| ::
                 FreshReadings(RowsAt(rows, rounds, n), rounds[n].moves, rows[e].next.value, e)
    requires CompletedRounds(rounds) >= |Ahead(rows, e)| / 10 + 1
    ensures r < |rounds| && CompletedRounds(rounds[..r]) <= |Ahead(rows, e)| / 10
    ensures e in RowsAt(rows, rounds, r) && RowsAt(rows, rounds, r)[e] == rows[e]
    ensures Removes(e) in rounds[r].moves || ClaimedIn(RowsAt(rows, rounds, r), rounds[r], e)
  {
    hide FirstDue, Completed, Orderly, FreshReadings, OvertakersUntilClaimed, Rounds;
    FreshReadingsNeverOvertake(rows, rounds, since, e);
    r := ClaimedInTime(rows, rounds, since, e);
  }

  lemma {:induction false} FreshReadingsNeverOvertake(rows: map<nat, Event>, rounds: seq<Round>, since: int, e: nat)
    requires DueIn(rows, e, since) && Rounds(rows, rounds, since)
    requires rows[e].next.Some? ==>
               forall n | 0 <= n < |rounds| ::
                 FreshReadings(RowsAt(rows, rounds, n), rounds[n].moves, rows[e].next.value, e)
    ensures OvertakersUntilClaimed(rows, rounds, e) == 0
    decreases |rounds|
  {
    hide FreshReadings, FirstDue, Completed, Orderly;
    if rounds != [] && Spares(rounds[0].moves, e) {
      var round := rounds[0];
      assert RowsAt(rows, rounds, 0) == rows;
      NoneOvertakes(rows, round.moves, round.now, round.chosen, e);
      UntouchedInRound(rows, round.moves, round.now, round.chosen, e);
      var after := ApplyAll(rows, round.moves);
      forall n | 0 <= n < |rounds| - 1
        ensures RowsAt(after, rounds[1..], n) == RowsAt(rows, rounds, n + 1) && rounds[1..][n] == rounds[n + 1]
      {
      }
      FreshReadingsNeverOvertake(after, rounds[1..], since, e);
    }
  }

  /** The moves of a batch at 0 whose one event cannot be sent at all, and then event 2 is created at 50. */
  function FailingMoves(): seq<Move> {
    [Claims(1, 0), Tries(1, Unavailable), Saves(1, LEASE, Unavailable, 0, FinalState()), Adds(2, 50)]
  }

  lemma FailingBatch(start: map<nat, Event>)
    requires start == map[1 := NewEvent(0)]
    ensures Orderly(start, FailingMoves(), 0, [1]) && Handled(start, FailingMoves(), 1)
    ensures ApplyAll(start, FailingMoves()) == map[1 := Event(Failed, 0, None, 0), 2 := NewEvent(50)]
  {
    var claim, try, add := Claims(1, 0), Tries(1, Unavailable), Adds(2, 50);
    var save := Saves(1, LEASE, Unavailable, 0, FinalState());
    OneMore(start, [], claim, 0, [1]);
    assert ApplyAll(start, []) == start;
    assert [] + [claim] == [claim] && [claim] + [try] == [claim, try];
    assert [claim, try] + [save] == [claim, try, save] && [claim, try, save] + [add] == FailingMoves();
    hide Orderly, Granted, Handled, ApplyAll, Claimants, SavedFrom;
    ClaimIsGranted(start, [], [claim], 1, 0);
    OneMore(start, [claim], try, 0, [1]);
    GrantedStays(start, [claim], [claim, try], 1, LEASE);
    OneMore(start, [claim, try], save, 0, [1]);
    OneMore(start, [claim, try, save], add, 0, [1]);
    TablesOfTheBatch(start);
    FailedUnderLease(start, map[1 := Event(Delivering, 0, Some(LEASE), 0)]);
  }

  lemma TablesOfTheBatch(start: map<nat, Event>)
    requires start == map[1 := NewEvent(0)]
    ensures
      var claimed, failed := Apply(start, Claims(1, 0)), map[1 := Event(Failed, 0, None, 0)];
      && claimed == map[1 := Event(Delivering, 0, Some(LEASE), 0)]
      && Apply(claimed, Saves(1, LEASE, Unavailable, 0, FinalState())) == failed
      && Apply(failed, Adds(2, 50)) == map[1 := Event(Failed, 0, None, 0), 2 := NewEvent(50)]
  {
  }

  lemma FailedUnderLease(start: map<nat, Event>, claimed: map<nat, Event>)
    requires claimed == map[1 := Event(Delivering, 0, Some(LEASE), 0)]
    requires claimed == ApplyAll(start, [Claims(1, 0), Tries(1, Unavailable)])
    ensures Handled(start, FailingMoves(), 1)
  {
    hide ApplyAll, Handled;
    var batch := FailingMoves();
    assert batch[..2] == [Claims(1, 0), Tries(1, Unavailable)];
    assert SavedAt(start, batch, 1, LEASE, 2);
    assert SavedFrom(start, batch, 1, LEASE, 1);
    SavedIsHandled(start, [], [Claims(1, 0)], batch, 1, 0, 1);
  }

  /** Such a thing happens: a manual retry of event 1, asked for at 40 and committed after that batch, goes first. */
  lemma StaleRetryOvertakes()
    ensures
      var start := ApplyAll(map[], [Adds(1, 0)]);
      var before, after := ApplyAll(start, FailingMoves()), ApplyAll(start, FailingMoves() + [Retries(1, 40)]);
      && Rounds(start, [Round(0, [1], FailingMoves() + [Retries(1, 40)], true)], 0)
      && Overtakes(before, Retries(1, 40), 2) && DueIn(before, 2, 55) && DueIn(after, 2, 55)
      && Ahead(before, 2) == {} && Ahead(after, 2) == {1}
  {
    hide Orderly, Handled, Claimants;
    var start, retry := map[1 := NewEvent(0)], Retries(1, 40);
    assert [Adds(1, 0)][..0] == [];
    assert ApplyAll(map[], [Adds(1, 0)]) == start;
    var batch := FailingMoves();
    hide ApplyAll, FailingMoves;
    FailingBatch(start);
    OneMore(start, batch, retry, 0, [1]);
    HandledStays(start, batch, batch + [retry], 1);
    OvertakesExactlyWhen(ApplyAll(start, batch), retry, 2);
    assert Rounds(ApplyAll(start, batch + [retry]), [], 0);
    var round := Round(0, [1], batch + [retry], true);
    assert IsRound(start, round) && [round][1..] == [];
  }
}
