/**
 * Workers, manual retries and crashes on one event table, in every interleaving of their transactions. The clock only
 * moves forward; each claim and each manual retry reads it before its own transaction, which may commit much later.
 */
module DeliveryQueue {
  import opened Wrappers
  import opened DeliveryEvents

  /** What a worker remembers between its transactions. */
  datatype Worker =
    | Picked(event: nat, now: int)
    | Holding(event: nat, lease: int, ticket: nat)
    | Loaded(event: nat, lease: int, ticket: nat, attempts: nat)
    | Saving(event: nat, lease: int, ticket: nat, attempts: nat, outcome: Outcome, now: int)

  datatype Asked = Asked(event: nat, now: int)

  /**
   * Beside the table, the state keeps a history: claims are numbered, `latest` is the number of each event's last one,
   * and `counted` the counted saves since the event was created or last retried by hand.
   */
  datatype Queue = Queue(clock: int, events: map<nat, Event>, workers: map<nat, Worker>, asked: map<nat, Asked>,
                         claims: nat, latest: map<nat, nat>, counted: map<nat, nat>)

  const EMPTY := Queue(0, map[], map[], map[], 0, map[], map[])

  datatype Action =
    | Tick(to: int)
    | Add(event: nat, scheduled: int)
    | Remove(event: nat)
    | Pick(worker: nat, event: nat)
    | Claim(worker: nat)
    | Load(worker: nat)
    | Attempt(worker: nat, outcome: Outcome)
    | Save(worker: nat)
    | Drop(worker: nat)
    | AskRetry(user: nat, event: nat)
    | Retry(user: nat)

  predicate Enabled(q: Queue, a: Action) {
    match a
    case Tick(to) => to >= q.clock
    case Add(e, scheduled) => e !in q.counted && scheduled <= q.clock
    case Remove(e) => e in q.events
    case Pick(w, _) => w !in q.workers
    case Claim(w) => w in q.workers && q.workers[w].Picked?
    case Load(w) => w in q.workers && q.workers[w].Holding? && q.workers[w].event in q.events
    case Attempt(w, _) => w in q.workers && q.workers[w].Loaded?
    case Save(w) => w in q.workers && q.workers[w].Saving?
    case Drop(w) => w in q.workers
    case AskRetry(u, _) => u !in q.asked
    case Retry(u) => u in q.asked
  }

  function Step(plan: Plan, q: Queue, a: Action): Queue
    requires Enabled(q, a)
  {
    match a
    case Tick(to) => q.(clock := to)
    case Add(e, scheduled) =>
      q.(events := q.events[e := NewEvent(scheduled)], counted := q.counted[e := 0])
    case Remove(e) => q.(events := q.events - {e})
    case Pick(w, e) => q.(workers := q.workers[w := Picked(e, q.clock)])
    case Claim(w) =>
      var Picked(e, now) := q.workers[w];
      if e in q.events && Due(q.events[e], now) then
        q.(events := AfterClaim(q.events, e, now), workers := q.workers[w := Holding(e, now + LEASE, q.claims)],
           latest := q.latest[e := q.claims], claims := q.claims + 1)
      else q.(workers := q.workers - {w})
    case Load(w) =>
      var Holding(e, lease, ticket) := q.workers[w];
      q.(workers := q.workers[w := Loaded(e, lease, ticket, q.events[e].attempts)])
    case Attempt(w, outcome) =>
      var Loaded(e, lease, ticket, attempts) := q.workers[w];
      q.(workers := q.workers[w := Saving(e, lease, ticket, attempts, outcome, q.clock)])
    case Save(w) =>
      var Saving(e, lease, ticket, attempts, outcome, now) := q.workers[w];
      if Accepted(q, w) then
        q.(events := AfterSave(q.events, e, lease, StateAfter(outcome, attempts, plan, now)),
            workers := q.workers - {w},
           counted := if outcome.Unavailable? || e !in q.counted then q.counted else q.counted[e := q.counted[e] + 1])
      else q.(workers := q.workers - {w})
    case Drop(w) => q.(workers := q.workers - {w})
    case AskRetry(u, e) => q.(asked := q.asked[u := Asked(e, q.clock)])
    case Retry(u) =>
      var Asked(e, now) := q.asked[u];
      if e in q.events && q.events[e].status == Failed then
        q.(events := AfterRetry(q.events, e, now), asked := q.asked - {u}, counted := q.counted[e := 0])
      else q.(asked := q.asked - {u})
  }

  /** The worker is about to save and its fence lets it through. */
  predicate Accepted(q: Queue, w: nat) {
    && w in q.workers && q.workers[w].Saving?
    && q.workers[w].event in q.events && Holds(q.events[q.workers[w].event], q.workers[w].lease)
  }

  /** How long claims and manual retries may wait between reading the clock and committing. */
  datatype Waits = Waits(claims: int, retries: int)

  predicate WaitsAtMost(q: Queue, a: Action, waits: Waits) {
    && (a.Claim? && a.worker in q.workers && q.workers[a.worker].Picked? ==>
          q.clock - q.workers[a.worker].now <= waits.claims)
    && (a.Retry? && a.user in q.asked ==> q.clock - q.asked[a.user].now <= waits.retries)
  }

  /** A run in which nothing waits longer than that. */
  predicate Runs(plan: Plan, q: Queue, actions: seq<Action>, waits: Waits)
    decreases |actions|
  {
    actions == [] ||
    (&& Enabled(q, actions[0]) && WaitsAtMost(q, actions[0], waits)
     && Runs(plan, Step(plan, q, actions[0]), actions[1..], waits))
  }

  function After(plan: Plan, q: Queue, actions: seq<Action>, waits: Waits): Queue
    requires Runs(plan, q, actions, waits)
    decreases |actions|
  {
    if actions == [] then q else After(plan, Step(plan, q, actions[0]), actions[1..], waits)
  }

  // ---- what needs no waits on waiting ----

  predicate Leased(worker: Worker) {
    !worker.Picked?
  }

  /** The worker's claim is the event's last and the row still shows it. */
  predicate Current(q: Queue, worker: Worker)
    requires Leased(worker)
  {
    && worker.event in q.latest && worker.ticket == q.latest[worker.event]
    && (worker.event in q.events ==> Holds(q.events[worker.event], worker.lease))
  }

  ghost predicate Leases(q: Queue) {
    && (forall w | w in q.workers && q.workers[w].Picked? :: q.workers[w].now <= q.clock)
    && (forall u | u in q.asked :: q.asked[u].now <= q.clock)
    && (forall w | w in q.workers && Leased(q.workers[w]) :: LeaseStands(q, q.workers[w]))
    && (forall v, w | v in q.workers && w in q.workers && v != w && Leased(q.workers[v]) && Leased(q.workers[w]) ::
          q.workers[v].ticket != q.workers[w].ticket)
    && (forall e | e in q.latest :: q.latest[e] < q.claims)
    && q.events.Keys <= q.counted.Keys && q.latest.Keys <= q.counted.Keys
  }

  predicate LeaseStands(q: Queue, worker: Worker)
    requires Leased(worker)
  {
    worker.ticket < q.claims && worker.event in q.latest && (worker.lease <= q.clock || Current(q, worker))
  }

  lemma ClaimLeavesLease(plan: Plan, q: Queue, w: nat, v: nat)
    requires Leases(q) && Enabled(q, Claim(w)) && v in q.workers && v != w && Leased(q.workers[v])
    ensures LeaseStands(Step(plan, q, Claim(w)), q.workers[v])
  {
    assert LeaseStands(q, q.workers[v]);
  }

  lemma LeasesKeptByClaim(plan: Plan, q: Queue, w: nat)
    requires Leases(q) && Enabled(q, Claim(w))
    ensures Leases(Step(plan, q, Claim(w)))
  {
    var q' := Step(plan, q, Claim(w));
    forall v | v in q'.workers && Leased(q'.workers[v]) ensures LeaseStands(q', q'.workers[v]) {
      if v != w {
        ClaimLeavesLease(plan, q, w, v);
      }
    }
  }

  lemma LeasesKeptBySave(plan: Plan, q: Queue, w: nat)
    requires Leases(q) && Enabled(q, Save(w))
    ensures Leases(Step(plan, q, Save(w)))
  {
    var q' := Step(plan, q, Save(w));
    forall v | v in q'.workers && Leased(q'.workers[v])
      ensures LeaseStands(q', q'.workers[v])
    {
      assert v != w && q'.workers[v] == q.workers[v] && q.workers[v].ticket != q.workers[w].ticket;
    }
  }

  lemma LeasesKeptByWorker(plan: Plan, q: Queue, a: Action)
    requires Leases(q) && Enabled(q, a) && (a.Pick? || a.Load? || a.Attempt? || a.Drop?)
    ensures Leases(Step(plan, q, a))
  {
    var q' := Step(plan, q, a);
    forall v | v in q'.workers && Leased(q'.workers[v])
      ensures LeaseStands(q', q'.workers[v])
    {
      assert v in q.workers && Leased(q.workers[v]) && q.workers[v].ticket == q'.workers[v].ticket;
    }
  }

  lemma LeasesKeptByTable(plan: Plan, q: Queue, a: Action)
    requires Leases(q) && Enabled(q, a) && (a.Tick? || a.Add? || a.Remove? || a.AskRetry? || a.Retry?)
    ensures Leases(Step(plan, q, a))
  {
  }

  lemma LeasesKept(plan: Plan, q: Queue, a: Action)
    requires Leases(q) && Enabled(q, a)
    ensures Leases(Step(plan, q, a))
  {
    hide Leases, Step;
    match a
    case Claim(w) => LeasesKeptByClaim(plan, q, w);
    case Save(w) => LeasesKeptBySave(plan, q, w);
    case Pick(_, _) => LeasesKeptByWorker(plan, q, a);
    case Load(_) => LeasesKeptByWorker(plan, q, a);
    case Attempt(_, _) => LeasesKeptByWorker(plan, q, a);
    case Drop(_) => LeasesKeptByWorker(plan, q, a);
    case _ => LeasesKeptByTable(plan, q, a);
  }

  /**
   * At any time at most one worker that has not let go holds an unexpired lease on an event,
   * however late claims commit.
   */
  lemma OneUnexpiredLease(q: Queue, v: nat, w: nat)
    requires Leases(q) && v in q.workers && w in q.workers && Leased(q.workers[v]) && Leased(q.workers[w])
    requires q.workers[v].event == q.workers[w].event
    requires q.workers[v].lease > q.clock && q.workers[w].lease > q.clock
    ensures v == w
  {
  }

  /** The longest an open event may have to wait for its next attempt. */
  function Horizon(plan: Plan): int {
    Max(LEASE, MaxDelay(plan.delays))
  }

  /** No open event is stranded: each becomes due within the horizon. */
  ghost predicate Timely(plan: Plan, q: Queue) {
    && (forall e | e in q.events && q.events[e].status != Delivered && q.events[e].status != Failed ::
        q.events[e].next.Some? && q.events[e].next.value <= q.clock + Horizon(plan))
    && (forall w | w in q.workers && q.workers[w].Saving? :: q.workers[w].now <= q.clock)
    && (forall w | w in q.workers && q.workers[w].Picked? :: q.workers[w].now <= q.clock)
    && (forall u | u in q.asked :: q.asked[u].now <= q.clock)
  }

  lemma TimelyKeptBySave(plan: Plan, q: Queue, w: nat)
    requires ValidPlan(plan) && Timely(plan, q) && Enabled(q, Save(w))
    ensures Timely(plan, Step(plan, q, Save(w)))
  {
    hide StateAfter;
    SavedInTime(plan, q.workers[w]);
  }

  lemma TimelyKept(plan: Plan, q: Queue, a: Action)
    requires ValidPlan(plan) && Timely(plan, q) && Enabled(q, a)
    ensures Timely(plan, Step(plan, q, a))
  {
    if a.Save? {
      TimelyKeptBySave(plan, q, a.worker);
    } else {
      hide StateAfter;
      hide MaxDelay;
      assert Horizon(plan) >= LEASE;
    }
  }

  lemma SavedInTime(plan: Plan, worker: Worker)
    requires ValidPlan(plan) && worker.Saving?
    ensures var state := StateAfter(worker.outcome, worker.attempts, plan, worker.now);
            state.status == Retrying ==> state.next.Some? && worker.now < state.next.value <= worker.now + Horizon(plan)
    ensures var state := StateAfter(worker.outcome, worker.attempts, plan, worker.now);
            state.status != Pending && state.status != Delivering
  {
  }

  /** The step is a save of that event which its fence lets through. */
  predicate SavesNow(q: Queue, a: Action, e: nat) {
    a.Save? && Accepted(q, a.worker) && q.workers[a.worker].event == e
  }

  /**
   * An event's life: delivered is final and comes from a save of what was sent, failed is left only by a manual retry,
   * and only a save that its fence lets through ends an attempt.
   */
  lemma Lifecycle(plan: Plan, q: Queue, a: Action, e: nat)
    requires Leases(q) && Enabled(q, a) && e in q.events && e in Step(plan, q, a).events
    ensures var before, after := q.events[e], Step(plan, q, a).events[e];
            && (before.status == Delivered ==> after == before)
            && (before.status == Failed && after != before ==>
                a.Retry? && after.status == Pending && after.attempts == 0)
            && (before.status != Delivered ==>
                (after.status == Delivered <==> SavesNow(q, a, e) && q.workers[a.worker].outcome == Sent))
            && (SavesNow(q, a, e) ==> before.status == Delivering != after.status)
            && (before.status != Failed && after.status == Failed ==>
                  SavesNow(q, a, e) && q.workers[a.worker].outcome != Sent)
            && (after.attempts != before.attempts ==>
                || (SavesNow(q, a, e) && q.workers[a.worker].outcome != Unavailable)
                || (a.Retry? && before.status == Failed))
            && after.created == before.created
  {
  }

  // ---- what rests on claims, or on manual retries, waiting less than a lease ----

  predicate Overtaken(q: Queue, worker: Worker)
    requires Leased(worker) && worker.event in q.latest
  {
    worker.ticket != q.latest[worker.event]
  }

  /** A worker that lost its event to a later claim holds a lease strictly below the one the row shows. */
  ghost predicate Fences(q: Queue) {
    forall w | w in q.workers && Leased(q.workers[w]) && q.workers[w].event in q.events ::
      var worker := q.workers[w];
      && worker.event in q.latest
      && if !Overtaken(q, worker) then Holds(q.events[worker.event], worker.lease)
         else worker.lease <= q.clock && BelowLease(q.events[worker.event], worker.lease)
  }

  predicate BelowLease(e: Event, lease: int) {
    e.status == Delivering ==> e.next.Some? && lease < e.next.value
  }

  /** Nor will it be as high as the lease that the next claim of an open event will give. */
  predicate BelowNextLease(e: Event, lease: int) {
    Open(e) ==> e.next.Some? && lease < e.next.value + (if e.status == Delivering then 0 else LEASE)
  }

  /** The fence with room for the next claim, however late it comes. */
  ghost predicate Spaced(q: Queue) {
    && (forall e | e in q.events && Open(q.events[e]) :: q.events[e].next.Some?)
    && (forall w | w in q.workers && q.workers[w].Saving? :: q.workers[w].now >= q.workers[w].lease - LEASE)
    && (forall w | w in q.workers && Leased(q.workers[w]) :: q.workers[w].lease - LEASE <= q.clock)
    && forall w | w in q.workers && Leased(q.workers[w]) && q.workers[w].event in q.events ::
        KeepsDistance(q, q.workers[w])
  }

  predicate KeepsDistance(q: Queue, worker: Worker)
    requires Leased(worker) && worker.event in q.events
  {
    && worker.event in q.latest
    && if !Overtaken(q, worker) then Holds(q.events[worker.event], worker.lease)
       else worker.lease <= q.clock && BelowNextLease(q.events[worker.event], worker.lease)
  }

  lemma SpacedIsFenced(q: Queue)
    requires Spaced(q)
    ensures Fences(q)
  {
  }

  lemma ClaimKeepsDistance(plan: Plan, q: Queue, w: nat, v: nat)
    requires Leases(q) && Spaced(q) && Enabled(q, Claim(w)) && v in q.workers && v != w && Leased(q.workers[v])
    requires q.workers[v].event in q.events
    ensures KeepsDistance(Step(plan, q, Claim(w)), q.workers[v])
  {
    assert KeepsDistance(q, q.workers[v]) && q.workers[v].ticket < q.claims;
  }

  lemma SpacedKeptByClaim(plan: Plan, q: Queue, w: nat)
    requires Leases(q) && Spaced(q) && Enabled(q, Claim(w))
    ensures Spaced(Step(plan, q, Claim(w)))
  {
    var q' := Step(plan, q, Claim(w));
    assert q'.events.Keys == q.events.Keys;
    forall v | v in q'.workers && Leased(q'.workers[v]) && q'.workers[v].event in q'.events
      ensures KeepsDistance(q', q'.workers[v])
    {
      if v != w {
        hide KeepsDistance;
        ClaimKeepsDistance(plan, q, w, v);
      }
    }
  }

  lemma SpacedKeptBySave(plan: Plan, q: Queue, w: nat)
    requires ValidPlan(plan) && Leases(q) && Spaced(q) && Enabled(q, Save(w))
    ensures Spaced(Step(plan, q, Save(w)))
  {
    var q' := Step(plan, q, Save(w));
    SavedInTime(plan, q.workers[w]);
    forall v | v in q'.workers && Leased(q'.workers[v]) && q'.workers[v].event in q'.events
      ensures v != w && q'.workers[v] == q.workers[v] && q.workers[v].event in q.events
              && q.workers[v].ticket != q.workers[w].ticket
    {
    }
  }

  lemma SpacedKeptByRetry(plan: Plan, q: Queue, u: nat, waits: Waits)
    requires Leases(q) && Spaced(q) && Enabled(q, Retry(u)) && waits.retries < LEASE && WaitsAtMost(q, Retry(u), waits)
    ensures Spaced(Step(plan, q, Retry(u)))
  {
  }

  lemma SpacedKeptByWorker(plan: Plan, q: Queue, a: Action)
    requires Leases(q) && Spaced(q) && Enabled(q, a) && (a.Pick? || a.Load? || a.Attempt? || a.Drop?)
    ensures Spaced(Step(plan, q, a))
  {
    var q' := Step(plan, q, a);
    forall v | v in q'.workers && Leased(q'.workers[v])
      ensures v in q.workers && Leased(q.workers[v]) && q.workers[v].ticket == q'.workers[v].ticket
              && q.workers[v].event == q'.workers[v].event && q.workers[v].lease == q'.workers[v].lease
    {
    }
  }

  lemma SpacedKeptByTable(plan: Plan, q: Queue, a: Action)
    requires Leases(q) && Spaced(q) && Enabled(q, a) && (a.Tick? || a.Add? || a.Remove? || a.AskRetry?)
    ensures Spaced(Step(plan, q, a))
  {
    var q' := Step(plan, q, a);
    forall v | v in q'.workers && Leased(q'.workers[v]) && q'.workers[v].event in q'.events
      ensures q'.workers == q.workers && q'.latest == q.latest && q.workers[v].event in q.events
              && q'.events[q.workers[v].event] == q.events[q.workers[v].event]
    {
    }
  }

  /** However long claims wait, a manual retry is all that can bring an event's next lease down to an older one. */
  lemma SpacedKept(plan: Plan, q: Queue, a: Action, waits: Waits)
    requires ValidPlan(plan) && Leases(q) && Spaced(q) && Enabled(q, a) && WaitsAtMost(q, a, waits)
    requires a.Retry? ==> waits.retries < LEASE
    ensures Spaced(Step(plan, q, a))
  {
    if a.Claim? {
      SpacedKeptByClaim(plan, q, a.worker);
    } else if a.Save? {
      SpacedKeptBySave(plan, q, a.worker);
    } else if a.Retry? {
      SpacedKeptByRetry(plan, q, a.user, waits);
    } else if a.Pick? || a.Load? || a.Attempt? || a.Drop? {
      SpacedKeptByWorker(plan, q, a);
    } else {
      SpacedKeptByTable(plan, q, a);
    }
  }

  lemma FencesKeptByClaim(plan: Plan, q: Queue, w: nat, waits: Waits)
    requires Leases(q) && Fences(q) && Enabled(q, Claim(w)) && waits.claims < LEASE && WaitsAtMost(q, Claim(w), waits)
    ensures Fences(Step(plan, q, Claim(w)))
  {
    var q' := Step(plan, q, Claim(w));
    forall v | v in q'.workers && v != w && Leased(q'.workers[v]) && q'.workers[v].event in q'.events
      ensures q'.workers[v] == q.workers[v] && q.workers[v].event in q.events && q.workers[v].ticket < q.claims
    {
    }
  }

  lemma FencesKeptBySave(plan: Plan, q: Queue, w: nat)
    requires Leases(q) && Fences(q) && Enabled(q, Save(w))
    ensures Fences(Step(plan, q, Save(w)))
  {
    var q' := Step(plan, q, Save(w));
    forall v | v in q'.workers && Leased(q'.workers[v]) && q'.workers[v].event in q'.events
      ensures v != w && q'.workers[v] == q.workers[v] && q.workers[v].event in q.events
                && q.workers[v].ticket != q.workers[w].ticket
    {
    }
  }

  lemma FencesKeptByWorker(plan: Plan, q: Queue, a: Action)
    requires Fences(q) && Enabled(q, a) && (a.Pick? || a.Load? || a.Attempt? || a.Drop?)
    ensures Fences(Step(plan, q, a))
  {
    var q' := Step(plan, q, a);
    forall v | v in q'.workers && Leased(q'.workers[v])
      ensures v in q.workers && Leased(q.workers[v]) && q.workers[v].ticket == q'.workers[v].ticket
              && q.workers[v].event == q'.workers[v].event && q.workers[v].lease == q'.workers[v].lease
    {
    }
  }

  lemma FencesKeptByTable(plan: Plan, q: Queue, a: Action)
    requires Leases(q) && Fences(q) && Enabled(q, a) && (a.Tick? || a.Add? || a.Remove? || a.AskRetry?)
    ensures Fences(Step(plan, q, a))
  {
    var q' := Step(plan, q, a);
    forall v | v in q'.workers && Leased(q'.workers[v]) && q'.workers[v].event in q'.events
      ensures q'.workers == q.workers && q'.latest == q.latest && q.workers[v].event in q.events
              && q'.events[q.workers[v].event] == q.events[q.workers[v].event]
    {
    }
  }

  lemma FencesKeptByRetry(plan: Plan, q: Queue, u: nat)
    requires Fences(q) && Enabled(q, Retry(u))
    ensures Fences(Step(plan, q, Retry(u)))
  {
  }

  lemma FencesKept(plan: Plan, q: Queue, a: Action, waits: Waits)
    requires Leases(q) && Fences(q) && Enabled(q, a) && waits.claims < LEASE && WaitsAtMost(q, a, waits)
    ensures Fences(Step(plan, q, a))
  {
    if a.Claim? {
      FencesKeptByClaim(plan, q, a.worker, waits);
    } else if a.Save? {
      FencesKeptBySave(plan, q, a.worker);
    } else if a.Retry? {
      FencesKeptByRetry(plan, q, a.user);
    } else if a.Pick? || a.Load? || a.Attempt? || a.Drop? {
      FencesKeptByWorker(plan, q, a);
    } else {
      FencesKeptByTable(plan, q, a);
    }
  }

  /**
   * The attempt count of each event is the number of its counted saves, never above the limit and below it while the
   * event is open. It is read after the claim, in a query of its own; that it is still right at the save is the fence.
   */
  ghost predicate Accounts(plan: Plan, q: Queue) {
    && (forall e | e in q.events :: e in q.counted && Accounted(plan, q.events[e], q.counted[e]))
    && (forall w | w in q.workers && Counting(q, q.workers[w]) ::
        q.workers[w].attempts == q.events[q.workers[w].event].attempts)
  }

  predicate Accounted(plan: Plan, e: Event, counted: nat) {
    e.attempts == counted <= plan.limit && (Open(e) ==> e.attempts < plan.limit)
  }

  predicate Counting(q: Queue, worker: Worker) {
    && (worker.Loaded? || worker.Saving?)
    && worker.event in q.events && worker.event in q.latest && worker.ticket == q.latest[worker.event]
  }

  lemma SavedIsCounted(plan: Plan, e: Event, worker: Worker)
    requires ValidPlan(plan) && worker.Saving? && worker.attempts == e.attempts < plan.limit
    ensures var after := Saved(e, StateAfter(worker.outcome, worker.attempts, plan, worker.now));
            && after.attempts == (if worker.outcome.Unavailable? then e.attempts else e.attempts + 1) <= plan.limit
            && (Open(after) ==> after.attempts < plan.limit)
  {
  }

  lemma AccountsKeptBySave(plan: Plan, q: Queue, w: nat)
    requires ValidPlan(plan) && Leases(q) && Fences(q) && Accounts(plan, q) && Enabled(q, Save(w))
    ensures Accounts(plan, Step(plan, q, Save(w)))
  {
    var q' := Step(plan, q, Save(w));
    if Accepted(q, w) {
      assert Counting(q, q.workers[w]);
      SavedIsCounted(plan, q.events[q.workers[w].event], q.workers[w]);
    }
    forall e | e in q'.events ensures e in q'.counted && Accounted(plan, q'.events[e], q'.counted[e]) {
      assert e in q.events && Accounted(plan, q.events[e], q.counted[e]);
    }
    OthersStillCount(plan, q, w);
  }

  lemma OthersStillCount(plan: Plan, q: Queue, w: nat)
    requires Leases(q) && Accounts(plan, q) && Enabled(q, Save(w))
    requires Accepted(q, w) ==> Counting(q, q.workers[w])
    ensures var q' := Step(plan, q, Save(w));
            forall v | v in q'.workers && Counting(q', q'.workers[v]) ::
                q'.workers[v].attempts == q'.events[q'.workers[v].event].attempts
  {
    var q' := Step(plan, q, Save(w));
    forall v | v in q'.workers && Counting(q', q'.workers[v])
      ensures q'.workers[v].attempts == q'.events[q'.workers[v].event].attempts
    {
      assert v != w && Counting(q, q.workers[v]) && q.workers[v].ticket != q.workers[w].ticket;
    }
  }

  lemma AccountsKeptByClaim(plan: Plan, q: Queue, w: nat)
    requires Leases(q) && Accounts(plan, q) && Enabled(q, Claim(w))
    ensures Accounts(plan, Step(plan, q, Claim(w)))
  {
    var q' := Step(plan, q, Claim(w));
    forall v | v in q'.workers && Counting(q', q'.workers[v])
      ensures q'.workers[v].attempts == q'.events[q'.workers[v].event].attempts
    {
      assert v != w && Counting(q, q.workers[v]);
    }
  }

  lemma AccountsKeptByWorker(plan: Plan, q: Queue, a: Action)
    requires Accounts(plan, q) && Enabled(q, a) && (a.Pick? || a.Load? || a.Attempt? || a.Drop?)
    ensures Accounts(plan, Step(plan, q, a))
  {
  }

  lemma AccountsKeptByTable(plan: Plan, q: Queue, a: Action)
    requires ValidPlan(plan) && Leases(q) && Accounts(plan, q)
    requires Enabled(q, a) && (a.Tick? || a.Add? || a.Remove? || a.AskRetry?)
    ensures Accounts(plan, Step(plan, q, a))
  {
    var q' := Step(plan, q, a);
    forall v | v in q'.workers && Counting(q', q'.workers[v])
      ensures q'.workers == q.workers && q'.latest == q.latest && Counting(q, q.workers[v])
              && q'.events[q.workers[v].event] == q.events[q.workers[v].event]
    {
    }
  }

  lemma AccountsKeptByRetry(plan: Plan, q: Queue, u: nat)
    requires ValidPlan(plan) && Fences(q) && Accounts(plan, q) && Enabled(q, Retry(u))
    ensures Accounts(plan, Step(plan, q, Retry(u)))
  {
    var q' := Step(plan, q, Retry(u));
    forall v | v in q'.workers && Counting(q', q'.workers[v])
      ensures Counting(q, q.workers[v]) && q'.events[q.workers[v].event] == q.events[q.workers[v].event]
    {
      assert Holds(q.events[q.workers[v].event], q.workers[v].lease);
    }
  }

  lemma AccountsKept(plan: Plan, q: Queue, a: Action)
    requires ValidPlan(plan) && Leases(q) && Fences(q) && Accounts(plan, q) && Enabled(q, a)
    ensures Accounts(plan, Step(plan, q, a))
  {
    if a.Claim? {
      AccountsKeptByClaim(plan, q, a.worker);
    } else if a.Save? {
      AccountsKeptBySave(plan, q, a.worker);
    } else if a.Pick? || a.Load? || a.Attempt? || a.Drop? {
      AccountsKeptByWorker(plan, q, a);
    } else if a.Retry? {
      AccountsKeptByRetry(plan, q, a.user);
    } else {
      AccountsKeptByTable(plan, q, a);
    }
  }

  /** Under the fence a save that is let through records its attempt on the row as it then is. */
  lemma SavesRecordAttempts(plan: Plan, q: Queue, a: Action, e: nat)
    requires Fences(q) && Accounts(plan, q) && Enabled(q, a) && SavesNow(q, a, e)
    ensures
      var worker := q.workers[a.worker];
      e in Step(plan, q, a).events
      && RecordsAttempt(plan, q.events[e], worker.outcome, worker.now, Step(plan, q, a).events[e])
  {
    var worker := q.workers[a.worker];
    assert Counting(q, worker);
    StateRecordsAttempt(plan, q.events[e], worker.outcome, worker.now);
  }

  // ---- whole runs ----

  /** Over every run, however long claims wait: one unexpired lease per event, and no open event stranded. */
  lemma {:induction false} RunsStayTimely(plan: Plan, q: Queue, actions: seq<Action>, waits: Waits)
    requires ValidPlan(plan) && Leases(q) && Timely(plan, q) && Runs(plan, q, actions, waits)
    ensures Leases(After(plan, q, actions, waits)) && Timely(plan, After(plan, q, actions, waits))
    decreases |actions|
  {
    if actions != [] {
      LeasesKept(plan, q, actions[0]);
      TimelyKept(plan, q, actions[0]);
      RunsStayTimely(plan, Step(plan, q, actions[0]), actions[1..], waits);
    }
  }

  /**
   * No event is stranded: in every state of every run from the empty queue, an event neither delivered nor failed is
   * given to whoever claims it with a reading that is the longer of a lease and the longest delay ahead.
   */
  lemma NeverStranded(plan: Plan, actions: seq<Action>, waits: Waits, e: nat, w: nat, now: int)
    requires ValidPlan(plan) && Runs(plan, EMPTY, actions, waits) && e in After(plan, EMPTY, actions, waits).events
    requires var event := After(plan, EMPTY, actions, waits).events[e];
             event.status != Delivered && event.status != Failed
    requires var q := After(plan, EMPTY, actions, waits);
             w !in q.workers && now >= q.clock + 60_000_000_000 && now >= q.clock + MaxDelay(plan.delays)
    ensures
      var q := After(plan, EMPTY, actions, waits);
      var picked := Step(plan, Step(plan, q, Tick(now)), Pick(w, e));
      && Enabled(q, Tick(now)) && Enabled(Step(plan, q, Tick(now)), Pick(w, e)) && Enabled(picked, Claim(w))
      && var after := Step(plan, picked, Claim(w));
         && after.events == q.events[e := q.events[e].(status := Delivering, next := Some(now + 60_000_000_000))]
         && after.workers == q.workers[w := Holding(e, now + 60_000_000_000, q.claims)]
  {
    hide Runs, After, Leases, MaxDelay;
    assert Leases(EMPTY) && Timely(plan, EMPTY) by {
      EmptyIsSound(plan);
    }
    RunsStayTimely(plan, EMPTY, actions, waits);
    var q := After(plan, EMPTY, actions, waits);
    assert LEASE == 60_000_000_000;
    var picked := Step(plan, Step(plan, q, Tick(now)), Pick(w, e));
    assert picked.workers == q.workers[w := Picked(e, now)] && picked.events == q.events;
    assert Due(q.events[e], now);
  }

  lemma EmptyIsSound(plan: Plan)
    ensures Leases(EMPTY) && Timely(plan, EMPTY)
  {
  }

  /** A delivered event stays as it is, as long as it is there at all. */
  lemma {:induction false} DeliveredIsFinal(plan: Plan, q: Queue, actions: seq<Action>, waits: Waits, e: nat)
    requires Leases(q) && Runs(plan, q, actions, waits) && e in q.counted
    requires e in q.events ==> q.events[e].status == Delivered
    ensures e in After(plan, q, actions, waits).events ==>
              e in q.events && After(plan, q, actions, waits).events[e] == q.events[e]
    decreases |actions|
  {
    if actions != [] {
      var q1 := Step(plan, q, actions[0]);
      LeasesKept(plan, q, actions[0]);
      if e in q.events && e in q1.events {
        Lifecycle(plan, q, actions[0], e);
      }
      DeliveredIsFinal(plan, q1, actions[1..], waits, e);
    }
  }

  /** Some step of the run saves the event as sent. */
  predicate SavedAsSent(plan: Plan, q: Queue, actions: seq<Action>, waits: Waits, e: nat)
    requires Runs(plan, q, actions, waits)
    decreases |actions|
  {
    actions != [] &&
    ((SavesNow(q, actions[0], e) && q.workers[actions[0].worker].outcome == Sent)
     || SavedAsSent(plan, Step(plan, q, actions[0]), actions[1..], waits, e))
  }

  /** Over every run an event ends as delivered exactly when it began so, or an attempt that sent it was saved. */
  lemma {:induction false} DeliveredExactlyWhenSent(plan: Plan, q: Queue, actions: seq<Action>, waits: Waits, e: nat)
    requires Leases(q) && Runs(plan, q, actions, waits) && e in After(plan, q, actions, waits).events
    ensures After(plan, q, actions, waits).events[e].status == Delivered <==>
              (e in q.events && q.events[e].status == Delivered) || SavedAsSent(plan, q, actions, waits, e)
    decreases |actions|
  {
    if actions != [] {
      var q1 := Step(plan, q, actions[0]);
      LeasesKept(plan, q, actions[0]);
      DeliveredExactlyWhenSent(plan, q1, actions[1..], waits, e);
      if e in q.events && e !in q1.events {
        RemovedStaysAway(plan, q1, actions[1..], waits, e);
      } else if e in q.events {
        Lifecycle(plan, q, actions[0], e);
      } else if e in q1.events {
        assert q1.events[e] == Event(Pending, 0, Some(actions[0].scheduled), actions[0].scheduled);
      }
    }
  }

  /** Keys are never used twice. */
  lemma {:induction false} RemovedStaysAway(plan: Plan, q: Queue, actions: seq<Action>, waits: Waits, e: nat)
    requires Leases(q) && Runs(plan, q, actions, waits) && e in q.counted && e !in q.events
    ensures e !in After(plan, q, actions, waits).events
    decreases |actions|
  {
    if actions != [] {
      LeasesKept(plan, q, actions[0]);
      RemovedStaysAway(plan, Step(plan, q, actions[0]), actions[1..], waits, e);
    }
  }

  ghost predicate NoRetries(actions: seq<Action>) {
    forall i | 0 <= i < |actions| :: !actions[i].Retry?
  }

  /** However long claims wait, as long as no manual retry waits for a lease, or there is none. */
  lemma {:induction false} RunsStaySpaced(plan: Plan, q: Queue, actions: seq<Action>, waits: Waits)
    requires ValidPlan(plan) && Leases(q) && Spaced(q) && Accounts(plan, q) && Runs(plan, q, actions, waits)
    requires waits.retries < LEASE || NoRetries(actions)
    ensures
      var after := After(plan, q, actions, waits);
      Leases(after) && Spaced(after) && Accounts(plan, after)
    decreases |actions|
  {
    if actions != [] {
      SpacedIsFenced(q);
      LeasesKept(plan, q, actions[0]);
      SpacedKept(plan, q, actions[0], waits);
      AccountsKept(plan, q, actions[0]);
      RunsStaySpaced(plan, Step(plan, q, actions[0]), actions[1..], waits);
    }
  }

  /** And however long manual retries wait, as long as no claim waits for a lease. */
  lemma {:induction false} RunsStayFenced(plan: Plan, q: Queue, actions: seq<Action>, waits: Waits)
    requires ValidPlan(plan) && waits.claims < LEASE
    requires Leases(q) && Fences(q) && Accounts(plan, q) && Runs(plan, q, actions, waits)
    ensures
      var after := After(plan, q, actions, waits);
      Leases(after) && Fences(after) && Accounts(plan, after)
    decreases |actions|
  {
    if actions != [] {
      LeasesKept(plan, q, actions[0]);
      FencesKept(plan, q, actions[0], waits);
      AccountsKept(plan, q, actions[0]);
      RunsStayFenced(plan, Step(plan, q, actions[0]), actions[1..], waits);
    }
  }

  /** Saves that count against the limit, among the steps of a run. */
  function CountedSaves(plan: Plan, q: Queue, actions: seq<Action>, waits: Waits, e: nat): nat
    requires Runs(plan, q, actions, waits)
    decreases |actions|
  {
    if actions == [] then 0
    else
      (if actions[0].Save? && Accepted(q, actions[0].worker) && q.workers[actions[0].worker].event == e
          && !q.workers[actions[0].worker].outcome.Unavailable? then 1 else 0)
      + CountedSaves(plan, Step(plan, q, actions[0]), actions[1..], waits, e)
  }

  /** No save is counted twice or lost: without a manual retry the history's count is the number of counted saves. */
  lemma {:induction false} CountedOnce(plan: Plan, q: Queue, actions: seq<Action>, waits: Waits, e: nat)
    requires Leases(q) && Runs(plan, q, actions, waits) && e in q.counted && NoRetries(actions)
    ensures e in After(plan, q, actions, waits).counted
    ensures After(plan, q, actions, waits).counted[e] == q.counted[e] + CountedSaves(plan, q, actions, waits, e)
    decreases |actions|
  {
    if actions != [] {
      LeasesKept(plan, q, actions[0]);
      CountedOnce(plan, Step(plan, q, actions[0]), actions[1..], waits, e);
    }
  }

  /**
   * Without manual retries the attempts an event has left bound the counted saves still to come, however late claims
   * are. After manual retries of any delay the same holds for as long as claims are prompt.
   */
  lemma AttemptsLeft(plan: Plan, q: Queue, actions: seq<Action>, waits: Waits, e: nat)
    requires ValidPlan(plan) && Leases(q) && Accounts(plan, q) && Runs(plan, q, actions, waits)
    requires NoRetries(actions) && (Spaced(q) || (Fences(q) && waits.claims < LEASE))
    requires e in q.events && e in After(plan, q, actions, waits).events
    ensures After(plan, q, actions, waits).events[e].attempts
              == q.events[e].attempts + CountedSaves(plan, q, actions, waits, e)
    ensures CountedSaves(plan, q, actions, waits, e) <= plan.limit - q.events[e].attempts
  {
    if Spaced(q) {
      RunsStaySpaced(plan, q, actions, waits);
    } else {
      RunsStayFenced(plan, q, actions, waits);
    }
    CountedOnce(plan, q, actions, waits, e);
    assert Accounted(plan, q.events[e], q.counted[e]);
    var after := After(plan, q, actions, waits);
    assert Accounted(plan, after.events[e], after.counted[e]);
  }

  /** Only the worker with an event's last claim ever gets a save through. */
  ghost predicate Fenced(plan: Plan, waits: Waits) {
    forall actions, w {:trigger Accepted(After(plan, EMPTY, actions, waits), w)} ::
      Runs(plan, EMPTY, actions, waits) && Accepted(After(plan, EMPTY, actions, waits), w) ==>
        LastClaimer(After(plan, EMPTY, actions, waits), w)
  }

  predicate LastClaimer(q: Queue, w: nat) {
    && w in q.workers && Leased(q.workers[w])
    && q.workers[w].event in q.latest && q.latest[q.workers[w].event] == q.workers[w].ticket
  }

  /** Each event's attempt count is the number of its counted saves, within the limit, and below it while it is open. */
  ghost predicate CountsRight(plan: Plan, waits: Waits) {
    forall actions, e {:trigger After(plan, EMPTY, actions, waits).events[e]} ::
      Runs(plan, EMPTY, actions, waits) && e in After(plan, EMPTY, actions, waits).events ==>
        RightlyCounted(plan, After(plan, EMPTY, actions, waits), e)
  }

  predicate RightlyCounted(plan: Plan, q: Queue, e: nat)
    requires e in q.events
  {
    e in q.counted && Accounted(plan, q.events[e], q.counted[e])
  }

  /** One of the two waits stays below a lease. */
  predicate Prompt(waits: Waits) {
    waits.claims < LEASE || waits.retries < LEASE
  }

  lemma PromptRuns(plan: Plan, actions: seq<Action>, waits: Waits)
    requires ValidPlan(plan) && Prompt(waits) && Runs(plan, EMPTY, actions, waits)
    ensures
      var after := After(plan, EMPTY, actions, waits);
      Leases(after) && Fences(after) && Accounts(plan, after)
  {
    if waits.claims < LEASE {
      RunsStayFenced(plan, EMPTY, actions, waits);
    } else {
      RunsStaySpaced(plan, EMPTY, actions, waits);
      SpacedIsFenced(After(plan, EMPTY, actions, waits));
    }
  }

  lemma FencedWhenPrompt(plan: Plan, waits: Waits)
    requires ValidPlan(plan) && Prompt(waits)
    ensures Fenced(plan, waits) && CountsRight(plan, waits)
  {
    forall actions, w | Runs(plan, EMPTY, actions, waits) && Accepted(After(plan, EMPTY, actions, waits), w)
      ensures LastClaimer(After(plan, EMPTY, actions, waits), w)
    {
      PromptRuns(plan, actions, waits);
    }
    forall actions, e | Runs(plan, EMPTY, actions, waits) && e in After(plan, EMPTY, actions, waits).events
      ensures RightlyCounted(plan, After(plan, EMPTY, actions, waits), e)
    {
      PromptRuns(plan, actions, waits);
    }
  }

  // ---- the run in which both are late ----

  lemma {:induction false} RunsConcat(plan: Plan, q: Queue, a: seq<Action>, b: seq<Action>, waits: Waits)
    requires Runs(plan, q, a, waits) && Runs(plan, After(plan, q, a, waits), b, waits)
    ensures Runs(plan, q, a + b, waits)
    ensures After(plan, q, a + b, waits) == After(plan, After(plan, q, a, waits), b, waits)
    decreases |a|
  {
    if a == [] {
      assert a + b == b;
    } else {
      RunsConcat(plan, Step(plan, q, a[0]), a[1..], b, waits);
      assert (a + b)[1..] == a[1..] + b;
    }
  }

  lemma OneStep(plan: Plan, q: Queue, a: Action, waits: Waits)
    requires Enabled(q, a) && WaitsAtMost(q, a, waits)
    ensures Runs(plan, q, [a], waits) && After(plan, q, [a], waits) == Step(plan, q, a)
  {
    assert [a][1..] == [];
    assert Runs(plan, Step(plan, q, a), [], waits);
  }

  lemma ThreeSteps(plan: Plan, q0: Queue, a0: Action, a1: Action, a2: Action, waits: Waits)
    requires Enabled(q0, a0) && WaitsAtMost(q0, a0, waits)
    requires
      var q1 := Step(plan, q0, a0);
      && Enabled(q1, a1) && WaitsAtMost(q1, a1, waits)
      && var q2 := Step(plan, q1, a1);
         Enabled(q2, a2) && WaitsAtMost(q2, a2, waits)
    ensures Runs(plan, q0, [a0, a1, a2], waits)
    ensures After(plan, q0, [a0, a1, a2], waits) == Step(plan, Step(plan, Step(plan, q0, a0), a1), a2)
  {
    hide Enabled, WaitsAtMost, Step, Runs, After;
    var q1 := Step(plan, q0, a0);
    var q2 := Step(plan, q1, a1);
    OneStep(plan, q0, a0, waits);
    OneStep(plan, q1, a1, waits);
    OneStep(plan, q2, a2, waits);
    RunsConcat(plan, q0, [a0], [a1], waits);
    RunsConcat(plan, q0, [a0] + [a1], [a2], waits);
    assert [a0] + [a1] + [a2] == [a0, a1, a2];
  }

  /** An event that is due right now and held by nobody; `numbered` and `latest` are what earlier claims left. */
  function Ready(time: int, e: Event, numbered: nat, latest: map<nat, nat>): Queue {
    Queue(time, map[0 := e], map[], map[], numbered, latest, map[0 := e.attempts])
  }

  /** Workers 0 and 2 and a user choose the event at the same time; only worker 0 goes on. */
  function Choosing(): seq<Action> { [Pick(0, 0), Pick(2, 0), AskRetry(0, 0)] }

  function LeaseRunsOut(time: int): seq<Action> { [Claim(0), Tick(time + LEASE), Pick(1, 0)] }

  function SecondWorker(outcome: Outcome): seq<Action> { [Claim(1), Load(1), Attempt(1, outcome)] }

  /** The event fails, and only now worker 0, which has lost it, loads it. */
  function LateLoad(): seq<Action> { [Save(1), Load(0), Attempt(0, SendFailed)] }

  /** The manual retry and worker 2's claim commit with their old times: the new lease is the one worker 0 still has. */
  function LateCommits(time: int): seq<Action> { [Tick(time + LEASE), Retry(0), Claim(2)] }

  function BothLate(time: int, outcome: Outcome): seq<Action> {
    Choosing() + LeaseRunsOut(time) + SecondWorker(outcome) + LateLoad() + LateCommits(time)
  }

  function Chosen(time: int, e: Event, numbered: nat, latest: map<nat, nat>): Queue {
    Ready(time, e, numbered, latest).(workers := map[0 := Picked(0, time), 2 := Picked(0, time)],
        asked := map[0 := Asked(0, time)])
  }

  function Expired(time: int, e: Event, numbered: nat, latest: map<nat, nat>): Queue {
    Queue(time + LEASE, map[0 := Claimed(e, time)],
          map[0 := Holding(0, time + LEASE, numbered), 1 := Picked(0, time + LEASE), 2 := Picked(0, time)],
          map[0 := Asked(0, time)], numbered + 1, latest[0 := numbered], map[0 := e.attempts])
  }

  function Lost(time: int, e: Event, numbered: nat, latest: map<nat, nat>, outcome: Outcome): Queue {
    Queue(time + LEASE, map[0 := Claimed(e, time + LEASE)],
          map[0 := Holding(0, time + LEASE, numbered),
              1 := Saving(0, time + 2 * LEASE, numbered + 1, e.attempts, outcome, time + LEASE), 2 := Picked(0, time)],
          map[0 := Asked(0, time)], numbered + 2, latest[0 := numbered + 1], map[0 := e.attempts])
  }

  /** Worker 0 has loaded the one attempt that was counted before the event failed. */
  function Misled(time: int, created: int, numbered: nat, latest: map<nat, nat>): Queue {
    Queue(time + LEASE, map[0 := Event(Failed, 1, None, created)],
          map[0 := Saving(0, time + LEASE, numbered, 1, SendFailed, time + LEASE), 2 := Picked(0, time)],
          map[0 := Asked(0, time)], numbered + 2, latest[0 := numbered + 1], map[0 := 1])
  }

  function Revived(time: int, created: int, numbered: nat, latest: map<nat, nat>): Queue {
    Queue(time + LEASE, map[0 := Event(Delivering, 0, Some(time + LEASE), created)],
          map[0 := Saving(0, time + LEASE, numbered, 1, SendFailed, time + LEASE),
              2 := Holding(0, time + LEASE, numbered + 2)],
          map[], numbered + 3, latest[0 := numbered + 2], map[0 := 0])
  }

  /** The attempt that fails the event for good: a counted one at a limit of one, an uncounted one after one attempt. */
  predicate Failing(plan: Plan, e: Event, outcome: Outcome) {
    || (outcome == SendFailed && e.attempts == 0 && plan.limit == 1)
    || (outcome == Unavailable && e.attempts == 1)
  }

  lemma ChoosingRuns(plan: Plan, time: int, e: Event, numbered: nat, latest: map<nat, nat>, waits: Waits)
    ensures
      var q := Ready(time, e, numbered, latest);
      Runs(plan, q, Choosing(), waits) && After(plan, q, Choosing(), waits) == Chosen(time, e, numbered, latest)
  {
    hide Runs, After;
    ThreeSteps(plan, Ready(time, e, numbered, latest), Pick(0, 0), Pick(2, 0), AskRetry(0, 0), waits);
  }

  lemma LeaseRunsOutRuns(plan: Plan, time: int, e: Event, numbered: nat, latest: map<nat, nat>, waits: Waits)
    requires Open(e) && e.next == Some(time) && waits.claims >= LEASE
    ensures
      var q := Chosen(time, e, numbered, latest);
      Runs(plan, q, LeaseRunsOut(time), waits)
          && After(plan, q, LeaseRunsOut(time), waits) == Expired(time, e, numbered, latest)
  {
    hide Runs, After;
    var q := Chosen(time, e, numbered, latest);
    var q1 := q.(events := map[0 := Claimed(e, time)], workers := q.workers[0 := Holding(0, time + LEASE, numbered)],
                 claims := numbered + 1, latest := latest[0 := numbered]);
    assert Step(plan, q, Claim(0)) == q1;
    ThreeSteps(plan, q, Claim(0), Tick(time + LEASE), Pick(1, 0), waits);
  }

  lemma FirstThree(plan: Plan, time: int, e: Event, numbered: nat, latest: map<nat, nat>, waits: Waits)
    requires Open(e) && e.next == Some(time) && waits.claims >= LEASE
    ensures
      var q := Ready(time, e, numbered, latest);
      Runs(plan, q, Choosing(), waits) && After(plan, q, Choosing(), waits) == Chosen(time, e, numbered, latest)
    ensures
      var q := Chosen(time, e, numbered, latest);
      Runs(plan, q, LeaseRunsOut(time), waits)
          && After(plan, q, LeaseRunsOut(time), waits) == Expired(time, e, numbered, latest)
  {
    ChoosingRuns(plan, time, e, numbered, latest, waits);
    LeaseRunsOutRuns(plan, time, e, numbered, latest, waits);
  }

  lemma SecondClaim(plan: Plan, time: int, e: Event, numbered: nat, latest: map<nat, nat>, outcome: Outcome,
                    waits: Waits)
    requires waits.claims >= LEASE
    ensures
      var q := Expired(time, e, numbered, latest);
      && Runs(plan, q, SecondWorker(outcome), waits)
      && After(plan, q, SecondWorker(outcome), waits) == Lost(time, e, numbered, latest, outcome)
  {
    hide Runs, After;
    ThreeSteps(plan, Expired(time, e, numbered, latest), Claim(1), Load(1), Attempt(1, outcome), waits);
  }

  function GivenUpQueue(time: int, created: int, numbered: nat, latest: map<nat, nat>): Queue {
    Queue(time + LEASE, map[0 := Event(Failed, 1, None, created)],
          map[0 := Holding(0, time + LEASE, numbered), 2 := Picked(0, time)],
          map[0 := Asked(0, time)], numbered + 2, latest[0 := numbered + 1], map[0 := 1])
  }

  lemma GivenUp(plan: Plan, time: int, e: Event, numbered: nat, latest: map<nat, nat>, outcome: Outcome)
    requires Failing(plan, e, outcome)
    ensures
      var q := Lost(time, e, numbered, latest, outcome);
      Enabled(q, Save(1)) && Step(plan, q, Save(1)) == GivenUpQueue(time, e.created, numbered, latest)
  {
    var q := Lost(time, e, numbered, latest, outcome);
    assert Accepted(q, 1);
    assert q.workers - {1} == GivenUpQueue(time, e.created, numbered, latest).workers;
  }

  lemma LoadedLate(plan: Plan, time: int, e: Event, numbered: nat, latest: map<nat, nat>, outcome: Outcome,
                   waits: Waits)
    requires Failing(plan, e, outcome)
    ensures
      var q := Lost(time, e, numbered, latest, outcome);
      && Runs(plan, q, LateLoad(), waits)
      && After(plan, q, LateLoad(), waits) == Misled(time, e.created, numbered, latest)
  {
    hide Runs, After, Lost;
    GivenUp(plan, time, e, numbered, latest, outcome);
    ThreeSteps(plan, Lost(time, e, numbered, latest, outcome), Save(1), Load(0), Attempt(0, SendFailed), waits);
  }

  lemma CommittedLate(plan: Plan, time: int, created: int, numbered: nat, latest: map<nat, nat>, waits: Waits)
    requires !Prompt(waits)
    ensures
      var q := Misled(time, created, numbered, latest);
      && Runs(plan, q, LateCommits(time), waits)
      && After(plan, q, LateCommits(time), waits) == Revived(time, created, numbered, latest)
  {
    hide Runs, After;
    ThreeSteps(plan, Misled(time, created, numbered, latest), Tick(time + LEASE), Retry(0), Claim(2), waits);
  }

  lemma RevivedByBoth(plan: Plan, time: int, e: Event, numbered: nat, latest: map<nat, nat>, outcome: Outcome,
                      waits: Waits)
    requires Open(e) && e.next == Some(time) && Failing(plan, e, outcome) && !Prompt(waits)
    ensures
      var q := Ready(time, e, numbered, latest);
      && Runs(plan, q, BothLate(time, outcome), waits)
      && After(plan, q, BothLate(time, outcome), waits) == Revived(time, e.created, numbered, latest)
  {
    hide Runs, After, Step, Choosing, LeaseRunsOut, SecondWorker, LateLoad, LateCommits;
    var q := Ready(time, e, numbered, latest);
    FirstThree(plan, time, e, numbered, latest, waits);
    SecondClaim(plan, time, e, numbered, latest, outcome, waits);
    LoadedLate(plan, time, e, numbered, latest, outcome, waits);
    CommittedLate(plan, time, e.created, numbered, latest, waits);
    RunsConcat(plan, q, Choosing(), LeaseRunsOut(time), waits);
    RunsConcat(plan, q, Choosing() + LeaseRunsOut(time), SecondWorker(outcome), waits);
    RunsConcat(plan, q, Choosing() + LeaseRunsOut(time) + SecondWorker(outcome), LateLoad(), waits);
    RunsConcat(plan, q, Choosing() + LeaseRunsOut(time) + SecondWorker(outcome) + LateLoad(), LateCommits(time), waits);
  }

  /** At a higher limit the event first spends one attempt. */
  function FirstAttempt(): seq<Action> {
    [Add(0, 0), Pick(3, 0), Claim(3)] + [Load(3), Attempt(3, SendFailed), Save(3)]
  }

  function Until(plan: Plan): int
    requires ValidPlan(plan)
  {
    if plan.limit == 1 then 0 else plan.delays[0]
  }

  function Beginning(plan: Plan): seq<Action>
    requires ValidPlan(plan)
  {
    if plan.limit == 1 then [Add(0, 0)] else FirstAttempt() + [Tick(plan.delays[0])]
  }

  function Begun(plan: Plan): Event
    requires ValidPlan(plan)
  {
    if plan.limit == 1 then Event(Pending, 0, Some(0), 0) else Event(Retrying, 1, Some(plan.delays[0]), 0)
  }

  function BegunQueue(plan: Plan): Queue
    requires ValidPlan(plan)
  {
    if plan.limit == 1 then Ready(0, Begun(plan), 0, map[]) else Ready(plan.delays[0], Begun(plan), 1, map[0 := 0])
  }

  /** Every way an attempt may end is reached by a run: a new event, claimed at once, is saved as it should be. */
  lemma EveryOutcomeIsSaved(plan: Plan, waits: Waits, outcome: Outcome)
    requires ValidPlan(plan) && waits.claims >= 0
    ensures
      var actions := [Add(0, 0), Pick(3, 0), Claim(3)] + [Load(3), Attempt(3, outcome), Save(3)];
      && Runs(plan, EMPTY, actions, waits)
      && var events := After(plan, EMPTY, actions, waits).events;
         events.Keys == {0} && RecordsAttempt(plan, Event(Pending, 0, Some(0), 0), outcome, 0, events[0])
  {
    var claimed := Queue(0, map[0 := Event(Delivering, 0, Some(LEASE), 0)], map[3 := Holding(0, LEASE, 0)], map[], 1,
                         map[0 := 0], map[0 := 0]);
    ThreeSteps(plan, EMPTY, Add(0, 0), Pick(3, 0), Claim(3), waits);
    assert After(plan, EMPTY, [Add(0, 0), Pick(3, 0), Claim(3)], waits) == claimed;
    StateRecordsAttempt(plan, claimed.events[0], outcome, 0);
    hide StateAfter;
    ThreeSteps(plan, claimed, Load(3), Attempt(3, outcome), Save(3), waits);
    RunsConcat(plan, EMPTY, [Add(0, 0), Pick(3, 0), Claim(3)], [Load(3), Attempt(3, outcome), Save(3)], waits);
  }

  lemma FirstAttemptRuns(plan: Plan, waits: Waits)
    requires ValidPlan(plan) && plan.limit > 1 && waits.claims >= LEASE
    ensures Runs(plan, EMPTY, FirstAttempt(), waits)
    ensures After(plan, EMPTY, FirstAttempt(), waits) == Ready(plan.delays[0], Begun(plan), 1, map[0 := 0]).(clock := 0)
  {
    var claimed := Queue(0, map[0 := Event(Delivering, 0, Some(LEASE), 0)], map[3 := Holding(0, LEASE, 0)], map[], 1,
                         map[0 := 0], map[0 := 0]);
    ThreeSteps(plan, EMPTY, Add(0, 0), Pick(3, 0), Claim(3), waits);
    assert After(plan, EMPTY, [Add(0, 0), Pick(3, 0), Claim(3)], waits) == claimed;
    ThreeSteps(plan, claimed, Load(3), Attempt(3, SendFailed), Save(3), waits);
    RunsConcat(plan, EMPTY, [Add(0, 0), Pick(3, 0), Claim(3)], [Load(3), Attempt(3, SendFailed), Save(3)], waits);
  }

  lemma BeginningRuns(plan: Plan, waits: Waits)
    requires ValidPlan(plan) && waits.claims >= LEASE
    ensures Runs(plan, EMPTY, Beginning(plan), waits) && After(plan, EMPTY, Beginning(plan), waits) == BegunQueue(plan)
  {
    if plan.limit == 1 {
      OneStep(plan, EMPTY, Add(0, 0), waits);
    } else {
      FirstAttemptRuns(plan, waits);
      var q := Ready(plan.delays[0], Begun(plan), 1, map[0 := 0]).(clock := 0);
      OneStep(plan, q, Tick(plan.delays[0]), waits);
      RunsConcat(plan, EMPTY, FirstAttempt(), [Tick(plan.delays[0])], waits);
    }
  }

  /** The whole run, up to the save of worker 0, which lost its event to two later claims. */
  function StaleRun(plan: Plan): seq<Action>
    requires ValidPlan(plan)
  {
    Beginning(plan) + BothLate(Until(plan), if plan.limit == 1 then SendFailed else Unavailable)
  }

  lemma StaleRuns(plan: Plan, waits: Waits)
    requires ValidPlan(plan) && !Prompt(waits)
    ensures Runs(plan, EMPTY, StaleRun(plan), waits)
    ensures
      After(plan, EMPTY, StaleRun(plan), waits)
      == Revived(Until(plan), 0, BegunQueue(plan).claims, BegunQueue(plan).latest)
  {
    hide Runs, After, Step, Beginning, BothLate, Revived;
    var outcome := if plan.limit == 1 then SendFailed else Unavailable;
    BeginningRuns(plan, waits);
    RevivedByBoth(plan, Until(plan), Begun(plan), BegunQueue(plan).claims, BegunQueue(plan).latest, outcome, waits);
    RunsConcat(plan, EMPTY, Beginning(plan), BothLate(Until(plan), outcome), waits);
  }

  /** After that run the save of worker 0 is let through, and with it two attempts are noted where one was made. */
  lemma StaleSaveAccepted(plan: Plan, waits: Waits)
    requires ValidPlan(plan) && !Prompt(waits)
    ensures
      var run := StaleRun(plan);
      && Runs(plan, EMPTY, run, waits)
      && Accepted(After(plan, EMPTY, run, waits), 0) && !LastClaimer(After(plan, EMPTY, run, waits), 0)
      && Runs(plan, EMPTY, run + [Save(0)], waits)
      && var after := After(plan, EMPTY, run + [Save(0)], waits);
         0 in after.events && 0 in after.counted && after.events[0].attempts == 2 && after.counted[0] == 1
  {
    StaleRuns(plan, waits);
    var q := After(plan, EMPTY, StaleRun(plan), waits);
    OneStep(plan, q, Save(0), waits);
    RunsConcat(plan, EMPTY, StaleRun(plan), [Save(0)], waits);
  }

  /**
   * The fence holds exactly when claims, or else manual retries, wait less than a lease between reading the clock and
   * their commit. The code itself guarantees neither: see RetryBudget.
   */
  lemma FencingHoldsExactlyWhenPrompt(plan: Plan, waits: Waits)
    requires ValidPlan(plan)
    ensures Fenced(plan, waits) <==> waits.claims < 60_000_000_000 || waits.retries < 60_000_000_000
  {
    if Prompt(waits) {
      FencedWhenPrompt(plan, waits);
    } else {
      StaleSaveAccepted(plan, waits);
    }
  }

  /** And so does the attempt count, although it is read in a query of its own. */
  lemma CountsAreRightExactlyWhenPrompt(plan: Plan, waits: Waits)
    requires ValidPlan(plan)
    ensures CountsRight(plan, waits) <==> waits.claims < 60_000_000_000 || waits.retries < 60_000_000_000
  {
    if Prompt(waits) {
      FencedWhenPrompt(plan, waits);
    } else {
      StaleSaveAccepted(plan, waits);
      assert !RightlyCounted(plan, After(plan, EMPTY, StaleRun(plan) + [Save(0)], waits), 0);
    }
  }
}
