// The transactional outbox as it sits in Redis: event bodies, the pending and processing
// sorted sets, and the effect of every Lua script and MULTI/EXEC batch on them.
module OutboxStore {
  import opened Common

  type EventId = nat

  datatype Status = Pending | Retrying | Delivered | Failed

  datatype Event = Event(
    id: EventId,
    dedupKey: string,
    eventType: string,
    aggregateType: string,
    aggregateId: string,
    payload: string,
    status: Status,
    attempts: nat,
    nextAttemptAt: int)

  /** `expiring` holds the ids whose body carries a time-to-live. */
  datatype Store = Store(
    bodies: map<EventId, Event>,
    pending: map<EventId, int>,
    processing: map<EventId, int>,
    expiring: set<EventId>)

  ghost predicate IsQueued(s: Store, id: EventId) { id in s.pending || id in s.processing }

  const WEBHOOK := "webhook"

  predicate IsWebhook(e: Event) { e.aggregateType == WEBHOOK }

  // ── Selection by score ────────────────────────────────────────────────────────

  /**
   * `ids` is an answer to ZRANGEBYSCORE with an upper bound and a limit: members at or below
   * the bound, lowest scores first, and cut short only by the limit.
   */
  ghost predicate Selects(z: map<EventId, int>, bound: int, limit: nat, ids: seq<EventId>)
  {
    && Distinct(ids)
    && |ids| <= limit
    && (forall i :: 0 <= i < |ids| ==> ids[i] in z && z[ids[i]] <= bound)
    && (forall i, j :: 0 <= i < j < |ids| ==> z[ids[i]] <= z[ids[j]])
    && (forall k :: k in z && z[k] <= bound && k !in ids ==>
          |ids| == limit && forall i :: 0 <= i < |ids| ==> z[ids[i]] <= z[k])
  }

  ghost function Without(z: map<EventId, int>, ids: seq<EventId>): map<EventId, int>
  {
    map k | k in z && k !in ids :: z[k]
  }

  ghost function WithAll(z: map<EventId, int>, ids: seq<EventId>, score: int): map<EventId, int>
  {
    map k | k in z.Keys + (set i | i in ids) :: if k in ids then score else z[k]
  }

  // ── Atomic effects ────────────────────────────────────────────────────────────

  ghost function Appended(s: Store, e: Event): Store
  {
    s.(bodies := s.bodies[e.id := e], pending := s.pending[e.id := e.nextAttemptAt],
       expiring := s.expiring - {e.id})
  }

  ghost function Claimed(s: Store, ids: seq<EventId>, leaseExpiry: int): Store
  {
    s.(pending := Without(s.pending, ids), processing := WithAll(s.processing, ids, leaseExpiry))
  }

  ghost function Reclaimed(s: Store, ids: seq<EventId>, now: int): Store
  {
    s.(processing := Without(s.processing, ids), pending := WithAll(s.pending, ids, now))
  }

  ghost function MarkedDelivered(s: Store, e: Event, ttl: bool): Store
  {
    Store(
      s.bodies[e.id := e.(status := Delivered)],
      s.pending - {e.id},
      s.processing - {e.id},
      if ttl then s.expiring + {e.id} else s.expiring - {e.id})
  }

  /** Delay before the next attempt: doubling from one second, capped at thirty. */
  function Backoff(attempts: nat): (ms: nat)
    requires attempts >= 1
    ensures 1000 <= ms <= 30000
    ensures attempts == 1 ==> ms == 1000
    ensures attempts == 2 ==> ms == 2000
    ensures attempts == 3 ==> ms == 4000
    ensures attempts == 4 ==> ms == 8000
    ensures attempts == 5 ==> ms == 16000
    ensures attempts >= 6 ==> ms == 30000
  {
    var exponent := if attempts - 1 < 5 then attempts - 1 else 5;
    var raw := 1000 * [1, 2, 4, 8, 16, 32][exponent];
    if raw < 30000 then raw else 30000
  }

  lemma BackoffGrows(a: nat, b: nat)
    requires 1 <= a <= b
    ensures Backoff(a) <= Backoff(b)
    ensures b == a + 1 && a <= 4 ==> Backoff(b) == 2 * Backoff(a)
  {
    assert forall i, j :: 0 <= i <= j < 6 ==> [1, 2, 4, 8, 16, 32][i] <= [1, 2, 4, 8, 16, 32][j];
  }

  /** How long after its `attempts`-th failure an event is due again, in milliseconds. */
  predicate IsDelay(attempts: nat, ms: int)
  {
    && (attempts == 1 ==> ms == 1000) && (attempts == 2 ==> ms == 2000) && (attempts == 3 ==> ms == 4000)
    && (attempts == 4 ==> ms == 8000) && (attempts == 5 ==> ms == 16000) && (attempts >= 6 ==> ms == 30000)
  }

  /** The body written by a failed attempt. */
  function AfterFailure(e: Event, maxAttempts: nat, clock: int): (r: Event)
    ensures r.id == e.id && r.attempts == e.attempts + 1
    ensures r.status == Failed <==> r.attempts >= maxAttempts
    ensures r.status == Failed || (r.status == Retrying && r.nextAttemptAt > clock)
    ensures r.attempts < maxAttempts ==> IsDelay(r.attempts, r.nextAttemptAt - clock)
    ensures r.attempts >= maxAttempts ==> r.nextAttemptAt == e.nextAttemptAt
    ensures r.dedupKey == e.dedupKey && r.eventType == e.eventType && r.payload == e.payload
    ensures r.aggregateType == e.aggregateType && r.aggregateId == e.aggregateId
  {
    var attempts := e.attempts + 1;
    if attempts >= maxAttempts
    then e.(attempts := attempts, status := Failed)
    else e.(attempts := attempts, status := Retrying, nextAttemptAt := clock + Backoff(attempts))
  }

  ghost function Retried(s: Store, e: Event, maxAttempts: nat, clock: int): Store
  {
    var updated := AfterFailure(e, maxAttempts, clock);
    Store(
      s.bodies[e.id := updated],
      if updated.status == Failed then s.pending else s.pending[e.id := updated.nextAttemptAt],
      s.processing - {e.id},
      s.expiring - {e.id})
  }

  ghost function Expired(s: Store, id: EventId): Store
  {
    s.(bodies := s.bodies - {id}, expiring := s.expiring - {id})
  }

  /** The bodies found for `ids`, in order; an id without a body is passed over. */
  ghost function Present(bodies: map<EventId, Event>, ids: seq<EventId>): seq<Event>
  {
    if ids == [] then []
    else
      var last := ids[|ids| - 1];
      Present(bodies, ids[..|ids| - 1]) + (if last in bodies then [bodies[last]] else [])
  }

  lemma {:induction false} AllPresent(bodies: map<EventId, Event>, ids: seq<EventId>)
    requires forall i :: 0 <= i < |ids| ==> ids[i] in bodies
    ensures |Present(bodies, ids)| == |ids|
    ensures forall i :: 0 <= i < |ids| ==> Present(bodies, ids)[i] == bodies[ids[i]]
  {
    if ids != [] { AllPresent(bodies, ids[..|ids| - 1]); }
  }

  // ── What each effect leaves of an event, and of all others ────────────────────

  /** Nothing but the body, the scores and the expiry of these ids has changed. */
  ghost predicate OnlyTouches(s: Store, s': Store, ids: set<EventId>)
  {
    forall id :: id !in ids ==>
      && (id in s'.bodies <==> id in s.bodies) && (id in s.bodies ==> s'.bodies[id] == s.bodies[id])
      && (id in s'.pending <==> id in s.pending) && (id in s.pending ==> s'.pending[id] == s.pending[id])
      && (id in s'.processing <==> id in s.processing) && (id in s.processing ==> s'.processing[id] == s.processing[id])
      && (id in s'.expiring <==> id in s.expiring)
  }

  lemma AppendStores(s: Store, e: Event)
    ensures var s' := Appended(s, e);
      && OnlyTouches(s, s', {e.id})
      && e.id in s'.bodies && s'.bodies[e.id] == e && e.id in s'.pending && s'.pending[e.id] == e.nextAttemptAt
      && (e.id in s'.processing <==> e.id in s.processing) && e.id !in s'.expiring
  {
  }

  /** Claimed ids wait for their lease instead of their due time. */
  lemma ClaimLeases(s: Store, ids: seq<EventId>, leaseExpiry: int)
    ensures var s' := Claimed(s, ids, leaseExpiry);
      && OnlyTouches(s, s', set id | id in ids) && s'.bodies == s.bodies && s'.expiring == s.expiring
      && forall id :: id in ids ==> id !in s'.pending && id in s'.processing && s'.processing[id] == leaseExpiry
  {
  }

  lemma ReclaimReturns(s: Store, ids: seq<EventId>, now: int)
    ensures var s' := Reclaimed(s, ids, now);
      && OnlyTouches(s, s', set id | id in ids) && s'.bodies == s.bodies && s'.expiring == s.expiring
      && forall id :: id in ids ==> id !in s'.processing && id in s'.pending && s'.pending[id] == now
  {
  }

  lemma DeliveryEnds(s: Store, e: Event, ttl: bool)
    ensures var s' := MarkedDelivered(s, e, ttl);
      && OnlyTouches(s, s', {e.id}) && e.id in s'.bodies && s'.bodies[e.id] == e.(status := Delivered)
      && e.id !in s'.pending && e.id !in s'.processing && (e.id in s'.expiring <==> ttl)
  {
  }

  /** A failed attempt that leaves others is due again after its delay; the last one is not due again. */
  lemma RetryReschedules(s: Store, e: Event, maxAttempts: nat, clock: int)
    ensures var s', a := Retried(s, e, maxAttempts, clock), e.attempts + 1;
      && OnlyTouches(s, s', {e.id}) && e.id in s'.bodies && e.id !in s'.processing && e.id !in s'.expiring
      && s'.bodies[e.id] == e.(attempts := a, status := s'.bodies[e.id].status, nextAttemptAt := s'.bodies[e.id].nextAttemptAt)
      && (a < maxAttempts ==>
            && s'.bodies[e.id].status == Retrying && e.id in s'.pending
            && s'.pending[e.id] == s'.bodies[e.id].nextAttemptAt && IsDelay(a, s'.pending[e.id] - clock))
      && (a >= maxAttempts ==>
            && s'.bodies[e.id].status == Failed && (e.id in s'.pending <==> e.id in s.pending)
            && (e.id in s.pending ==> s'.pending[e.id] == s.pending[e.id]))
  {
  }

  lemma ExpiryRemoves(s: Store, id: EventId)
    ensures var s' := Expired(s, id);
      OnlyTouches(s, s', {id}) && id !in s'.bodies && id !in s'.expiring && s'.pending == s.pending && s'.processing == s.processing
  {
  }

  // ── Safety ────────────────────────────────────────────────────────────────────

  /** No unresolved event is outside the queues, and no event is in both of them. */
  ghost predicate Safe(s: Store)
  {
    && (forall id :: id in s.pending ==> id !in s.processing)
    && (forall id :: id in s.bodies ==> s.bodies[id].id == id)
    && (forall id :: id in s.bodies && s.bodies[id].status in {Pending, Retrying} ==>
          id in s.pending || id in s.processing)
    && (forall id :: id in s.pending || id in s.processing ==>
          id in s.bodies && s.bodies[id].status != Delivered)
    && (forall id :: id in s.expiring ==> id in s.bodies && s.bodies[id].status == Delivered)
  }

  /**
   * What any process may do to the store next. A worker loads the bodies of what it claimed in commands
   * of their own; Deliver and Retry carry whatever copy it once loaded, however long ago its lease lapsed.
   */
  datatype Step =
    | Append(event: Event)
    | Claim(worker: nat, now: int, leaseMs: nat, limit: nat, ids: seq<EventId>)
    | Load(worker: nat, id: EventId)
    | Reclaim(now: int, limit: nat, ids: seq<EventId>)
    | Deliver(worker: nat, copy: Event, ttl: bool)
    | Retry(worker: nat, copy: Event, clock: int)
    | Expire(id: EventId)

  /** The store, what each worker has ever claimed and loaded, and the ids ever appended or expired. */
  datatype System = System(
    store: Store,
    claimed: map<nat, set<EventId>>,
    held: map<nat, set<Event>>,
    appended: set<EventId>,
    expired: set<EventId>)

  ghost function HeldBy(sys: System, worker: nat): set<Event>
  {
    if worker in sys.held then sys.held[worker] else {}
  }

  ghost function ClaimedBy(sys: System, worker: nat): set<EventId>
  {
    if worker in sys.claimed then sys.claimed[worker] else {}
  }

  ghost predicate Enabled(sys: System, step: Step)
  {
    match step
    case Append(e) => e.id !in sys.appended && e.status == Pending && e.attempts == 0
    case Claim(_, now, _, limit, ids) => Selects(sys.store.pending, now, limit, ids)
    case Reclaim(now, limit, ids) => Selects(sys.store.processing, now, limit, ids)
    case Load(w, id) => id in ClaimedBy(sys, w)
    case Deliver(w, e, _) => e in HeldBy(sys, w)
    case Retry(w, e, _) => e in HeldBy(sys, w)
    case Expire(id) => id in sys.store.expiring
  }

  ghost function After(sys: System, step: Step, maxAttempts: nat): System
  {
    var s := sys.store;
    match step
    case Append(e) => sys.(store := Appended(s, e), appended := sys.appended + {e.id})
    case Claim(w, now, leaseMs, _, ids) =>
      sys.(store := Claimed(s, ids, now + leaseMs),
           claimed := sys.claimed[w := ClaimedBy(sys, w) + (set id | id in ids)])
    case Load(w, id) =>
      if id in s.bodies then sys.(held := sys.held[w := HeldBy(sys, w) + {s.bodies[id]}]) else sys
    case Reclaim(now, _, ids) => sys.(store := Reclaimed(s, ids, now))
    case Deliver(_, e, ttl) => sys.(store := MarkedDelivered(s, e, ttl))
    case Retry(_, e, clock) => sys.(store := Retried(s, e, maxAttempts, clock))
    case Expire(id) => sys.(store := Expired(s, id), expired := sys.expired + {id})
  }

  const EMPTY := System(Store(map[], map[], map[], {}), map[], map[], {}, {})

  ghost predicate Reachable(sys: System, steps: seq<Step>, maxAttempts: nat)
    decreases |steps|
  {
    if steps == [] then sys == EMPTY
    else
      var last := steps[|steps| - 1];
      exists prev :: Reachable(prev, steps[..|steps| - 1], maxAttempts) && Enabled(prev, last)
                     && sys == After(prev, last, maxAttempts)
  }

  /** Safety together with what the histories say. */
  ghost predicate Inv(sys: System)
  {
    && Safe(sys.store)
    && sys.store.bodies.Keys <= sys.appended <= sys.store.bodies.Keys + sys.expired
    && (forall w, e :: w in sys.held && e in sys.held[w] ==> e.id in sys.appended)
  }

  lemma ClaimKeepsSafe(s: Store, bound: int, limit: nat, ids: seq<EventId>, lease: int)
    requires Safe(s) && Selects(s.pending, bound, limit, ids)
    ensures Safe(Claimed(s, ids, lease))
    ensures forall i :: 0 <= i < |ids| ==> ids[i] in s.bodies && s.bodies[ids[i]].id == ids[i]
    ensures forall i :: 0 <= i < |ids| ==> ids[i] in Claimed(s, ids, lease).processing
    ensures forall id :: IsQueued(Claimed(s, ids, lease), id) <==> IsQueued(s, id)
  {}

  lemma ReclaimKeepsSafe(s: Store, bound: int, limit: nat, ids: seq<EventId>, now: int)
    requires Safe(s) && Selects(s.processing, bound, limit, ids)
    ensures Safe(Reclaimed(s, ids, now))
    ensures forall id :: IsQueued(Reclaimed(s, ids, now), id) <==> IsQueued(s, id)
  {}

  lemma DeliveryKeepsSafe(s: Store, e: Event, ttl: bool)
    requires Safe(s)
    ensures Safe(MarkedDelivered(s, e, ttl))
  {}

  lemma RetryKeepsSafe(s: Store, e: Event, maxAttempts: nat, clock: int)
    requires Safe(s)
    ensures Safe(Retried(s, e, maxAttempts, clock))
  {}

  lemma AppendKeepsSafe(s: Store, e: Event)
    requires Safe(s) && e.id !in s.bodies && e.status == Pending
    ensures Safe(Appended(s, e))
  {}

  lemma WithoutOneMore(z: map<EventId, int>, ids: seq<EventId>, id: EventId)
    ensures Without(z, ids + [id]) == Without(z, ids) - {id}
  {}

  lemma WithOneMore(z: map<EventId, int>, ids: seq<EventId>, id: EventId, score: int)
    ensures WithAll(z, ids + [id], score) == WithAll(z, ids, score)[id := score]
  {}

  lemma StepKeepsInv(sys: System, step: Step, maxAttempts: nat)
    requires Inv(sys) && Enabled(sys, step)
    ensures Inv(After(sys, step, maxAttempts))
  {
    match step
    case Claim(w, now, leaseMs, limit, ids) =>
      ClaimKeepsSafe(sys.store, now, limit, ids, now + leaseMs);
    case Reclaim(now, limit, ids) =>
      ReclaimKeepsSafe(sys.store, now, limit, ids, now);
    case Append(_) =>
    case Load(_, _) =>
    case Deliver(_, e, ttl) => DeliveryKeepsSafe(sys.store, e, ttl);
    case Retry(_, e, clock) => RetryKeepsSafe(sys.store, e, maxAttempts, clock);
    case Expire(_) =>
  }

  /**
   * No event is lost: whatever the workers do and in whatever order, with live or lapsed leases,
   * every event ever appended either still has a body, which is queued in exactly one of the two
   * sets as long as it is pending or retrying, or was removed after it had been delivered.
   */
  lemma {:induction false} NoEventIsLost(sys: System, steps: seq<Step>, maxAttempts: nat)
    requires Reachable(sys, steps, maxAttempts)
    ensures Inv(sys)
    decreases |steps|
  {
    if steps != [] {
      var last := steps[|steps| - 1];
      var prev :| Reachable(prev, steps[..|steps| - 1], maxAttempts) && Enabled(prev, last)
                  && sys == After(prev, last, maxAttempts);
      NoEventIsLost(prev, steps[..|steps| - 1], maxAttempts);
      StepKeepsInv(prev, last, maxAttempts);
    }
  }

  /**
   * A delivered event leaves that state in exactly two ways: its body expires, or a worker whose
   * lease lapsed before the delivery reports a failure.
   */
  lemma DeliveredIsUndoneOnlyByLapsedRetry(sys: System, step: Step, maxAttempts: nat, id: EventId)
    requires Inv(sys) && Enabled(sys, step)
    requires id in sys.store.bodies && sys.store.bodies[id].status == Delivered
    ensures var s' := After(sys, step, maxAttempts).store;
            (id in s'.bodies && s'.bodies[id].status == Delivered) <==>
            !(step == Expire(id) || (step.Retry? && step.copy.id == id))
    ensures step.Retry? && step.copy.id == id ==> id !in sys.store.processing
  {}

  // ── What a worker can see to ──────────────────────────────────────────────────

  /** The event has been delivered, or has run out of attempts. */
  predicate Resolved(e: Event) { e.status == Delivered || e.status == Failed }

  /** Runs, from any state, in which nobody retries `id` without finding it in the processing set. */
  ghost predicate LeadsGuarded(sys0: System, steps: seq<Step>, sys: System, id: EventId, maxAttempts: nat)
    decreases |steps|
  {
    if steps == [] then sys == sys0
    else
      var last := steps[|steps| - 1];
      exists prev :: LeadsGuarded(sys0, steps[..|steps| - 1], prev, id, maxAttempts) && Enabled(prev, last)
                     && (last.Retry? && last.copy.id == id ==> id in prev.store.processing)
                     && sys == After(prev, last, maxAttempts)
  }

  /**
   * Looking into the processing set before reporting a failure is enough: over every such run a delivered
   * event stays delivered until its body expires.
   */
  lemma {:induction false} GuardedRetriesKeepDeliveries(sys0: System, steps: seq<Step>, sys: System, id: EventId, maxAttempts: nat)
    requires Inv(sys0) && LeadsGuarded(sys0, steps, sys, id, maxAttempts)
    requires id in sys0.expired || (id in sys0.store.bodies && sys0.store.bodies[id].status == Delivered)
    ensures Inv(sys) && (id in sys.expired || (id in sys.store.bodies && sys.store.bodies[id].status == Delivered))
    decreases |steps|
  {
    if steps != [] {
      var last := steps[|steps| - 1];
      var prev :| LeadsGuarded(sys0, steps[..|steps| - 1], prev, id, maxAttempts) && Enabled(prev, last)
                  && (last.Retry? && last.copy.id == id ==> id in prev.store.processing)
                  && sys == After(prev, last, maxAttempts);
      GuardedRetriesKeepDeliveries(sys0, steps[..|steps| - 1], prev, id, maxAttempts);
      StepKeepsInv(prev, last, maxAttempts);
      hide Inv;
      if id in prev.expired {
        ExpiredStays(prev, last, id, maxAttempts);
      } else {
        DeliveredIsUndoneOnlyByLapsedRetry(prev, last, maxAttempts, id);
        ExpiredStays(prev, last, id, maxAttempts);
      }
    }
  }

  lemma ExpiredStays(sys: System, step: Step, id: EventId, maxAttempts: nat)
    ensures id in sys.expired ==> id in After(sys, step, maxAttempts).expired
    ensures step == Expire(id) ==> id in After(sys, step, maxAttempts).expired
  {
  }

  /**
   * Whatever ran before, a worker can tell from the two sets what its late report would do to a stored event:
   * it reopens one that was resolved exactly if the event is in neither of them.
   */
  lemma RetryReopensIffUnqueued(sys: System, steps: seq<Step>, step: Step, maxAttempts: nat)
    requires Reachable(sys, steps, maxAttempts) && Enabled(sys, step) && step.Retry? && step.copy.id in sys.store.bodies
    ensures var id := step.copy.id; var s, s' := sys.store, After(sys, step, maxAttempts).store;
      && (!IsQueued(s, id) ==> Resolved(s.bodies[id]))
      && (s.bodies[id].status == Delivered ==> !IsQueued(s, id))
      && (!IsQueued(s, id) ==> (IsQueued(s', id) <==> step.copy.attempts + 1 < maxAttempts))
  {
    hide Reachable;
    NoEventIsLost(sys, steps, maxAttempts);
  }

  // ── Not before it is due ──────────────────────────────────────────────────────

  /** Runs from a state in which nobody reports on `id` or appends it, and every claim comes before `due`. */
  ghost predicate LeadsEarly(sys0: System, steps: seq<Step>, sys: System, id: EventId, due: int, maxAttempts: nat)
    decreases |steps|
  {
    if steps == [] then sys == sys0
    else
      var last := steps[|steps| - 1];
      exists prev :: LeadsEarly(sys0, steps[..|steps| - 1], prev, id, due, maxAttempts) && Enabled(prev, last)
                     && IsEarly(last, id, due) && sys == After(prev, last, maxAttempts)
  }

  predicate IsEarly(step: Step, id: EventId, due: int)
  {
    match step
    case Append(e) => e.id != id
    case Claim(_, now, _, _, _) => now < due
    case Deliver(_, e, _) => e.id != id
    case Retry(_, e, _) => e.id != id
    case _ => true
  }

  /** A queued event is taken by no claim before its score's time, whatever else the workers do. */
  lemma {:induction false} NotClaimedBeforeDue(sys0: System, steps: seq<Step>, sys: System, id: EventId, due: int, maxAttempts: nat)
    requires Inv(sys0) && id in sys0.store.pending && sys0.store.pending[id] == due
    requires LeadsEarly(sys0, steps, sys, id, due, maxAttempts)
    ensures Inv(sys) && id in sys.store.pending && sys.store.pending[id] == due && id !in sys.store.processing
    decreases |steps|
  {
    if steps != [] {
      var last := steps[|steps| - 1];
      var prev :| LeadsEarly(sys0, steps[..|steps| - 1], prev, id, due, maxAttempts) && Enabled(prev, last)
                  && IsEarly(last, id, due) && sys == After(prev, last, maxAttempts);
      NotClaimedBeforeDue(sys0, steps[..|steps| - 1], prev, id, due, maxAttempts);
      StepKeepsInv(prev, last, maxAttempts);
      EarlyStepKeepsDue(prev, last, id, due, maxAttempts);
      hide Inv;
    }
  }

  lemma EarlyStepKeepsDue(sys: System, step: Step, id: EventId, due: int, maxAttempts: nat)
    requires Inv(sys) && Enabled(sys, step) && IsEarly(step, id, due)
    requires id in sys.store.pending && sys.store.pending[id] == due
    ensures id in After(sys, step, maxAttempts).store.pending && After(sys, step, maxAttempts).store.pending[id] == due
    ensures id !in After(sys, step, maxAttempts).store.processing
  {
  }

  /** So after a failure with attempts left, no claim takes the event before its delay has passed. */
  lemma RetriesWaitOutTheirDelay(sys: System, retry: Step, steps: seq<Step>, end: System, maxAttempts: nat)
    requires Inv(sys) && Enabled(sys, retry) && retry.Retry? && retry.copy.attempts + 1 < maxAttempts
    ensures var id, now := retry.copy.id, After(sys, retry, maxAttempts);
      id in now.store.pending && IsDelay(retry.copy.attempts + 1, now.store.pending[id] - retry.clock)
    ensures var id, now := retry.copy.id, After(sys, retry, maxAttempts);
      LeadsEarly(now, steps, end, id, now.store.pending[id], maxAttempts) ==>
        id in end.store.pending && end.store.pending[id] == now.store.pending[id] && id !in end.store.processing
  {
    var id, now := retry.copy.id, After(sys, retry, maxAttempts);
    StepKeepsInv(sys, retry, maxAttempts);
    RetryReschedules(sys.store, retry.copy, maxAttempts, retry.clock);
    hide Inv;
    hide Retried;
    if LeadsEarly(now, steps, end, id, now.store.pending[id], maxAttempts) {
      NotClaimedBeforeDue(now, steps, end, id, now.store.pending[id], maxAttempts);
    }
  }

  // ── Not while it is leased ────────────────────────────────────────────────────

  /** Runs from a state in which nobody reports on `id` or appends it, and every reclaim comes before `lapse`. */
  ghost predicate LeadsLeased(sys0: System, steps: seq<Step>, sys: System, id: EventId, lapse: int, maxAttempts: nat)
    decreases |steps|
  {
    if steps == [] then sys == sys0
    else
      var last := steps[|steps| - 1];
      exists prev :: LeadsLeased(sys0, steps[..|steps| - 1], prev, id, lapse, maxAttempts) && Enabled(prev, last)
                     && IsLeased(last, id, lapse) && sys == After(prev, last, maxAttempts)
  }

  predicate IsLeased(step: Step, id: EventId, lapse: int)
  {
    match step
    case Append(e) => e.id != id
    case Reclaim(now, _, _) => now < lapse
    case Deliver(_, e, _) => e.id != id
    case Retry(_, e, _) => e.id != id
    case _ => true
  }

  lemma {:induction false} LeaseIsKept(sys0: System, steps: seq<Step>, sys: System, id: EventId, lapse: int, maxAttempts: nat)
    requires Inv(sys0) && id in sys0.store.processing && sys0.store.processing[id] == lapse
    requires LeadsLeased(sys0, steps, sys, id, lapse, maxAttempts)
    ensures Inv(sys) && id in sys.store.processing && sys.store.processing[id] == lapse && id !in sys.store.pending
    decreases |steps|
  {
    if steps != [] {
      var last := steps[|steps| - 1];
      var prev :| LeadsLeased(sys0, steps[..|steps| - 1], prev, id, lapse, maxAttempts) && Enabled(prev, last)
                  && IsLeased(last, id, lapse) && sys == After(prev, last, maxAttempts);
      LeaseIsKept(sys0, steps[..|steps| - 1], prev, id, lapse, maxAttempts);
      StepKeepsInv(prev, last, maxAttempts);
      LeasedStepKeepsLease(prev, last, id, lapse, maxAttempts);
      hide Inv;
    }
  }

  lemma LeasedStepKeepsLease(sys: System, step: Step, id: EventId, lapse: int, maxAttempts: nat)
    requires Inv(sys) && Enabled(sys, step) && IsLeased(step, id, lapse)
    requires id in sys.store.processing && sys.store.processing[id] == lapse
    ensures id in After(sys, step, maxAttempts).store.processing && After(sys, step, maxAttempts).store.processing[id] == lapse
    ensures id !in After(sys, step, maxAttempts).store.pending
  {
  }

  /** A claim gives its worker the whole lease: nobody puts the event back before that unless it is reported on. */
  lemma ClaimsLastTheirLease(sys: System, claim: Step, steps: seq<Step>, end: System, id: EventId, maxAttempts: nat)
    requires Inv(sys) && Enabled(sys, claim) && claim.Claim? && id in claim.ids
    ensures LeadsLeased(After(sys, claim, maxAttempts), steps, end, id, claim.now + claim.leaseMs, maxAttempts) ==>
      id in end.store.processing && end.store.processing[id] == claim.now + claim.leaseMs && id !in end.store.pending
  {
    var now := After(sys, claim, maxAttempts);
    StepKeepsInv(sys, claim, maxAttempts);
    ClaimLeases(sys.store, claim.ids, claim.now + claim.leaseMs);
    hide Inv;
    hide Claimed;
    if LeadsLeased(now, steps, end, id, claim.now + claim.leaseMs, maxAttempts) {
      LeaseIsKept(now, steps, end, id, claim.now + claim.leaseMs, maxAttempts);
    }
  }

  lemma Extend(prev: System, steps: seq<Step>, step: Step, maxAttempts: nat) returns (sys: System)
    requires Reachable(prev, steps, maxAttempts) && Enabled(prev, step)
    ensures sys == After(prev, step, maxAttempts) && Reachable(sys, steps + [step], maxAttempts)
  {
    sys := After(prev, step, maxAttempts);
    var all := steps + [step];
    assert all[..|all| - 1] == steps && all[|all| - 1] == step;
  }

  /**
   * That second way does happen. One worker's lease lapses, another worker delivers the event,
   * and the first one's late failure report queues the delivered event again.
   */
  lemma DeliveredCanBeQueuedAgain(e: Event, maxAttempts: nat) returns (sys: System, steps: seq<Step>)
    requires e.status == Pending && e.attempts == 0 && maxAttempts >= 2
    ensures Reachable(sys, steps, maxAttempts)
    ensures Deliver(2, e, false) in steps
    ensures e.id in sys.store.bodies && sys.store.bodies[e.id].status == Retrying
    ensures e.id in sys.store.pending
  {
    var t, id := e.nextAttemptAt, e.id;
    var s1 := Extend(EMPTY, [], Append(e), maxAttempts);
    var s2, p2 := ClaimedOnce(e, s1, [Append(e)], 1, maxAttempts);
    var r := Reclaim(t, 1, [id]);
    var s3 := Extend(s2, p2, r, maxAttempts);
    assert s3.store == s1.store by { assert id in [id]; }
    var s4, p4 := ClaimedOnce(e, s3, p2 + [r], 2, maxAttempts);
    sys, steps := DeliveredThenFailed(e, s4, p4, maxAttempts);
  }

  lemma OnlyOneClaimed(e: Event)
    ensures var s := Store(map[e.id := e], map[e.id := e.nextAttemptAt], map[], {});
      && Selects(s.pending, e.nextAttemptAt, 1, [e.id])
      && Claimed(s, [e.id], e.nextAttemptAt) == Store(map[e.id := e], map[], map[e.id := e.nextAttemptAt], {})
      && Selects(map[e.id := e.nextAttemptAt], e.nextAttemptAt, 1, [e.id])
  {
    assert e.id in [e.id];
  }

  /** A single queued event, claimed and loaded by a worker. */
  lemma ClaimedOnce(e: Event, sys: System, steps: seq<Step>, worker: nat, maxAttempts: nat)
    returns (sys': System, steps': seq<Step>)
    requires Reachable(sys, steps, maxAttempts)
    requires sys.store == Store(map[e.id := e], map[e.id := e.nextAttemptAt], map[], {})
    ensures Reachable(sys', steps', maxAttempts)
    ensures sys'.store == Store(map[e.id := e], map[], map[e.id := e.nextAttemptAt], {})
    ensures e in HeldBy(sys', worker) && forall w :: HeldBy(sys, w) <= HeldBy(sys', w)
    ensures Selects(sys'.store.processing, e.nextAttemptAt, 1, [e.id])
  {
    OnlyOneClaimed(e);
    hide Reachable;
    hide Selects;
    hide Claimed;
    var claim, loading := Claim(worker, e.nextAttemptAt, 0, 1, [e.id]), Load(worker, e.id);
    var mid := Extend(sys, steps, claim, maxAttempts);
    assert e.id in [e.id] && e.id in ClaimedBy(mid, worker);
    sys' := Extend(mid, steps + [claim], loading, maxAttempts);
    steps' := steps + [claim] + [loading];
  }

  /** Worker 2 delivers the event it holds, then worker 1 reports that its own attempt failed. */
  lemma DeliveredThenFailed(e: Event, sys: System, steps: seq<Step>, maxAttempts: nat)
    returns (sys': System, steps': seq<Step>)
    requires Reachable(sys, steps, maxAttempts) && e.attempts + 1 < maxAttempts
    requires e in HeldBy(sys, 1) && e in HeldBy(sys, 2)
    ensures Reachable(sys', steps', maxAttempts) && Deliver(2, e, false) in steps'
    ensures e.id in sys'.store.bodies && sys'.store.bodies[e.id].status == Retrying
    ensures e.id in sys'.store.pending
  {
    var deliver, retry := Deliver(2, e, false), Retry(1, e, e.nextAttemptAt);
    var mid := Extend(sys, steps, deliver, maxAttempts);
    sys' := Extend(mid, steps + [deliver], retry, maxAttempts);
    steps' := steps + [deliver] + [retry];
    assert steps'[|steps|] == deliver;
  }
}
