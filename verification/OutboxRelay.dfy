// The background relay over the outbox's Redis state, and the ranking argument that it stops although
// it feeds the queue it reads.
module OutboxRelay {
  import opened OutboxStore
  import opened Sums

  // ── Ranking ───────────────────────────────────────────────────────────────────

  /**
   * What is left to be done for one queued event. A domain event may spawn one webhook event,
   * worth `max`, on each of its remaining attempts; a webhook event spawns nothing.
   */
  ghost function Rank(e: Event, max: nat): nat
  {
    var left := if e.attempts < max then max - e.attempts else 0;
    Times(left, Price(e, max))
  }

  /** What one attempt is worth: it pays for the webhook event it may spawn, and one more. */
  ghost function Price(e: Event, max: nat): nat { if IsWebhook(e) then 1 else max + 1 }

  /** `n` times `k`, kept free of multiplication for the solver's sake. */
  ghost function Times(n: nat, k: nat): nat
  {
    if n == 0 then 0 else k + Times(n - 1, k)
  }

  lemma {:induction false} TimesIsProduct(n: nat, k: nat)
    ensures Times(n, k) == n * k
  {
    if n > 0 {
      TimesIsProduct(n - 1, k);
      assert n * k == (n - 1) * k + k;
    }
  }

  ghost function Ranks(s: Store, max: nat): map<nat, nat>
  {
    map id | id in s.bodies && IsQueued(s, id) :: Rank(s.bodies[id], max)
  }

  /** The total work left in the queues. */
  ghost function Work(s: Store, max: nat): nat { Total(Ranks(s, max)) }

  /** Every queued event has attempts left, and no stored event has overrun its limit. */
  ghost predicate WithinLimit(s: Store, max: nat)
  {
    && (forall id :: id in s.bodies ==> s.bodies[id].attempts <= max)
    && (forall id :: id in s.bodies && IsQueued(s, id) ==> s.bodies[id].attempts < max)
  }

  /** How one claimed event fares: whether publishing and dispatching work, and whether the
      append of the spawned webhook event reaches Redis. */
  datatype Outcome = Outcome(published: bool, spawnStored: bool, dispatched: bool)

  function WebhookFor(e: Event, id: EventId, clock: int): (w: Event)
    ensures IsWebhook(w) && w.attempts == 0 && w.status == Pending && w.id == id
    ensures w.dedupKey == e.dedupKey && w.eventType == e.eventType && w.payload == e.payload
    ensures w.aggregateType == "webhook" && w.aggregateId == e.dedupKey && w.nextAttemptAt == clock
  {
    Event(id, e.dedupKey, e.eventType, WEBHOOK, e.dedupKey, e.payload, Pending, 0, clock)
  }

  ghost function Spawned(s: Store, e: Event, o: Outcome, newId: EventId, clock: int): Store
  {
    if o.published && !IsWebhook(e) && o.spawnStored
    then Appended(s, WebhookFor(e, newId, clock))
    else s
  }

  /** One pass of the relay loop over a claimed event: publish, fan out, dispatch, resolve. */
  ghost function Handled(s: Store, e: Event, o: Outcome, newId: EventId, clock: int, max: nat, ttl: bool): Store
  {
    var spawned := Spawned(s, e, o, newId, clock);
    if o.published && o.dispatched then MarkedDelivered(spawned, e, ttl) else Retried(spawned, e, max, clock)
  }

  lemma TouchesBoth(s: Store, mid: Store, end: Store, a: EventId, b: EventId)
    requires (mid == s || OnlyTouches(s, mid, {a})) && OnlyTouches(mid, end, {b})
    ensures OnlyTouches(s, end, {a, b})
  {
  }

  /**
   * What is to become of a handled event: delivered if publishing and dispatching both worked, else one more
   * failed attempt, due after its delay or not at all. The webhook event it fans out to is due at once, and
   * nothing else is touched.
   */
  ghost predicate IsResolved(s: Store, s': Store, e: Event, o: Outcome, newId: EventId, clock: int, max: nat, ttl: bool)
  {
    && OnlyTouches(s, s', {newId, e.id}) && e.id in s'.bodies && e.id !in s'.processing
    && (o.published && o.dispatched ==>
          s'.bodies[e.id] == e.(status := Delivered) && e.id !in s'.pending && (e.id in s'.expiring <==> ttl))
    && (!(o.published && o.dispatched) ==> s'.bodies[e.id].attempts == e.attempts + 1 && e.id !in s'.expiring)
    && (!(o.published && o.dispatched) && e.attempts + 1 < max ==>
          s'.bodies[e.id].status == Retrying && e.id in s'.pending && IsDelay(e.attempts + 1, s'.pending[e.id] - clock))
    && (!(o.published && o.dispatched) && e.attempts + 1 >= max ==> s'.bodies[e.id].status == Failed)
    && (o.published && o.spawnStored && e.aggregateType != "webhook" ==> newId in s'.pending && s'.pending[newId] == clock)
  }

  lemma HandlingResolves(s: Store, e: Event, o: Outcome, newId: EventId, clock: int, max: nat, ttl: bool)
    requires e.id != newId
    ensures IsResolved(s, Handled(s, e, o, newId, clock, max, ttl), e, o, newId, clock, max, ttl)
  {
    var spawned := Spawned(s, e, o, newId, clock);
    AppendStores(s, WebhookFor(e, newId, clock));
    DeliveryEnds(spawned, e, ttl);
    RetryReschedules(spawned, e, max, clock);
    hide AfterFailure;
    hide IsDelay;
    hide Appended;
    hide MarkedDelivered;
    hide Retried;
    TouchesBoth(s, spawned, Handled(s, e, o, newId, clock, max, ttl), newId, e.id);
    NewIsLeft(spawned, Handled(s, e, o, newId, clock, max, ttl), newId, e.id);
    hide OnlyTouches;
  }

  lemma NewIsLeft(s: Store, s': Store, id: EventId, own: EventId)
    requires OnlyTouches(s, s', {own}) && id != own
    ensures (id in s.pending ==> id in s'.pending && s'.pending[id] == s.pending[id])
  {
  }

  /**
   * Fan-out is one deep. Handling an event stores at most one new event, and does so exactly for a domain
   * event that was published; the new one is a webhook event with its payload and dedup key, whose own
   * handling, however it goes, stores nothing new.
   */
  lemma FanOutIsOneDeep(s: Store, e: Event, o: Outcome, newId: EventId, clock: int, max: nat, ttl: bool)
    requires e.id in s.bodies && newId !in s.bodies
    ensures var s' := Handled(s, e, o, newId, clock, max, ttl);
      && (newId in s'.bodies <==> o.published && o.spawnStored && !IsWebhook(e))
      && s'.bodies.Keys <= s.bodies.Keys + {newId}
      && (newId in s'.bodies ==>
            && s'.bodies[newId].payload == e.payload && s'.bodies[newId].dedupKey == e.dedupKey && IsQueued(s', newId)
            && forall later: Store, o': Outcome, id': EventId, clock': int, ttl': bool ::
                 Handled(later, s'.bodies[newId], o', id', clock', max, ttl').bodies.Keys == later.bodies.Keys + {newId})
  {
  }

  /** Relay steps when every claim is resolved before its lease lapses: the copy in hand is the
      stored event, and it is still in the processing set. */
  datatype RelayStep =
    | TakeDue(now: int, leaseMs: nat, limit: nat, ids: seq<EventId>)
    | ReturnLapsed(now: int, limit: nat, ids: seq<EventId>)
    | Resolve(id: EventId, outcome: Outcome, newId: EventId, clock: int, ttl: bool)
    | DropExpired(id: EventId)

  ghost predicate CanStep(s: Store, step: RelayStep)
  {
    match step
    case TakeDue(now, _, limit, ids) => Selects(s.pending, now, limit, ids)
    case ReturnLapsed(now, limit, ids) => Selects(s.processing, now, limit, ids)
    case Resolve(id, _, newId, _, _) => id in s.processing && newId !in s.bodies
    case DropExpired(id) => id in s.expiring
  }

  ghost function StepTo(s: Store, step: RelayStep, max: nat): Store
    requires Safe(s) && CanStep(s, step)
  {
    match step
    case TakeDue(now, leaseMs, _, ids) => Claimed(s, ids, now + leaseMs)
    case ReturnLapsed(now, _, ids) => Reclaimed(s, ids, now)
    case Resolve(id, o, newId, clock, ttl) => Handled(s, s.bodies[id], o, newId, clock, max, ttl)
    case DropExpired(id) => Expired(s, id)
  }

  lemma AttemptLowersRank(e: Event, max: nat, clock: int)
    requires e.attempts < max
    ensures Rank(e, max) >= Price(e, max)
    ensures Rank(AfterFailure(e, max, clock), max) + Price(e, max) == Rank(e, max)
  {}

  lemma SpawnCost(s: Store, w: Event, max: nat)
    requires Safe(s) && WithinLimit(s, max)
    requires w.id !in s.bodies && w.status == Pending && w.attempts == 0 && IsWebhook(w) && max >= 1
    ensures WithinLimit(Appended(s, w), max)
    ensures Work(Appended(s, w), max) == Work(s, max) + max
  {
    SpawnRank(s, w, max);
    hide Ranks;
    hide WithinLimit;
    TotalPut(Ranks(s, max), w.id, max);
  }

  lemma SpawnRank(s: Store, w: Event, max: nat)
    requires Safe(s) && WithinLimit(s, max)
    requires w.id !in s.bodies && w.attempts == 0 && IsWebhook(w) && max >= 1
    ensures Ranks(Appended(s, w), max) == Ranks(s, max)[w.id := max]
    ensures Ranks(s, max) - {w.id} == Ranks(s, max)
    ensures WithinLimit(Appended(s, w), max)
  {
    TimesIsProduct(max, 1);
    assert Rank(w, max) == max;
    hide Rank;
    SpawnKeepsLimit(s, w, max);
    hide WithinLimit;
    var r, r' := Ranks(s, max), Ranks(Appended(s, w), max);
    assert r' == r[w.id := max];
  }

  lemma SpawnKeepsLimit(s: Store, w: Event, max: nat)
    requires WithinLimit(s, max) && w.id !in s.bodies && w.attempts == 0 && max >= 1
    ensures WithinLimit(Appended(s, w), max)
  {
  }

  lemma ResolvingKeepsLimit(s: Store, e: Event, clock: int, max: nat, ttl: bool)
    requires WithinLimit(s, max) && e.attempts < max
    ensures WithinLimit(MarkedDelivered(s, e, ttl), max)
    ensures IsQueued(s, e.id) && e.id !in s.pending ==> WithinLimit(Retried(s, e, max, clock), max)
  {}

  lemma RanksAfterDelivery(s: Store, e: Event, max: nat, ttl: bool)
    requires e.id in s.bodies
    ensures Ranks(MarkedDelivered(s, e, ttl), max) == Ranks(s, max) - {e.id}
  {}

  lemma RanksAfterRetry(s: Store, e: Event, clock: int, max: nat)
    requires Safe(s) && e.id in s.processing
    ensures var updated := AfterFailure(e, max, clock);
            Ranks(Retried(s, e, max, clock), max) ==
            if updated.status == Failed then Ranks(s, max) - {e.id} else Ranks(s, max)[e.id := Rank(updated, max)]
  {}

  lemma DeliveryGain(s: Store, e: Event, max: nat, ttl: bool)
    requires e.id in s.bodies && IsQueued(s, e.id) && e == s.bodies[e.id] && e.attempts < max
    ensures Work(MarkedDelivered(s, e, ttl), max) + Price(e, max) <= Work(s, max)
  {
    AttemptLowersRank(e, max, 0);
    RanksAfterDelivery(s, e, max, ttl);
    TotalTakes(Ranks(s, max), e.id);
  }

  lemma RetryGain(s: Store, e: Event, clock: int, max: nat)
    requires Safe(s) && e.id in s.processing && e == s.bodies[e.id] && e.attempts < max
    ensures Work(Retried(s, e, max, clock), max) + Price(e, max) <= Work(s, max)
  {
    AttemptLowersRank(e, max, clock);
    RanksAfterRetry(s, e, clock, max);
    var r := Ranks(s, max);
    TotalTakes(r, e.id);
    TotalPut(r, e.id, Rank(AfterFailure(e, max, clock), max));
  }

  /** Resolving a claim lowers the work left, whatever the outcome and whatever it spawns. */
  lemma ResolveLowersWork(s: Store, step: RelayStep, max: nat)
    requires Safe(s) && WithinLimit(s, max) && CanStep(s, step) && step.Resolve?
    ensures Safe(StepTo(s, step, max)) && WithinLimit(StepTo(s, step, max), max)
    ensures Work(StepTo(s, step, max), max) < Work(s, max)
  {
    var e := s.bodies[step.id];
    var spawned := Spawned(s, e, step.outcome, step.newId, step.clock);
    if spawned != s {
      var w := WebhookFor(e, step.newId, step.clock);
      AppendKeepsSafe(s, w);
      SpawnCost(s, w, max);
    }
    DeliveryKeepsSafe(spawned, e, step.ttl);
    RetryKeepsSafe(spawned, e, max, step.clock);
    ResolvingKeepsLimit(spawned, e, step.clock, max, step.ttl);
    DeliveryGain(spawned, e, max, step.ttl);
    RetryGain(spawned, e, step.clock, max);
  }

  /** No other step raises it. */
  lemma StepKeepsWork(s: Store, step: RelayStep, max: nat)
    requires Safe(s) && WithinLimit(s, max) && CanStep(s, step) && !step.Resolve?
    ensures Safe(StepTo(s, step, max)) && WithinLimit(StepTo(s, step, max), max)
    ensures Work(StepTo(s, step, max), max) == Work(s, max)
  {
    match step
    case TakeDue(now, leaseMs, limit, ids) =>
      ClaimKeepsSafe(s, now, limit, ids, now + leaseMs);
      hide Safe;
      hide WithinLimit;
      hide Work;
      SameQueuesSameWork(s, StepTo(s, step, max), max);
    case ReturnLapsed(now, limit, ids) =>
      ReclaimKeepsSafe(s, now, limit, ids, now);
      hide Safe;
      hide WithinLimit;
      hide Work;
      SameQueuesSameWork(s, StepTo(s, step, max), max);
    case DropExpired(id) =>
      ExpiryKeepsWork(s, id, max);
  }

  lemma ExpiryKeepsWork(s: Store, id: EventId, max: nat)
    requires Safe(s) && WithinLimit(s, max) && id in s.expiring
    ensures Safe(Expired(s, id)) && WithinLimit(Expired(s, id), max) && Work(Expired(s, id), max) == Work(s, max)
  {
    assert Ranks(Expired(s, id), max) == Ranks(s, max);
  }

  lemma SameQueuesSameWork(s: Store, s': Store, max: nat)
    requires s.bodies == s'.bodies && forall id :: IsQueued(s', id) <==> IsQueued(s, id)
    ensures Work(s', max) == Work(s, max)
    ensures WithinLimit(s, max) ==> WithinLimit(s', max)
  {
    assert Ranks(s', max) == Ranks(s, max);
  }

  ghost predicate IsRun(states: seq<Store>, steps: seq<RelayStep>, max: nat)
  {
    && |states| == |steps| + 1
    && Safe(states[0]) && WithinLimit(states[0], max)
    && forall i :: 0 <= i < |steps| ==>
         Safe(states[i]) && CanStep(states[i], steps[i]) && states[i + 1] == StepTo(states[i], steps[i], max)
  }

  ghost function Resolutions(steps: seq<RelayStep>): nat
  {
    if steps == [] then 0
    else Resolutions(steps[..|steps| - 1]) + (if steps[|steps| - 1].Resolve? then 1 else 0)
  }

  /**
   * The relay drains the outbox: a run holds no more resolutions than the work its first state
   * left, however the attempts turn out, and no event ever exceeds its attempt limit.
   */
  lemma {:induction false} RelayTerminates(states: seq<Store>, steps: seq<RelayStep>, max: nat)
    requires IsRun(states, steps, max)
    ensures Work(states[|steps|], max) + Resolutions(steps) <= Work(states[0], max)
    ensures Safe(states[|steps|]) && WithinLimit(states[|steps|], max)
    decreases |steps|
  {
    if steps != [] {
      var n := |steps| - 1;
      RelayTerminates(states[..|states| - 1], steps[..n], max);
      if steps[n].Resolve? {
        ResolveLowersWork(states[n], steps[n], max);
      } else {
        StepKeepsWork(states[n], steps[n], max);
      }
    }
  }

  /** Nothing is left to do exactly when nothing is queued. */
  lemma NoWorkMeansDrained(s: Store, max: nat)
    requires Safe(s) && WithinLimit(s, max)
    ensures Work(s, max) == 0 <==> forall id :: !IsQueued(s, id)
  {
    if id :| IsQueued(s, id) {
      AttemptLowersRank(s.bodies[id], max, 0);
      TotalTakes(Ranks(s, max), id);
    } else {
      assert Ranks(s, max) == map[];
    }
  }

  /** And while something is queued, the relay is never stuck: once the clock reaches the next
      due time it can claim, and a claim can be resolved. */
  lemma RelayIsNeverStuck(s: Store, max: nat) returns (step: RelayStep)
    requires Safe(s) && WithinLimit(s, max) && exists id :: IsQueued(s, id)
    ensures CanStep(s, step)
    ensures step.Resolve? || (step.TakeDue? && StepTo(s, step, max).processing.Keys != {})
  {
    if id :| id in s.processing {
      var top := Above(s.bodies.Keys);
      step := Resolve(id, Outcome(true, true, true), top, 0, false);
    } else {
      var some :| IsQueued(s, some);
      var id := LowestScore(s.pending, s.pending.Keys);
      step := TakeDue(s.pending[id], 0, 1, [id]);
      assert id in [id];
      assert id in StepTo(s, step, max).processing;
    }
  }

  lemma Above(keys: set<EventId>) returns (top: nat)
    ensures forall k :: k in keys ==> k < top
  {
    if keys == {} {
      top := 0;
    } else {
      var k :| k in keys;
      top := Above(keys - {k});
      if top <= k { top := k + 1; }
      assert forall j :: j in keys ==> j == k || j in keys - {k};
    }
  }

  /** The member of `keys` with the lowest score. */
  lemma LowestScore(z: map<EventId, int>, keys: set<EventId>) returns (id: EventId)
    requires keys <= z.Keys && keys != {}
    ensures id in keys && forall k :: k in keys ==> z[id] <= z[k]
    decreases |keys|
  {
    id :| id in keys;
    if keys != {id} {
      var other := LowestScore(z, keys - {id});
      if z[other] < z[id] { id := other; }
    }
  }
}
