// The outbox service and its background relay as objects that update their state in place.
module OutboxService {
  import opened Common
  import opened OutboxStore
  import opened OutboxRelay

  class OutboxService {
    var bodies: map<EventId, Event>
    var pending: map<EventId, int>
    var processing: map<EventId, int>
    var expiring: set<EventId>
    /** The next id the generator hands out; ids are never reused. */
    var nextId: EventId
    const maxAttempts: nat
    const deliveredTtl: nat

    ghost function State(): Store
      reads this
    {
      Store(bodies, pending, processing, expiring)
    }

    ghost predicate Valid()
      reads this
    {
      Safe(State()) && maxAttempts >= 1 && forall id :: id in bodies ==> id < nextId
    }

    constructor (maxAttempts: nat, deliveredTtl: nat)
      requires maxAttempts >= 1
      ensures Valid() && State() == EMPTY.store && this.maxAttempts == maxAttempts
    {
      this.maxAttempts, this.deliveredTtl := maxAttempts, deliveredTtl;
      bodies, pending, processing, expiring, nextId := map[], map[], map[], {}, 0;
    }

    /** Builds an event with an unused id; nothing is stored yet. */
    method Create(eventType: string, aggregateType: string, aggregateId: string, payload: string,
                  dedupKey: string, clock: int) returns (e: Event)
      requires Valid()
      modifies this`nextId
      ensures Valid() && State() == old(State()) && nextId == old(nextId) + 1
      ensures e == Event(old(nextId), dedupKey, eventType, aggregateType, aggregateId, payload, Pending, 0, clock)
      ensures e.id !in bodies && e.id < nextId
    {
      e := Event(nextId, dedupKey, eventType, aggregateType, aggregateId, payload, Pending, 0, clock);
      nextId := nextId + 1;
    }

    method Append(e: Event)
      requires Valid() && e.id !in bodies && e.id < nextId && e.status == Pending
      modifies this`bodies, this`pending, this`expiring
      ensures Valid() && State() == Appended(old(State()), e)
      ensures OnlyTouches(old(State()), State(), {e.id})
      ensures e.id in bodies && bodies[e.id] == e && e.id in pending && pending[e.id] == e.nextAttemptAt && e.id !in expiring
    {
      AppendStores(State(), e);
      AppendKeepsSafe(State(), e);
      bodies := bodies[e.id := e];
      expiring := expiring - {e.id};
      pending := pending[e.id := e.nextAttemptAt];
    }

    /** Redis' own ZRANGEBYSCORE: lowest scores first, at most `limit` members. */
    static method RangeByScore(z: map<EventId, int>, bound: int, limit: nat) returns (ids: seq<EventId>)
      ensures Selects(z, bound, limit, ids)
    {
      ids := [];
      var rest := set k | k in z && z[k] <= bound;
      while |ids| < limit && rest != {}
        invariant |ids| <= limit && Distinct(ids)
        invariant forall k :: k in z && z[k] <= bound <==> k in rest || k in ids
        invariant forall k :: k in rest ==> k in z && z[k] <= bound && k !in ids
        invariant forall i :: 0 <= i < |ids| ==> ids[i] in z && z[ids[i]] <= bound
        invariant forall i, j :: 0 <= i < j < |ids| ==> z[ids[i]] <= z[ids[j]]
        invariant forall i, k :: 0 <= i < |ids| && k in rest ==> z[ids[i]] <= z[k]
        decreases rest
      {
        var next := LowestOf(z, rest);
        ids := ids + [next];
        rest := rest - {next};
      }
    }

    static method LowestOf(z: map<EventId, int>, keys: set<EventId>) returns (id: EventId)
      requires keys <= z.Keys && keys != {}
      ensures id in keys && forall k :: k in keys ==> z[id] <= z[k]
    {
      id :| id in keys;
      var rest := keys - {id};
      while rest != {}
        invariant rest <= keys && id in keys
        invariant forall k :: k in keys - rest ==> z[id] <= z[k]
        decreases rest
      {
        var k :| k in rest;
        if z[k] < z[id] { id := k; }
        rest := rest - {k};
      }
    }

    /** The claim script: due members leave the pending set for the processing set. */
    method ClaimDue(now: int, leaseMs: nat, batchSize: nat) returns (events: seq<Event>, ghost ids: seq<EventId>)
      requires Valid()
      modifies this`pending, this`processing
      ensures Valid() && Selects(old(pending), now, batchSize, ids)
      ensures State() == Claimed(old(State()), ids, now + leaseMs)
      ensures OnlyTouches(old(State()), State(), set id | id in ids) && bodies == old(bodies)
      ensures forall id :: id in ids ==> id !in pending && id in processing && processing[id] == now + leaseMs
      ensures |events| == |ids| && forall i :: 0 <= i < |ids| ==>
        InHand(State(), events[i]) && events[i].id == ids[i]
    {
      hide Safe;
      hide Without;
      hide WithAll;
      var members := RangeByScore(pending, now, batchSize);
      ids := members;
      ClaimKeepsSafe(State(), now, batchSize, members, now + leaseMs);
      ClaimLeases(State(), members, now + leaseMs);
      hide OnlyTouches;
      pending, processing := MoveAll(pending, processing, members, now + leaseMs);
      events := LoadEvents(members);
      AllPresent(bodies, members);
    }

    /** The loop both scripts run: each member leaves one sorted set and is scored in the other. */
    static method MoveAll(from: map<EventId, int>, to: map<EventId, int>, ids: seq<EventId>, score: int)
      returns (source: map<EventId, int>, target: map<EventId, int>)
      ensures source == Without(from, ids) && target == WithAll(to, ids, score)
    {
      source, target := from, to;
      for i := 0 to |ids|
        invariant source == Without(from, ids[..i])
        invariant target == WithAll(to, ids[..i], score)
      {
        WithoutOneMore(from, ids[..i], ids[i]);
        WithOneMore(to, ids[..i], ids[i], score);
        assert ids[..i + 1] == ids[..i] + [ids[i]];
        source := source - {ids[i]};
        target := target[ids[i] := score];
      }
      assert ids[..|ids|] == ids;
    }

    /** Reads the bodies of `ids`; one that is missing is left in the processing set. */
    method LoadEvents(ids: seq<EventId>) returns (events: seq<Event>)
      ensures events == Present(bodies, ids)
    {
      events := [];
      for i := 0 to |ids|
        invariant events == Present(bodies, ids[..i])
      {
        assert ids[..i + 1][..i] == ids[..i];
        if ids[i] in bodies { events := events + [bodies[ids[i]]]; }
      }
      assert ids[..|ids|] == ids;
    }

    /** The reclaim script: lapsed leases go back to the pending set, due at once. */
    method ReclaimExpired(now: int, batchSize: nat) returns (ids: seq<EventId>)
      requires Valid()
      modifies this`pending, this`processing
      ensures Valid() && Selects(old(processing), now, batchSize, ids)
      ensures State() == Reclaimed(old(State()), ids, now)
      ensures OnlyTouches(old(State()), State(), set id | id in ids) && bodies == old(bodies)
      ensures forall id :: id in ids ==> id !in processing && id in pending && pending[id] == now
    {
      hide Safe;
      hide Without;
      hide WithAll;
      ids := RangeByScore(processing, now, batchSize);
      ReclaimKeepsSafe(State(), now, batchSize, ids, now);
      ReclaimReturns(State(), ids, now);
      hide OnlyTouches;
      processing, pending := MoveAll(processing, pending, ids, now);
    }

    method MarkDelivered(e: Event)
      requires Valid() && e.id < nextId
      modifies this`bodies, this`pending, this`processing, this`expiring
      ensures Valid() && State() == MarkedDelivered(old(State()), e, deliveredTtl > 0)
      ensures OnlyTouches(old(State()), State(), {e.id}) && e.id in bodies && bodies[e.id] == e.(status := Delivered)
      ensures e.id !in pending && e.id !in processing && (e.id in expiring <==> deliveredTtl > 0)
    {
      DeliveryEnds(State(), e, deliveredTtl > 0);
      hide OnlyTouches;
      DeliveryKeepsSafe(State(), e, deliveredTtl > 0);
      bodies := bodies[e.id := e.(status := Delivered)];
      processing := processing - {e.id};
      pending := pending - {e.id};
      expiring := if deliveredTtl > 0 then expiring + {e.id} else expiring - {e.id};
    }

    method Retry(e: Event, clock: int)
      requires Valid() && e.id < nextId
      modifies this`bodies, this`pending, this`processing, this`expiring
      ensures Valid() && State() == Retried(old(State()), e, maxAttempts, clock)
      ensures OnlyTouches(old(State()), State(), {e.id}) && e.id in bodies
      ensures bodies[e.id] == e.(attempts := e.attempts + 1, status := bodies[e.id].status,
                                 nextAttemptAt := bodies[e.id].nextAttemptAt)
      ensures e.id !in processing && e.id !in expiring
      ensures e.attempts + 1 < maxAttempts ==>
        && bodies[e.id].status == Retrying && e.id in pending && pending[e.id] == bodies[e.id].nextAttemptAt
        && IsDelay(e.attempts + 1, pending[e.id] - clock)
      ensures e.attempts + 1 >= maxAttempts ==> bodies[e.id].status == Failed && (e.id in pending <==> e.id in old(pending))
    {
      RetryReschedules(State(), e, maxAttempts, clock);
      hide Safe;
      hide OnlyTouches;
      hide IsDelay;
      hide Backoff;
      RetryKeepsSafe(State(), e, maxAttempts, clock);
      var attempts := e.attempts + 1;
      var failed := attempts >= maxAttempts;
      var nextAttemptAt := if failed then e.nextAttemptAt else clock + Backoff(attempts);
      var updated := e.(attempts := attempts, status := if failed then Failed else Retrying,
                        nextAttemptAt := nextAttemptAt);
      bodies := bodies[e.id := updated];
      expiring := expiring - {e.id};
      processing := processing - {e.id};
      if !failed { pending := pending[e.id := nextAttemptAt]; }
    }

    /** Queues a webhook event; when the append fails the event is dropped. */
    method SendWebhook(eventType: string, payload: string, dedupKey: string, clock: int, stored: bool)
      requires Valid()
      modifies this`nextId, this`bodies, this`pending, this`expiring
      ensures Valid() && nextId == old(nextId) + 1
      ensures State() ==
        if stored
        then Appended(old(State()), Event(old(nextId), dedupKey, eventType, WEBHOOK, dedupKey, payload, Pending, 0, clock))
        else old(State())
      ensures OnlyTouches(old(State()), State(), {old(nextId)})
      ensures stored ==>
        && old(nextId) in pending && pending[old(nextId)] == clock && old(nextId) in bodies
        && bodies[old(nextId)] == Event(old(nextId), dedupKey, eventType, "webhook", dedupKey, payload, Pending, 0, clock)
    {
      var event := Create(eventType, WEBHOOK, dedupKey, payload, dedupKey, clock);
      if stored { Append(event); }
    }
  }

  /** The stored event is exactly `e`, and it is being processed. */
  ghost predicate InHand(s: Store, e: Event)
  {
    e.id in s.processing && e.id in s.bodies && s.bodies[e.id] == e
  }

  lemma OthersStayInHand(s: Store, s': Store, e: Event, o: Outcome, newId: EventId, clock: int, max: nat, ttl: bool)
    requires IsResolved(s, s', e, o, newId, clock, max, ttl) && newId !in s.bodies
    ensures forall other: Event :: other.id != e.id && InHand(s, other) ==> InHand(s', other)
  {
  }

  class OutboxRelayService {
    const outbox: OutboxService

    constructor (outbox: OutboxService)
      ensures this.outbox == outbox
    {
      this.outbox := outbox;
    }

    /**
     * One sweep. `fate` says how publishing, fan-out and dispatching go for each event. Every
     * event it returns lowered the work left in the outbox by at least one.
     */
    method RunOnce(now: int, leaseMs: nat, batchSize: nat, clock: int, fate: EventId -> Outcome)
      returns (handled: nat)
      requires outbox.Valid() && WithinLimit(outbox.State(), outbox.maxAttempts)
      modifies outbox
      ensures outbox.Valid() && WithinLimit(outbox.State(), outbox.maxAttempts)
      ensures Work(outbox.State(), outbox.maxAttempts) + handled <= Work(old(outbox.State()), outbox.maxAttempts)
      ensures handled <= batchSize
    {
      ghost var s0 := outbox.State();
      var events := TakeBatch(now, leaseMs, batchSize);
      for i := 0 to |events|
        invariant outbox.Valid() && WithinLimit(outbox.State(), outbox.maxAttempts)
        invariant Work(outbox.State(), outbox.maxAttempts) + i <= Work(s0, outbox.maxAttempts)
        invariant forall k :: i <= k < |events| ==> InHand(outbox.State(), events[k])
      {
        HandleEvent(events[i], fate(events[i].id), clock);
      }
      handled := |events|;
    }

    /** Lapsed leases go back first, then the due events are claimed. */
    method TakeBatch(now: int, leaseMs: nat, batchSize: nat) returns (events: seq<Event>)
      requires outbox.Valid() && WithinLimit(outbox.State(), outbox.maxAttempts)
      modifies outbox`pending, outbox`processing
      ensures outbox.Valid() && WithinLimit(outbox.State(), outbox.maxAttempts)
      ensures Work(outbox.State(), outbox.maxAttempts) == Work(old(outbox.State()), outbox.maxAttempts)
      ensures |events| <= batchSize
      ensures forall i, j :: 0 <= i < j < |events| ==> events[i].id != events[j].id
      ensures forall i :: 0 <= i < |events| ==> InHand(outbox.State(), events[i])
    {
      hide Safe;
      hide WithinLimit;
      hide Work;
      hide Claimed;
      hide Reclaimed;
      ghost var s0 := outbox.State();
      var lapsed := outbox.ReclaimExpired(now, batchSize);
      StepKeepsWork(s0, ReturnLapsed(now, batchSize, lapsed), outbox.maxAttempts);
      ghost var s1 := outbox.State();
      ghost var ids;
      events, ids := outbox.ClaimDue(now, leaseMs, batchSize);
      StepKeepsWork(s1, TakeDue(now, leaseMs, batchSize, ids), outbox.maxAttempts);
    }

    /** Publishes, fans out, dispatches and resolves one claimed event. */
    method HandleEvent(event: Event, fate: Outcome, clock: int)
      requires outbox.Valid() && WithinLimit(outbox.State(), outbox.maxAttempts)
      requires InHand(outbox.State(), event)
      modifies outbox
      ensures outbox.Valid() && WithinLimit(outbox.State(), outbox.maxAttempts)
      ensures outbox.State() ==
        Handled(old(outbox.State()), event, fate, old(outbox.nextId), clock, outbox.maxAttempts, outbox.deliveredTtl > 0)
      ensures Work(outbox.State(), outbox.maxAttempts) < Work(old(outbox.State()), outbox.maxAttempts)
      ensures forall other: Event :: other.id != event.id && InHand(old(outbox.State()), other) ==>
        InHand(outbox.State(), other)
      ensures IsResolved(old(outbox.State()), outbox.State(), event, fate, old(outbox.nextId), clock,
                         outbox.maxAttempts, outbox.deliveredTtl > 0)
    {
      hide IsResolved;
      hide AfterFailure;
      hide MarkedDelivered;
      hide Retried;
      hide Appended;
      hide IsDelay;
      hide OnlyTouches;
      hide Safe;
      hide WithinLimit;
      hide Work;
      ghost var s := outbox.State();
      HandlingResolves(outbox.State(), event, fate, outbox.nextId, clock, outbox.maxAttempts, outbox.deliveredTtl > 0);
      ghost var step := Resolve(event.id, fate, outbox.nextId, clock, outbox.deliveredTtl > 0);
      if fate.published && !IsWebhook(event) {
        outbox.SendWebhook(event.eventType, event.payload, event.dedupKey, clock, fate.spawnStored);
      }
      if fate.published && fate.dispatched {
        outbox.MarkDelivered(event);
      } else {
        outbox.Retry(event, clock);
      }
      OthersStayInHand(s, outbox.State(), event, fate, step.newId, clock, outbox.maxAttempts, step.ttl);
      ResolveLowersWork(s, step, outbox.maxAttempts);
    }
  }
}
