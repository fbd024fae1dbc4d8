// The ingestion service: paging through the RPC, bucketing and running a batch, moving the cursor.
module EventService {
  import opened Common
  import opened EventHandling
  import opened EventSchedules
  import opened EventBatches
  import opened EventIngestion

  /** Some runner can step, and every step is one of a bounded number. */
  lemma SomeoneGoesOn(gs: seq<seq<Event>>, b: Batch, sagas: bool)
    requires OwnPhases(gs, b) && !AllFinished(gs, b)
    ensures exists k :: 0 <= k < |gs| && CanStep(gs, b, k)
    ensures forall k :: 0 <= k < |gs| && CanStep(gs, b, k) ==>
      var now := StepOf(gs, b, k, sagas);
      OwnPhases(gs, now) && Total(b.at) < Total(now.at) <= MAX_STEPS * |Concat(gs)|
  {
    var someone := SomeoneCanStep(gs, b);
    hide CanStep;
    hide StepOf;
    hide Total;
    hide AllFinished;
    assert someone < |gs| by { assert CanStep(gs, b, someone); }
    forall k | 0 <= k < |gs| && CanStep(gs, b, k)
      ensures OwnPhases(gs, StepOf(gs, b, k, sagas))
      ensures Total(b.at) < Total(StepOf(gs, b, k, sagas).at) <= MAX_STEPS * |Concat(gs)|
    {
      StepKeepsPhases(gs, b, k, sagas);
      StepCounts(gs, b, k, sagas);
      TotalIsBounded(gs, StepOf(gs, b, k, sagas).at);
    }
  }

  /** The events of the page batch that starts at `start`. */
  function Window(chain: seq<Event>, start: int, end: int): seq<Event>
  {
    InRange(chain, start, Min(start + PAGE_LIMIT - 1, end))
  }

  /** Whole page batches below `current`, and `cursor` events of the batch that starts there. */
  ghost predicate FetchedSoFar(chain: seq<Event>, start: nat, end: nat, current: int, cursor: int, all: seq<Event>)
  {
    && start <= current <= Max(start, end + 1)
    && 0 <= cursor <= |Window(chain, current, end)| && (current > end ==> cursor == 0)
    && all == InRange(chain, start, current - 1) + Window(chain, current, end)[..cursor]
  }

  lemma NothingFetched(chain: seq<Event>, start: nat, end: nat)
    ensures FetchedSoFar(chain, start, end, start, 0, [])
  {
    InRangeNone(chain, start, start - 1);
  }

  lemma PageStep(chain: seq<Event>, start: nat, end: nat, current: nat, cursor: nat, all: seq<Event>)
    requires ByLedger(chain) && FetchedSoFar(chain, start, end, current, cursor, all) && current <= end
    ensures var batchEnd := Min(current + PAGE_LIMIT - 1, end);
      var page := GetEvents(chain, current, batchEnd, cursor);
      if |page.events| == PAGE_LIMIT
      then cursor < page.cursor && FetchedSoFar(chain, start, end, current, page.cursor, all + page.events)
      else FetchedSoFar(chain, start, end, batchEnd + 1, 0, all + page.events)
  {
    hide InRange;
    hide ByLedger;
    var batchEnd := Min(current + PAGE_LIMIT - 1, end);
    var page := GetEvents(chain, current, batchEnd, cursor);
    var window := Window(chain, current, end);
    PageOf(window, cursor);
    InRangeJoins(chain, start, current, batchEnd);
    assert Window(chain, batchEnd + 1, end)[..0] == [];
    var before := InRange(chain, start, current - 1);
    assert all + page.events == before + (window[..cursor] + page.events);
  }

  /** A page continues the window, and a page that is not full completes it. */
  lemma PageOf(window: seq<Event>, cursor: nat)
    requires cursor <= |window|
    ensures var end := Min(cursor + PAGE_LIMIT, |window|);
      && cursor <= end <= |window|
      && window[..cursor] + window[cursor..end] == window[..end]
      && (end - cursor < PAGE_LIMIT ==> window[..end] == window)
  {
  }

  lemma AllFetched(chain: seq<Event>, start: nat, end: nat, current: int, cursor: int, all: seq<Event>)
    requires FetchedSoFar(chain, start, end, current, cursor, all) && end < current
    ensures all == InRange(chain, start, end)
  {
    if end < start {
      InRangeNone(chain, start, end);
      InRangeNone(chain, start, current - 1);
    }
  }

  /** The buckets of a sorted prefix. */
  ghost predicate Bucketed(es: seq<Event>, unkeyed: seq<Event>, order: seq<GroupKey>, keyed: map<GroupKey, seq<Event>>)
  {
    && unkeyed == Unkeyed(es)
    && order == Keys(es)
    && (forall k :: k in keyed <==> k in order)
    && (forall k :: k in keyed ==> keyed[k] == InGroup(es, k))
  }

  lemma NothingBucketed()
    ensures Bucketed([], [], [], map[])
  {
  }

  lemma BucketsSay(es: seq<Event>, unkeyed: seq<Event>, order: seq<GroupKey>, keyed: map<GroupKey, seq<Event>>)
    requires Bucketed(es, unkeyed, order, keyed)
    ensures unkeyed == Unkeyed(es) && order == Keys(es)
    ensures forall j :: 0 <= j < |order| ==> order[j] in keyed && keyed[order[j]] == InGroup(es, order[j])
  {
  }

  /** Taking the next sorted event into its bucket. */
  lemma UnkeyedStep(es: seq<Event>, i: nat, unkeyed: seq<Event>, order: seq<GroupKey>, keyed: map<GroupKey, seq<Event>>)
    requires i < |es| && Bucketed(es[..i], unkeyed, order, keyed) && es[i].group.None?
    ensures Bucketed(es[..i + 1], unkeyed + [es[i]], order, keyed)
  {
    assert es[..i + 1][..i] == es[..i];
    assert Unkeyed(es[..i + 1]) == Unkeyed(es[..i]) + [es[i]];
    assert Keys(es[..i + 1]) == Keys(es[..i]);
    hide Unkeyed;
    hide Keys;
    hide InGroup;
    forall k | k in keyed ensures InGroup(es[..i + 1], k) == keyed[k] {
      InGroupStep(es[..i + 1], i, k);
    }
  }

  lemma KnownKeyStep(es: seq<Event>, i: nat, unkeyed: seq<Event>, order: seq<GroupKey>,
          keyed: map<GroupKey, seq<Event>>, k: GroupKey)
    requires i < |es| && Bucketed(es[..i], unkeyed, order, keyed) && es[i].group == Some(k) && k in keyed
    ensures Bucketed(es[..i + 1], unkeyed, order, keyed[k := keyed[k] + [es[i]]])
  {
    assert es[..i + 1][..i] == es[..i];
    assert Unkeyed(es[..i + 1]) == Unkeyed(es[..i]);
    assert Keys(es[..i + 1]) == Keys(es[..i]);
    hide Unkeyed;
    hide Keys;
    hide InGroup;
    var now := keyed[k := keyed[k] + [es[i]]];
    forall j | j in now ensures InGroup(es[..i + 1], j) == now[j] {
      InGroupStep(es[..i + 1], i, j);
    }
  }

  lemma NewKeyStep(es: seq<Event>, i: nat, unkeyed: seq<Event>, order: seq<GroupKey>,
          keyed: map<GroupKey, seq<Event>>, k: GroupKey)
    requires i < |es| && Bucketed(es[..i], unkeyed, order, keyed) && es[i].group == Some(k) && k !in keyed
    ensures Bucketed(es[..i + 1], unkeyed, order + [k], keyed[k := [es[i]]])
  {
    assert es[..i + 1][..i] == es[..i];
    assert Unkeyed(es[..i + 1]) == Unkeyed(es[..i]);
    assert Keys(es[..i + 1]) == Keys(es[..i]) + [k];
    GroupOfAbsentKey(es[..i], k);
    hide Unkeyed;
    hide Keys;
    hide InGroup;
    var now := keyed[k := [es[i]]];
    forall j | j in now ensures InGroup(es[..i + 1], j) == now[j] {
      InGroupStep(es[..i + 1], i, j);
    }
  }

  class EventIngestionService {
    var checkpoint: Option<nat>
    var state: State
    var isIngestingInFlight: bool
    const startLedger: Option<nat>
    const sagas: bool

    constructor (startLedger: Option<nat>, sagas: bool, state: State)
      ensures checkpoint == None && this.state == state && !isIngestingInFlight
      ensures this.startLedger == startLedger && this.sagas == sagas
    {
      this.checkpoint := None;
      this.state := state;
      this.isIngestingInFlight := false;
      this.startLedger := startLedger;
      this.sagas := sagas;
    }

    ghost function Now(): Ingest
      reads this
    {
      Ingest(checkpoint, state)
    }

    method UpdateCursor(ledger: nat)
      modifies this`checkpoint
      ensures checkpoint == EventIngestion.UpdateCursor(old(checkpoint), ledger)
      ensures checkpoint.Some? && checkpoint.value == Max(ledger, if old(checkpoint).Some? then old(checkpoint).value else 0)
    {
      if checkpoint.Some? && checkpoint.value >= ledger { return; }
      checkpoint := Some(ledger);
    }

    /** The log check, the handler and the record, with nothing in between. */
    method ProcessEvent(e: Event)
      modifies this`state
      ensures state == Process(old(state), e, sagas)
      ensures IsProcessed(old(state), state, e, sagas)
      ensures e.kind == EscrowCreated && e.target.Some? && IdOf(e) !in old(state).log && e.target.value !in old(state).rows ==>
        e.target.value in state.rows && IsCreated(state.rows[e.target.value], e, e.target.value)
    {
      ProcessInWords(state, e, sagas);
      if IdOf(e) in state.log { return; }
      var ok := e.kind == OtherKind;
      if Touch(e).Some? {
        var c := Touch(e).value;
        var (row, done) := Handle(RowAt(state.rows, c), e, c, sagas);
        state := state.(rows := PutRow(state.rows, c, row));
        ok := done;
      }
      state := state.(log := state.log[IdOf(e) := ok]);
    }

    /** All events of the window, page by page. */
    method FetchEvents(chain: seq<Event>, start: nat, end: nat) returns (all: seq<Event>)
      requires ByLedger(chain)
      ensures all == InRange(chain, start, end)
    {
      all := [];
      var currentStart: int := start;
      var cursor := 0;
      NothingFetched(chain, start, end);
      while currentStart <= end
        invariant FetchedSoFar(chain, start, end, currentStart, cursor, all)
        decreases end + 1 - currentStart, |Window(chain, currentStart, end)| - cursor
      {
        var batchEnd := Min(currentStart + PAGE_LIMIT - 1, end);
        var page := GetEvents(chain, currentStart, batchEnd, cursor);
        PageStep(chain, start, end, currentStart, cursor, all);
        all := all + page.events;
        if |page.events| == PAGE_LIMIT {
          cursor := page.cursor;
        } else {
          cursor := 0;
          currentStart := batchEnd + 1;
        }
      }
      AllFetched(chain, start, end, currentStart, cursor, all);
    }

    /** Sorts and buckets `events`; the id-less ones run first, then the groups interleave freely. */
    method ProcessEventBatch(events: seq<Event>) returns (ghost schedule: seq<nat>)
      modifies this`state
      ensures Completes(old(state), events, schedule, sagas)
      ensures state == Handled(old(state), events, schedule, sagas)
      ensures DistinctIds(events) && KeysIdentify(multiset(events)) ==> state == Run(old(state), Plan(events), sagas)
    {
      hide Process;
      hide Advance;
      hide DistinctIds;
      hide KeysIdentify;
      var es := SortEvents(events);
      var unkeyed, groups := Bucket(es);
      ghost var before := state;
      var i := 0;
      while i < |unkeyed|
        invariant i <= |unkeyed| && state == Run(before, unkeyed[..i], sagas)
      {
        assert unkeyed[..i + 1][..i] == unkeyed[..i];
        ProcessEvent(unkeyed[i]);
        i := i + 1;
      }
      assert unkeyed[..i] == unkeyed;
      schedule := RunGroups(groups);
      if DistinctIds(events) && KeysIdentify(multiset(events)) {
        BatchIsSequential(before, events, events, schedule, sagas);
      }
    }

    method Bucket(es: seq<Event>) returns (unkeyed: seq<Event>, groups: seq<seq<Event>>)
      ensures unkeyed == Unkeyed(es) && groups == Groups(es)
    {
      hide Bucketed;
      unkeyed := [];
      var order: seq<GroupKey> := [];
      var keyed: map<GroupKey, seq<Event>> := map[];
      var i := 0;
      assert Bucketed(es[..0], unkeyed, order, keyed) by { NothingBucketed(); }
      while i < |es|
        invariant i <= |es| && Bucketed(es[..i], unkeyed, order, keyed)
      {
        var e := es[i];
        match e.group {
          case None =>
            UnkeyedStep(es, i, unkeyed, order, keyed);
            unkeyed := unkeyed + [e];
          case Some(k) =>
            if k in keyed {
              KnownKeyStep(es, i, unkeyed, order, keyed, k);
              keyed := keyed[k := keyed[k] + [e]];
            } else {
              NewKeyStep(es, i, unkeyed, order, keyed, k);
              order := order + [k];
              keyed := keyed[k := [e]];
            }
        }
        i := i + 1;
      }
      assert es[..i] == es;
      BucketsSay(es, unkeyed, order, keyed);
      groups := seq(|order|, j requires 0 <= j < |order| => keyed[order[j]]);
      SameGroups(groups, Groups(es));
    }

    /** The runners of `groups` in some order of steps, until all have finished. */
    method RunGroups(groups: seq<seq<Event>>) returns (ghost schedule: seq<nat>)
      modifies this`state
      ensures AllFinished(groups, Played(groups, old(state), schedule, sagas))
      ensures state == Played(groups, old(state), schedule, sagas).s
    {
      schedule := [];
      ghost var before := state;
      var b := Begin(groups, state);
      while !AllFinished(groups, b)
        invariant b == Played(groups, before, schedule, sagas) && state == b.s
        invariant OwnPhases(groups, b)
        decreases MAX_STEPS * |Concat(groups)| - Total(b.at)
      {
        SomeoneGoesOn(groups, b, sagas);
        var k :| 0 <= k < |groups| && CanStep(groups, b, k);
        PlayedOneMore(groups, before, schedule, k, sagas);
        b := StepOf(groups, b, k, sagas);
        schedule := schedule + [k];
        state := b.s;
      }
    }

    /** The ledgers a poll asks for. */
    method ChooseWindow(latest: nat, oldest: nat) returns (start: nat, end: int)
      ensures start == StartOf(checkpoint, latest, oldest, startLedger) && end == EndOf(start, latest)
      ensures IsWindow(checkpoint, latest, oldest, startLedger, start, end)
    {
      WindowIsDue(checkpoint, latest, oldest, startLedger);
      hide IsWindow;
      if checkpoint.Some? {
        start := checkpoint.value + 1;
        if start < oldest { start := oldest; }
      } else if startLedger.Some? {
        start := Max(startLedger.value, oldest);
      } else {
        start := Max(latest - FIRST_LOOKBACK, oldest);
      }
      end := Min(latest, start + MAX_LEDGER_RANGE - 1);
    }

    /** One poll. `fails` says whether fetching throws. */
    method IngestEvents(chain: seq<Event>, latest: nat, oldest: nat, fails: bool) returns (ghost p: Poll)
      requires ByLedger(chain)
      modifies this
      ensures isIngestingInFlight == old(isIngestingInFlight)
      ensures p.latest == latest && p.oldest == oldest && p.fails == fails
      ensures old(isIngestingInFlight) ==> Now() == old(Now())
      ensures !old(isIngestingInFlight) ==> Now() == Ingested(old(Now()), p, startLedger, chain, sagas)
      ensures !old(isIngestingInFlight) && Fetches(old(Now()), p, startLedger) ==>
        Completes(old(state), Served(old(Now()), p, startLedger, chain), p.schedule, sagas)
      ensures !old(isIngestingInFlight) && !fails && (exists l: nat :: l <= latest && Due(l, old(checkpoint), latest, oldest, startLedger)) ==>
        && checkpoint.Some? && checkpoint.value <= latest && Due(checkpoint.value, old(checkpoint), latest, oldest, startLedger)
      ensures fails || !(exists l: nat :: l <= latest && Due(l, old(checkpoint), latest, oldest, startLedger)) ==> Now() == old(Now())
    {
      FetchesIffDue(Now(), Poll(latest, oldest, fails, []), startLedger);
      hide Handled;
      hide Completes;
      hide StartOf;
      hide EndOf;
      hide InRange;
      p := Poll(latest, oldest, fails, []);
      if isIngestingInFlight { return; }
      isIngestingInFlight := true;
      var start, end := ChooseWindow(latest, oldest);
      if start <= end && !fails {
        var events := FetchEvents(chain, start, end);
        ghost var schedule := ProcessEventBatch(events);
        p := Poll(latest, oldest, fails, schedule);
        FetchingAdvances(old(Now()), p, startLedger, chain, sagas);
        UpdateCursor(if events != [] then events[|events| - 1].ledger else end);
      }
      isIngestingInFlight := false;
    }
  }
}
