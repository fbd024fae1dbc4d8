// Ingestion: the ledger window of a poll, paging through the RPC, and the monotone ledger cursor.
module EventIngestion {
  import opened Common
  import opened EventHandling
  import opened EventBatches

  const MAX_LEDGER_RANGE: nat := 100
  const FIRST_LOOKBACK: nat := 1000
  const PAGE_LIMIT: nat := 100

  function Min(a: int, b: int): int { if a < b then a else b }
  function Max(a: int, b: int): int { if a < b then b else a }

  // ── What the RPC serves ───────────────────────────────────────────────────────

  /** The contract's events, as the RPC orders them. */
  predicate ByLedger(chain: seq<Event>)
  {
    forall i, j :: 0 <= i < j < |chain| ==> chain[i].ledger <= chain[j].ledger
  }

  function InRange(chain: seq<Event>, low: int, high: int): seq<Event>
  {
    if chain == [] then []
    else
      var e := chain[|chain| - 1];
      InRange(chain[..|chain| - 1], low, high) + if low <= e.ledger <= high then [e] else []
  }

  /** A page starts at position `from` of the requested ledgers; its cursor points past its end. */
  datatype Page = Page(events: seq<Event>, cursor: nat)

  function GetEvents(chain: seq<Event>, low: nat, high: nat, from: nat): Page
  {
    var all := InRange(chain, low, high);
    var start := Min(from, |all|);
    var end := Min(start + PAGE_LIMIT, |all|);
    Page(all[start..end], end)
  }

  lemma {:induction false} InRangeMembers(chain: seq<Event>, low: int, high: int)
    ensures forall e :: e in InRange(chain, low, high) <==> e in chain && low <= e.ledger <= high
  {
    if chain != [] {
      var n := |chain| - 1;
      InRangeMembers(chain[..n], low, high);
      assert chain == chain[..n] + [chain[n]];
    }
  }

  lemma {:induction false} InRangeNone(chain: seq<Event>, low: int, high: int)
    requires forall e :: e in chain ==> !(low <= e.ledger <= high)
    ensures InRange(chain, low, high) == []
  {
    if chain != [] { InRangeNone(chain[..|chain| - 1], low, high); }
  }

  /** Adjacent ledger ranges join up. */
  lemma {:induction false} InRangeJoins(chain: seq<Event>, low: int, mid: int, high: int)
    requires ByLedger(chain) && low <= mid <= high + 1
    ensures InRange(chain, low, mid - 1) + InRange(chain, mid, high) == InRange(chain, low, high)
  {
    if chain != [] {
      var n := |chain| - 1;
      InRangeJoins(chain[..n], low, mid, high);
      if chain[n].ledger < mid {
        InRangeNone(chain[..n], mid, high);
      }
    }
  }

  // ── One poll ──────────────────────────────────────────────────────────────────

  /** What a poll meets: the ledgers the node keeps, whether fetching throws, and how the batch's
      groups are scheduled. */
  datatype Poll = Poll(latest: nat, oldest: nat, fails: bool, schedule: seq<nat>)

  /** The cursor row of the contract, and the state its handlers work on. */
  datatype Ingest = Ingest(cursor: Option<nat>, state: State)

  function StartOf(cursor: Option<nat>, latest: nat, oldest: nat, configured: Option<nat>): nat
  {
    if cursor.Some? then Max(cursor.value + 1, oldest)
    else if configured.Some? then Max(configured.value, oldest)
    else Max(latest - FIRST_LOOKBACK, oldest)
  }

  /** Where a poll with no checkpoint would start, before the node's oldest ledger is considered. */
  function FallbackStart(latest: nat, configured: Option<nat>): int
  {
    if configured.Some? then configured.value else latest - 1000
  }

  /**
   * The ledgers asked for: every one of them is after the checkpoint, or from the fallback start on when
   * there is none, is still kept by the node, and has closed; they are at most a hundred, and the start is
   * the first ledger that is due. Fewer than a hundred are asked for only up to the latest.
   */
  ghost predicate IsWindow(cursor: Option<nat>, latest: nat, oldest: nat, configured: Option<nat>, start: nat, end: int)
  {
    && (forall l: nat :: start <= l <= end ==> Due(l, cursor, latest, oldest, configured) && l <= latest)
    && (forall l: nat :: Due(l, cursor, latest, oldest, configured) ==> start <= l)
    && Due(start, cursor, latest, oldest, configured)
    && end - start < 100
    && (end - start < 99 ==> end == latest)
  }

  predicate Due(ledger: nat, cursor: Option<nat>, latest: nat, oldest: nat, configured: Option<nat>)
  {
    oldest <= ledger && if cursor.Some? then cursor.value < ledger else FallbackStart(latest, configured) <= ledger
  }

  lemma WindowIsDue(cursor: Option<nat>, latest: nat, oldest: nat, configured: Option<nat>)
    ensures var start := StartOf(cursor, latest, oldest, configured);
      IsWindow(cursor, latest, oldest, configured, start, EndOf(start, latest))
  {
    var start := StartOf(cursor, latest, oldest, configured);
    assert Due(start, cursor, latest, oldest, configured);
  }

  function EndOf(start: nat, latest: nat): int { Min(latest, start + MAX_LEDGER_RANGE - 1) }

  predicate Fetches(i: Ingest, p: Poll, configured: Option<nat>)
  {
    var start := StartOf(i.cursor, p.latest, p.oldest, configured);
    start <= EndOf(start, p.latest) && !p.fails
  }

  /** A poll fetches exactly if no fault hits it and some ledger that is due has closed. */
  lemma FetchesIffDue(i: Ingest, p: Poll, configured: Option<nat>)
    ensures Fetches(i, p, configured) <==>
      !p.fails && exists l: nat :: l <= p.latest && Due(l, i.cursor, p.latest, p.oldest, configured)
  {
    var start := StartOf(i.cursor, p.latest, p.oldest, configured);
    WindowIsDue(i.cursor, p.latest, p.oldest, configured);
    assert Due(start, i.cursor, p.latest, p.oldest, configured);
  }

  /** The stored cursor never moves back: it becomes the later of what is stored and what is given. */
  function UpdateCursor(cursor: Option<nat>, ledger: nat): (r: Option<nat>)
    ensures r.Some? && r.value >= ledger && (cursor.Some? ==> r.value >= cursor.value)
    ensures r == cursor || r == Some(ledger)
  {
    if cursor.Some? && cursor.value >= ledger then cursor else Some(ledger)
  }

  function Served(i: Ingest, p: Poll, configured: Option<nat>, chain: seq<Event>): seq<Event>
  {
    var start := StartOf(i.cursor, p.latest, p.oldest, configured);
    InRange(chain, start, EndOf(start, p.latest))
  }

  /** The ledger a fetching poll moves the cursor to. */
  function Reached(i: Ingest, p: Poll, configured: Option<nat>, chain: seq<Event>): nat
  {
    var events := Served(i, p, configured, chain);
    if events != [] then events[|events| - 1].ledger
    else Max(0, EndOf(StartOf(i.cursor, p.latest, p.oldest, configured), p.latest))
  }

  function Ingested(i: Ingest, p: Poll, configured: Option<nat>, chain: seq<Event>, sagas: bool): Ingest
  {
    if !Fetches(i, p, configured) then i
    else
      Ingest(UpdateCursor(i.cursor, Reached(i, p, configured, chain)),
             Handled(i.state, Served(i, p, configured, chain), p.schedule, sagas))
  }

  lemma {:induction false} InRangeKeepsOrder(chain: seq<Event>, low: int, high: int)
    requires ByLedger(chain)
    ensures ByLedger(InRange(chain, low, high))
  {
    if chain != [] {
      InRangeKeepsOrder(chain[..|chain| - 1], low, high);
      InRangeMembers(chain[..|chain| - 1], low, high);
    }
  }

  /** The chain events of the window are exactly those from its start to the ledger it reaches. */
  lemma FetchedUpToReached(i: Ingest, p: Poll, configured: Option<nat>, chain: seq<Event>, e: Event)
    requires ByLedger(chain) && Fetches(i, p, configured) && e in chain
    ensures var start := StartOf(i.cursor, p.latest, p.oldest, configured);
      e in Served(i, p, configured, chain) <==> start <= e.ledger <= Reached(i, p, configured, chain)
  {
    var start := StartOf(i.cursor, p.latest, p.oldest, configured);
    var end := EndOf(start, p.latest);
    var events := Served(i, p, configured, chain);
    InRangeMembers(chain, start, end);
    InRangeKeepsOrder(chain, start, end);
    if events != [] { assert events[|events| - 1] in events; }
  }

  /** Every poll that fetches moves the cursor past where it was, to a ledger of its window. */
  lemma FetchingAdvances(i: Ingest, p: Poll, configured: Option<nat>, chain: seq<Event>, sagas: bool)
    requires Fetches(i, p, configured)
    ensures var c := Ingested(i, p, configured, chain, sagas).cursor;
      && c == Some(Reached(i, p, configured, chain))
      && StartOf(i.cursor, p.latest, p.oldest, configured) <= c.value <= p.latest
      && (i.cursor.Some? ==> i.cursor.value < c.value) && Due(c.value, i.cursor, p.latest, p.oldest, configured)
  {
    var start := StartOf(i.cursor, p.latest, p.oldest, configured);
    InRangeMembers(chain, start, EndOf(start, p.latest));
    var events := Served(i, p, configured, chain);
    if events != [] { assert events[|events| - 1] in events; }
  }

  // ── Runs of polls ─────────────────────────────────────────────────────────────

  function Polled(i: Ingest, polls: seq<Poll>, configured: Option<nat>, chain: seq<Event>, sagas: bool): Ingest
  {
    if polls == [] then i
    else Ingested(Polled(i, polls[..|polls| - 1], configured, chain, sagas), polls[|polls| - 1], configured, chain, sagas)
  }

  /** In every poll that fetched, the batch ran to its end. */
  ghost predicate AllComplete(i: Ingest, polls: seq<Poll>, configured: Option<nat>, chain: seq<Event>, sagas: bool)
  {
    polls == [] ||
    (var p := polls[|polls| - 1];
     var before := Polled(i, polls[..|polls| - 1], configured, chain, sagas);
     && AllComplete(i, polls[..|polls| - 1], configured, chain, sagas)
     && (Fetches(before, p, configured) ==> Completes(before.state, Served(before, p, configured, chain), p.schedule, sagas)))
  }

  /** The first ledger of the first window fetched. */
  ghost function First(i: Ingest, polls: seq<Poll>, configured: Option<nat>, chain: seq<Event>, sagas: bool): Option<nat>
  {
    if polls == [] then None
    else
      var p := polls[|polls| - 1];
      var before := Polled(i, polls[..|polls| - 1], configured, chain, sagas);
      var first := First(i, polls[..|polls| - 1], configured, chain, sagas);
      if first.None? && Fetches(before, p, configured) then Some(StartOf(before.cursor, p.latest, p.oldest, configured))
      else first
  }

  predicate Jumped(ledger: nat, cursor: Option<nat>, oldest: nat)
  {
    cursor.Some? && cursor.value < ledger < oldest
  }

  /** The ledgers jumped over because the node no longer kept them when they were due. */
  ghost function Skipped(i: Ingest, polls: seq<Poll>, configured: Option<nat>, chain: seq<Event>, sagas: bool): iset<nat>
  {
    if polls == [] then iset{}
    else
      var p := polls[|polls| - 1];
      var before := Polled(i, polls[..|polls| - 1], configured, chain, sagas);
      Skipped(i, polls[..|polls| - 1], configured, chain, sagas) +
      if Fetches(before, p, configured) then iset l: nat | Jumped(l, before.cursor, p.oldest) else iset{}
  }

  predicate UpTo(ledger: nat, first: Option<nat>, cursor: Option<nat>)
  {
    first.Some? && cursor.Some? && first.value <= ledger <= cursor.value
  }

  /** How far the log has got: exactly the events from the first window to the cursor, less those
      in skipped ledgers. */
  ghost predicate Caught(chain: seq<Event>, i: Ingest, first: Option<nat>, skipped: iset<nat>)
  {
    && (first.None? <==> i.cursor.None?)
    && (first.Some? ==> first.value <= i.cursor.value)
    && (forall l :: l in skipped ==> UpTo(l, Some(0), i.cursor))
    && (forall e :: e in chain ==> (IdOf(e) in i.state.log <==> UpTo(e.ledger, first, i.cursor) && e.ledger !in skipped))
  }

  lemma SameIdSameEvent(chain: seq<Event>, es: seq<Event>, e: Event)
    requires DistinctIds(chain) && e in chain && (forall f :: f in es ==> f in chain)
    ensures HasId(es, IdOf(e)) <==> e in es
  {
    if HasId(es, IdOf(e)) {
      var k :| 0 <= k < |es| && IdOf(es[k]) == IdOf(e);
      assert es[k] in chain;
      var a :| 0 <= a < |chain| && chain[a] == es[k];
      var b :| 0 <= b < |chain| && chain[b] == e;
      assert a == b;
    }
    if e in es {
      var k :| 0 <= k < |es| && es[k] == e;
    }
  }

  /** What one fetching poll does to one event's record. */
  lemma PollRecords(i: Ingest, p: Poll, configured: Option<nat>, chain: seq<Event>, e: Event, sagas: bool)
    requires ByLedger(chain) && DistinctIds(chain) && e in chain && Fetches(i, p, configured)
    requires Completes(i.state, Served(i, p, configured, chain), p.schedule, sagas)
    ensures IdOf(e) in Ingested(i, p, configured, chain, sagas).state.log <==>
      IdOf(e) in i.state.log || StartOf(i.cursor, p.latest, p.oldest, configured) <= e.ledger <= Reached(i, p, configured, chain)
  {
    hide Completes;
    hide Reached;
    hide Handled;
    hide HasId;
    var events := Served(i, p, configured, chain);
    BatchRecords(i.state, events, p.schedule, IdOf(e), sagas);
    InRangeMembers(chain, StartOf(i.cursor, p.latest, p.oldest, configured), EndOf(StartOf(i.cursor, p.latest, p.oldest, configured), p.latest));
    SameIdSameEvent(chain, events, e);
    FetchedUpToReached(i, p, configured, chain, e);
  }

  lemma PollKeepsCaught(i: Ingest, p: Poll, configured: Option<nat>, chain: seq<Event>, first: Option<nat>,
          skipped: iset<nat>, sagas: bool)
    requires ByLedger(chain) && DistinctIds(chain) && Caught(chain, i, first, skipped) && Fetches(i, p, configured)
    requires Completes(i.state, Served(i, p, configured, chain), p.schedule, sagas)
    ensures Caught(chain, Ingested(i, p, configured, chain, sagas),
                   if first.None? then Some(StartOf(i.cursor, p.latest, p.oldest, configured)) else first,
                   skipped + (iset l: nat | Jumped(l, i.cursor, p.oldest)))
  {
    hide Completes;
    hide Handled;
    hide Served;
    hide Reached;
    FetchingAdvances(i, p, configured, chain, sagas);
    forall e | e in chain
      ensures IdOf(e) in Ingested(i, p, configured, chain, sagas).state.log <==>
        IdOf(e) in i.state.log || StartOf(i.cursor, p.latest, p.oldest, configured) <= e.ledger <= Reached(i, p, configured, chain)
    {
      PollRecords(i, p, configured, chain, e, sagas);
    }
  }

  lemma {:induction false} PollsKeepCaught(i: Ingest, polls: seq<Poll>, configured: Option<nat>, chain: seq<Event>,
          sagas: bool)
    requires ByLedger(chain) && DistinctIds(chain) && AllComplete(i, polls, configured, chain, sagas)
    requires i.cursor.None? && forall e :: e in chain ==> IdOf(e) !in i.state.log
    ensures Caught(chain, Polled(i, polls, configured, chain, sagas), First(i, polls, configured, chain, sagas),
                   Skipped(i, polls, configured, chain, sagas))
  {
    hide Completes;
    hide Handled;
    if polls != [] {
      hide Caught;
      hide Served;
      var n := |polls| - 1;
      var before := Polled(i, polls[..n], configured, chain, sagas);
      PollsKeepCaught(i, polls[..n], configured, chain, sagas);
      var first, skipped := First(i, polls[..n], configured, chain, sagas), Skipped(i, polls[..n], configured, chain, sagas);
      if Fetches(before, polls[n], configured) {
        PollKeepsCaught(before, polls[n], configured, chain, first, skipped, sagas);
      } else {
        assert skipped + iset{} == skipped;
      }
    }
  }

  /**
   * No gap: from an empty cursor, after any polls on any ledger bounds, failing or not, an event of
   * the chain has been handled exactly when its ledger lies between the first window's start and
   * the cursor and was not jumped over by a fast-forward.
   */
  lemma HandledUpToCursor(i: Ingest, polls: seq<Poll>, configured: Option<nat>, chain: seq<Event>, e: Event,
          sagas: bool)
    requires ByLedger(chain) && DistinctIds(chain) && AllComplete(i, polls, configured, chain, sagas)
    requires i.cursor.None? && (forall f :: f in chain ==> IdOf(f) !in i.state.log) && e in chain
    ensures var now := Polled(i, polls, configured, chain, sagas);
      IdOf(e) in now.state.log <==>
        UpTo(e.ledger, First(i, polls, configured, chain, sagas), now.cursor) && e.ledger !in Skipped(i, polls, configured, chain, sagas)
  {
    PollsKeepCaught(i, polls, configured, chain, sagas);
  }

  // ── Reorganisations ───────────────────────────────────────────────────────────

  /** Clearing the records from a ledger on, then asking for the cursor to be set before it. */
  function Reorged(i: Ingest, ledger: nat): Ingest
  {
    Ingest(if ledger == 0 then i.cursor else UpdateCursor(i.cursor, ledger - 1),
           i.state.(log := map id | id in i.state.log && id.0 < ledger :: i.state.log[id]))
  }

  /** Polls from any cursor handle exactly the ledgers between it and where they come to, less those jumped
      over; what was handled before stays handled. */
  lemma {:induction false} HandledFromCursor(i: Ingest, polls: seq<Poll>, configured: Option<nat>, chain: seq<Event>,
          e: Event, sagas: bool)
    requires ByLedger(chain) && DistinctIds(chain) && AllComplete(i, polls, configured, chain, sagas)
    requires i.cursor.Some? && e in chain
    ensures var now := Polled(i, polls, configured, chain, sagas);
      && now.cursor.Some? && i.cursor.value <= now.cursor.value
      && (forall l :: l in Skipped(i, polls, configured, chain, sagas) ==> l <= now.cursor.value)
      && (IdOf(e) in now.state.log <==>
            IdOf(e) in i.state.log
            || (i.cursor.value < e.ledger <= now.cursor.value && e.ledger !in Skipped(i, polls, configured, chain, sagas)))
  {
    hide Completes;
    hide Handled;
    hide Served;
    hide Reached;
    if polls != [] {
      var n := |polls| - 1;
      var before := Polled(i, polls[..n], configured, chain, sagas);
      HandledFromCursor(i, polls[..n], configured, chain, e, sagas);
      if Fetches(before, polls[n], configured) {
        FetchingAdvances(before, polls[n], configured, chain, sagas);
        PollRecords(before, polls[n], configured, chain, e, sagas);
      }
    }
  }

  /**
   * Which events are in the log after a reorganisation from `ledger` on and any polls after it: those
   * recorded before it in earlier ledgers, and those the polls fetched past the later of the old cursor and
   * the ledger asked for. The events it cleared at or below that point are not handled again.
   */
  lemma HandledAfterReorg(i: Ingest, ledger: nat, polls: seq<Poll>, configured: Option<nat>, chain: seq<Event>,
          e: Event, sagas: bool)
    requires ByLedger(chain) && DistinctIds(chain) && AllComplete(Reorged(i, ledger), polls, configured, chain, sagas)
    requires Reorged(i, ledger).cursor.Some? && e in chain
    ensures var from := Reorged(i, ledger).cursor.value;
      var now := Polled(Reorged(i, ledger), polls, configured, chain, sagas);
      && from == Max(if i.cursor.Some? then i.cursor.value else 0, ledger - 1)
      && now.cursor.Some?
      && (IdOf(e) in now.state.log <==>
            (e.ledger < ledger && IdOf(e) in i.state.log)
            || (from < e.ledger <= now.cursor.value && e.ledger !in Skipped(Reorged(i, ledger), polls, configured, chain, sagas)))
  {
    hide Polled;
    hide Skipped;
    HandledFromCursor(Reorged(i, ledger), polls, configured, chain, e, sagas);
  }

  /** A reorganisation announced above the cursor moves the cursor forward: the ledgers in between, which no
      poll has fetched, are never handled. */
  lemma ForwardReorgLosesUnfetched(i: Ingest, ledger: nat, polls: seq<Poll>, configured: Option<nat>, chain: seq<Event>,
          e: Event, sagas: bool)
    requires ByLedger(chain) && DistinctIds(chain) && AllComplete(Reorged(i, ledger), polls, configured, chain, sagas)
    requires i.cursor.Some? && i.cursor.value < e.ledger < ledger && e in chain && IdOf(e) !in i.state.log
    ensures Reorged(i, ledger).cursor == Some(ledger - 1)
    ensures IdOf(e) !in Polled(Reorged(i, ledger), polls, configured, chain, sagas).state.log
  {
    hide Polled;
    HandledAfterReorg(i, ledger, polls, configured, chain, e, sagas);
  }

  /**
   * A reorganisation at or below the cursor is announced as a reprocessing, but the monotone guard
   * drops the rewind: the records are gone and no later poll handles those events again.
   */
  lemma ReorgIsNotReprocessed(i: Ingest, ledger: nat, polls: seq<Poll>, configured: Option<nat>, chain: seq<Event>,
          e: Event, sagas: bool)
    requires ByLedger(chain) && DistinctIds(chain) && AllComplete(Reorged(i, ledger), polls, configured, chain, sagas)
    requires i.cursor.Some? && e in chain && ledger <= e.ledger <= i.cursor.value
    ensures Reorged(i, ledger).cursor == i.cursor
    ensures IdOf(e) !in Polled(Reorged(i, ledger), polls, configured, chain, sagas).state.log
  {
    hide Polled;
    HandledAfterReorg(i, ledger, polls, configured, chain, e, sagas);
  }
}
