// Handling chain events: the dedup log, the handlers, and what one event reads and writes.
module EventHandling {
  import opened Common
  import opened Escrow

  type GroupKey = nat
  type EventId = (nat, nat)

  datatype Kind = EscrowCreated | EscrowFunded | EscrowReleased | EscrowDisputed | OtherKind

  /**
   * `rank` places the event's id in the locale order of ids; `group` is its second topic; `target`
   * the contract escrow id its handler works on, absent when none can be read from it; `draw` the
   * random row id and `at` the time its handler would use.
   */
  datatype Event = Event(
    ledger: nat,
    rank: nat,
    kind: Kind,
    group: Option<GroupKey>,
    target: Option<ContractId>,
    depositor: Address,
    beneficiary: Address,
    amount: int,
    draw: EscrowId,
    at: int)

  /** An escrow row, and whether an active dispute saga is recorded for it. */
  datatype Row = Row(escrow: Escrow, disputing: bool)

  datatype State = State(rows: map<ContractId, Row>, log: map<EventId, bool>)

  function IdOf(e: Event): EventId { (e.ledger, e.rank) }

  /** The row a handler reads and writes, if any. */
  function Touch(e: Event): Option<ContractId>
  {
    if e.kind == OtherKind then None else e.target
  }

  function RowAt(rows: map<ContractId, Row>, c: ContractId): Option<Row>
  {
    if c in rows then Some(rows[c]) else None
  }

  function PutRow(rows: map<ContractId, Row>, c: ContractId, row: Option<Row>): map<ContractId, Row>
  {
    if row.None? then rows else rows[c := row.value]
  }

  /**
   * Where a handler is between two store commands. `Writing`: the row to write back is computed from the
   * one read. `Screened`: no active saga was seen, the escrow's escalation lock is waited for. `Opened`:
   * under the lock, the saga is recorded and the escrow not yet frozen; `Freezing` and `Failing`: it is to
   * be frozen, or could not be, and the saga is to be failed.
   */
  datatype Mid = Start | Creating | Writing(put: Escrow) | Screened | Opened | Freezing(put: Escrow) | Failing

  datatype Progress = Next(mid: Mid) | Done(ok: bool)

  predicate HoldsLock(m: Mid) { m.Opened? || m.Freezing? || m.Failing? }

  function StepsLeft(m: Mid): nat
  {
    match m
    case Start => 4
    case Screened => 3
    case Opened => 2
    case _ => 1
  }

  function NewRow(e: Event, c: ContractId, row: Option<Row>): Row
  {
    Row(Escrow(e.draw, e.depositor, e.beneficiary, e.amount, Pending, Some(c), None, None, false, None),
        row.Some? && row.value.escrow.id == e.draw && row.value.disputing)
  }

  /** The escrow is written back; the saga marker is a record of its own. */
  function Written(row: Option<Row>, put: Escrow): Option<Row>
  {
    if row.None? then None else Some(row.value.(escrow := put))
  }

  function Marked(row: Row, disputing: bool): Option<Row> { Some(row.(disputing := disputing)) }

  /** A guarded transition: refused at its read, or about to write. */
  function Guard(row: Row, op: Op): Progress
  {
    var r := Apply(op, row.escrow);
    if r.Success? then Next(Writing(r.value)) else Done(false)
  }

  /** What a handler does after its first read. `sagas` says whether disputes are routed through the saga. */
  function Begun(row: Option<Row>, e: Event, sagas: bool): Progress
  {
    match e.kind
    case EscrowCreated => if row.Some? then Done(true) else Next(Creating)
    case EscrowFunded => if row.None? then Done(false) else Guard(row.value, Fund)
    case EscrowReleased => if row.None? then Done(false) else Guard(row.value, Release)
    case EscrowDisputed =>
      if row.None? then Done(false)
      else if !sagas then Guard(row.value, RaiseDispute(e.at))
      else if row.value.disputing then Done(true)
      else Next(Screened)
    case OtherKind => Done(true)
  }

  /** The escalation's guards under the lock, where an active saga is a conflict, and the saga's first write. */
  function Open(row: Row): (Option<Row>, Progress)
  {
    if row.disputing then (Some(row), Done(false))
    else if row.escrow.status == Disputed then (Marked(row, true), Done(true))
    else if row.escrow.status == Active then (Marked(row, true), Next(Opened))
    else (Some(row), Done(false))
  }

  /** One store command of `e`'s handler on its row, as it is by then. */
  function Stride(row: Option<Row>, e: Event, c: ContractId, m: Mid, sagas: bool): (r: (Option<Row>, Progress))
    ensures r.0.None? ==> row.None?
    ensures r.1.Next? ==> StepsLeft(r.1.mid) < StepsLeft(m)
  {
    match m
    case Start => (row, Begun(row, e, sagas))
    case Creating => (Some(NewRow(e, c, row)), Done(true))
    case Writing(put) => (Written(row, put), Done(true))
    case Screened => if row.None? then (row, Done(false)) else Open(row.value)
    case Opened =>
      if row.None? then (row, Next(Failing))
      else
        var r := Apply(RaiseDispute(e.at), row.value.escrow);
        (row, Next(if r.Success? then Freezing(r.value) else Failing))
    case Freezing(put) => (Written(row, put), Done(true))
    case Failing => (if row.None? then None else Marked(row.value, false), Done(false))
  }

  /** The rest of a handler that nothing interrupts: the row it leaves, and whether it succeeds. */
  function Complete(row: Option<Row>, e: Event, c: ContractId, m: Mid, sagas: bool): (r: (Option<Row>, bool))
    ensures r.0.None? ==> row.None?
    decreases StepsLeft(m)
  {
    var (now, p) := Stride(row, e, c, m, sagas);
    match p
    case Done(ok) => (now, ok)
    case Next(mid) => Complete(now, e, c, mid, sagas)
  }

  function Handle(row: Option<Row>, e: Event, c: ContractId, sagas: bool): (Option<Row>, bool)
  {
    Complete(row, e, c, Start, sagas)
  }

  /** The row of `r`, if the transition applies to its escrow. */
  function Applied(r: Row, op: Op, disputing: bool): (Option<Row>, bool)
  {
    var now := Apply(op, r.escrow);
    if now.Success? then (Some(Row(now.value, disputing)), true) else (Some(r), false)
  }

  /** The row a creation event stores: its own parties and amount, pending, under the contract's id and the id drawn. */
  ghost predicate IsCreated(row: Row, e: Event, c: ContractId)
  {
    var x := row.escrow;
    && x.id == e.draw && x.depositor == e.depositor && x.beneficiary == e.beneficiary && x.amount == e.amount
    && x.status == Pending && x.contractId == Some(c) && x.disputedAt == None && x.splitPercentage == None
    && !x.review && x.version == None && !row.disputing
  }

  /** The escrow is rewritten as given, with its version counted up, and the saga marker is this. */
  ghost predicate Becomes(after: Option<Row>, escrow: Escrow, disputing: bool)
  {
    after == Some(Row(Bumped(escrow), disputing))
  }

  /** A funding activates a pending escrow and a release settles one that is not settled; else they fail. */
  ghost predicate IsMoved(row: Row, e: Event, row': Option<Row>, ok: bool)
  {
    && (e.kind == EscrowFunded ==>
          && (ok <==> row.escrow.status == Pending)
          && (ok ==> Becomes(row', row.escrow.(status := Active), row.disputing)))
    && (e.kind == EscrowReleased ==>
          && (ok <==> row.escrow.status !in {Released, Cancelled})
          && (ok ==> Becomes(row', row.escrow.(status := Released), row.disputing)))
    && (!ok ==> row' == Some(row))
  }

  /** A dispute freezes an active escrow; routed through a saga, it adopts a dispute that has none yet, and one
      that has is left alone. */
  ghost predicate IsDisputed(row: Row, e: Event, sagas: bool, row': Option<Row>, ok: bool)
  {
    if sagas && row.disputing then ok && row' == Some(row)
    else if sagas && row.escrow.status == Disputed then ok && row' == Some(Row(row.escrow, true))
    else
      && (ok <==> row.escrow.status == Active)
      && (ok ==> Becomes(row', row.escrow.(status := Disputed, disputedAt := Some(e.at)), row.disputing || sagas))
      && (!ok ==> row' == Some(row))
  }

  /** What handling one event does to the row its contract id names, and whether it succeeds. */
  ghost predicate IsHandled(row: Option<Row>, e: Event, c: ContractId, sagas: bool, row': Option<Row>, ok: bool)
  {
    match e.kind
    case EscrowCreated => ok && if row.Some? then row' == row else row'.Some? && IsCreated(row'.value, e, c)
    case EscrowDisputed => if row.Some? then IsDisputed(row.value, e, sagas, row', ok) else !ok && row' == None
    case OtherKind => ok && row' == row
    case _ => if row.Some? then IsMoved(row.value, e, row', ok) else !ok && row' == None
  }

  /** What a handler that nothing interrupts amounts to. A dispute that finds a saga is fulfilled, one that
      finds a disputed escrow without a saga adopts it. */
  lemma HandlerOutcome(row: Option<Row>, e: Event, c: ContractId, sagas: bool)
    ensures Handle(row, e, c, sagas) ==
      match e.kind {
        case EscrowCreated => if row.Some? then (row, true) else (Some(NewRow(e, c, None)), true)
        case EscrowFunded => if row.None? then (row, false) else Applied(row.value, Fund, row.value.disputing)
        case EscrowReleased => if row.None? then (row, false) else Applied(row.value, Release, row.value.disputing)
        case EscrowDisputed =>
          if row.None? then (row, false)
          else if sagas && row.value.disputing then (row, true)
          else if sagas && row.value.escrow.status == Disputed then (Marked(row.value, true), true)
          else Applied(row.value, RaiseDispute(e.at), sagas || row.value.disputing)
        case OtherKind => (row, true)
      }
    ensures IsHandled(row, e, c, sagas, Handle(row, e, c, sagas).0, Handle(row, e, c, sagas).1)
  {
    if e.kind == EscrowDisputed && sagas && row.Some? && !row.value.disputing {
      assert Handle(row, e, c, sagas) == Complete(row, e, c, Screened, sagas);
      if row.value.escrow.status == Active {
        assert Complete(row, e, c, Screened, sagas) == Complete(Marked(row.value, true), e, c, Opened, sagas);
      }
    }
  }

  /** A dispute that has opened its saga freezes the escrow if that is active by then; else it closes its saga and fails. */
  lemma OpenedDisputeOutcome(row: Row, e: Event, c: ContractId, sagas: bool)
    ensures var (row', ok) := Complete(Some(row), e, c, Opened, sagas);
      && (ok <==> row.escrow.status == Active)
      && (ok ==> Becomes(row', row.escrow.(status := Disputed, disputedAt := Some(e.at)), row.disputing))
      && (!ok ==> row' == Some(Row(row.escrow, false)))
  {
  }

  /** A creation whose write comes after another's replaces that row by its own, which has a saga only if the drawn
      ids are the same. */
  lemma LateCreationReplaces(row: Row, e: Event, c: ContractId, sagas: bool)
    ensures var (row', ok) := Complete(Some(row), e, c, Creating, sagas);
      && ok && row'.Some? && IsCreated(row'.value.(disputing := false), e, c)
      && (row'.value.disputing <==> row.disputing && row.escrow.id == e.draw)
  {
  }

  /** Handling one event from start to end. */
  function Process(s: State, e: Event, sagas: bool): State
  {
    if IdOf(e) in s.log then s
    else if Touch(e).None? then s.(log := s.log[IdOf(e) := e.kind == OtherKind])
    else
      var c := Touch(e).value;
      var (row, ok) := Handle(RowAt(s.rows, c), e, c, sagas);
      State(PutRow(s.rows, c, row), s.log[IdOf(e) := ok])
  }

  function Run(s: State, es: seq<Event>, sagas: bool): State
  {
    if es == [] then s else Process(Run(s, es[..|es| - 1], sagas), es[|es| - 1], sagas)
  }

  /** An event already recorded does nothing; any other is recorded, and changes at most the row it names. */
  ghost predicate IsProcessed(s: State, s': State, e: Event, sagas: bool)
  {
    if IdOf(e) in s.log then s' == s
    else if e.kind == OtherKind then s'.rows == s.rows && s'.log == s.log[IdOf(e) := true]
    else if e.target.None? then s'.rows == s.rows && s'.log == s.log[IdOf(e) := false]
    else
      var c := e.target.value;
      && IdOf(e) in s'.log && s'.log == s.log[IdOf(e) := s'.log[IdOf(e)]]
      && IsHandled(RowAt(s.rows, c), e, c, sagas, RowAt(s'.rows, c), s'.log[IdOf(e)])
      && forall other :: other != c ==> RowAt(s'.rows, other) == RowAt(s.rows, other)
  }

  lemma ProcessInWords(s: State, e: Event, sagas: bool)
    ensures IsProcessed(s, Process(s, e, sagas), e, sagas)
  {
    if Touch(e).Some? {
      HandlerOutcome(RowAt(s.rows, Touch(e).value), e, Touch(e).value, sagas);
    }
    hide Handle;
    hide IsHandled;
  }

  // ── Whose escrow a row is ─────────────────────────────────────────────────────

  /** Event `k` is a creation for `c`, and is not a repetition of an event recorded by then. */
  ghost predicate CreatesAt(s: State, es: seq<Event>, k: nat, c: ContractId, sagas: bool)
    requires k < |es|
  {
    es[k].kind == EscrowCreated && es[k].target == Some(c) && IdOf(es[k]) !in Run(s, es[..k], sagas).log
  }

  /** The parties, the amount and the ids are those of the creation event. */
  ghost predicate NamedBy(row: Row, e: Event, c: ContractId)
  {
    var x := row.escrow;
    x.depositor == e.depositor && x.beneficiary == e.beneficiary && x.amount == e.amount && x.id == e.draw && x.contractId == Some(c)
  }

  lemma ProcessKeepsNames(s: State, e: Event, c: ContractId, origin: Event, sagas: bool)
    requires c in s.rows && NamedBy(s.rows[c], origin, c)
    ensures var s' := Process(s, e, sagas); c in s'.rows && NamedBy(s'.rows[c], origin, c)
  {
  }

  lemma {:induction false} NoRowBeforeCreation(s: State, es: seq<Event>, n: nat, c: ContractId, sagas: bool)
    requires c !in s.rows && n <= |es| && forall j :: 0 <= j < n ==> !CreatesAt(s, es, j, c, sagas)
    ensures c !in Run(s, es[..n], sagas).rows
  {
    if n > 0 {
      NoRowBeforeCreation(s, es, n - 1, c, sagas);
      assert es[..n][..n - 1] == es[..n - 1] && es[..n][n - 1] == es[n - 1];
      assert !CreatesAt(s, es, n - 1, c, sagas);
      ProcessInWords(Run(s, es[..n - 1], sagas), es[n - 1], sagas);
      hide Process;
    }
  }

  lemma {:induction false} FirstCreationUpTo(s: State, es: seq<Event>, k: nat, n: nat, c: ContractId, sagas: bool)
    requires c !in s.rows && k < n <= |es| && CreatesAt(s, es, k, c, sagas)
    requires forall j :: 0 <= j < k ==> !CreatesAt(s, es, j, c, sagas)
    ensures var rows := Run(s, es[..n], sagas).rows; c in rows && NamedBy(rows[c], es[k], c)
  {
    assert es[..n][..n - 1] == es[..n - 1] && es[..n][n - 1] == es[n - 1];
    if n == k + 1 {
      NoRowBeforeCreation(s, es, k, c, sagas);
      ProcessInWords(Run(s, es[..k], sagas), es[k], sagas);
      hide Process;
    } else {
      FirstCreationUpTo(s, es, k, n - 1, c, sagas);
      ProcessKeepsNames(Run(s, es[..n - 1], sagas), es[n - 1], c, es[k], sagas);
      hide Process;
      hide NamedBy;
    }
  }

  /**
   * Whatever events are handled, in whatever order: a contract id without a row gets one exactly if a creation
   * event for it is handled, and then its parties, its amount and its ids are the first such event's for good.
   */
  lemma RowIsFirstCreations(s: State, es: seq<Event>, c: ContractId, sagas: bool)
    requires c !in s.rows
    ensures var rows := Run(s, es, sagas).rows;
      && (c in rows <==> exists k :: 0 <= k < |es| && CreatesAt(s, es, k, c, sagas))
      && forall k :: 0 <= k < |es| && CreatesAt(s, es, k, c, sagas) && (forall j :: 0 <= j < k ==> !CreatesAt(s, es, j, c, sagas)) ==>
           c in rows && NamedBy(rows[c], es[k], c)
  {
    assert es[..|es|] == es;
    hide Run;
    hide NamedBy;
    forall k | 0 <= k < |es| && CreatesAt(s, es, k, c, sagas) && (forall j :: 0 <= j < k ==> !CreatesAt(s, es, j, c, sagas))
      ensures c in Run(s, es, sagas).rows && NamedBy(Run(s, es, sagas).rows[c], es[k], c)
    {
      FirstCreationUpTo(s, es, k, |es|, c, sagas);
    }
    if exists k :: 0 <= k < |es| && CreatesAt(s, es, k, c, sagas) {
      var k := FirstCreation(s, es, c, sagas);
    } else {
      NoRowBeforeCreation(s, es, |es|, c, sagas);
    }
  }

  lemma FirstCreation(s: State, es: seq<Event>, c: ContractId, sagas: bool) returns (k: nat)
    requires exists k :: 0 <= k < |es| && CreatesAt(s, es, k, c, sagas)
    ensures k < |es| && CreatesAt(s, es, k, c, sagas) && forall j :: 0 <= j < k ==> !CreatesAt(s, es, j, c, sagas)
  {
    hide CreatesAt;
    k := 0;
    while !CreatesAt(s, es, k, c, sagas)
      invariant k < |es| && (forall j :: 0 <= j < k ==> !CreatesAt(s, es, j, c, sagas))
      invariant exists i :: k <= i < |es| && CreatesAt(s, es, i, c, sagas)
      decreases |es| - k
    {
      k := k + 1;
    }
  }

  // ── Locality ──────────────────────────────────────────────────────────────────

  function LogAt(s: State, id: EventId): Option<bool>
  {
    if id in s.log then Some(s.log[id]) else None
  }

  /** The two states look the same to `e`'s handler and to its dedup check. */
  ghost predicate SameAt(s: State, s': State, e: Event)
  {
    && LogAt(s, IdOf(e)) == LogAt(s', IdOf(e))
    && (Touch(e).Some? ==> RowAt(s.rows, Touch(e).value) == RowAt(s'.rows, Touch(e).value))
  }

  ghost predicate SameView(s: State, s': State, es: seq<Event>)
  {
    forall i :: 0 <= i < |es| ==> SameAt(s, s', es[i])
  }

  /** Neither event's record or row is the other's. */
  ghost predicate Apart(e: Event, f: Event)
  {
    IdOf(e) != IdOf(f) && (Touch(e).Some? && Touch(f).Some? ==> Touch(e) != Touch(f))
  }

  lemma ProcessLeavesOthers(s: State, e: Event, f: Event, sagas: bool)
    requires Apart(e, f)
    ensures SameAt(Process(s, e, sagas), s, f)
  {
    hide Handle;
  }

  /** What handling does within a view depends on that view alone. */
  lemma ProcessIsLocal(s: State, s': State, e: Event, f: Event, sagas: bool)
    requires SameAt(s, s', e) && SameAt(s, s', f)
    ensures SameAt(Process(s, e, sagas), Process(s', e, sagas), f)
  {
    hide Handle;
  }

  lemma {:induction false} RunLeavesOthers(s: State, es: seq<Event>, f: Event, sagas: bool)
    requires forall i :: 0 <= i < |es| ==> Apart(es[i], f)
    ensures SameAt(Run(s, es, sagas), s, f)
  {
    if es != [] {
      var n := |es| - 1;
      RunLeavesOthers(s, es[..n], f, sagas);
      ProcessLeavesOthers(Run(s, es[..n], sagas), es[n], f, sagas);
    }
  }

  lemma {:induction false} RunIsLocal(s: State, s': State, es: seq<Event>, n: nat, sagas: bool)
    requires n <= |es| && SameView(s, s', es)
    ensures SameView(Run(s, es[..n], sagas), Run(s', es[..n], sagas), es)
  {
    if n > 0 {
      RunIsLocal(s, s', es, n - 1, sagas);
      assert es[..n][..n - 1] == es[..n - 1];
      forall i | 0 <= i < |es|
        ensures SameAt(Run(s, es[..n], sagas), Run(s', es[..n], sagas), es[i])
      {
        ProcessIsLocal(Run(s, es[..n - 1], sagas), Run(s', es[..n - 1], sagas), es[n - 1], es[i], sagas);
      }
    }
  }

  // ── The dedup log ─────────────────────────────────────────────────────────────

  ghost predicate Recorded(s: State, es: seq<Event>)
  {
    forall i :: 0 <= i < |es| ==> IdOf(es[i]) in s.log
  }

  lemma {:induction false} RunRecords(s: State, es: seq<Event>, sagas: bool)
    ensures Recorded(Run(s, es, sagas), es)
    ensures forall id :: id in s.log ==> id in Run(s, es, sagas).log && Run(s, es, sagas).log[id] == s.log[id]
  {
    if es != [] {
      var n := |es| - 1;
      RunRecords(s, es[..n], sagas);
      forall i | 0 <= i < |es| ensures IdOf(es[i]) in Run(s, es, sagas).log {
        if i < n { assert es[..n][i] == es[i]; }
      }
    }
  }

  /** Handling recorded events again changes nothing: no row, and no outcome in the log. */
  lemma {:induction false} ReplayIsNoOp(s: State, es: seq<Event>, sagas: bool)
    requires Recorded(s, es)
    ensures Run(s, es, sagas) == s
  {
    if es != [] { ReplayIsNoOp(s, es[..|es| - 1], sagas); }
  }

  // ── Retrying failures ─────────────────────────────────────────────────────────

  /** Forgets a failed record and handles its event again; any other record is left alone. */
  function Retried(s: State, e: Event, sagas: bool): State
  {
    if IdOf(e) in s.log && !s.log[IdOf(e)] then Process(s.(log := s.log - {IdOf(e)}), e, sagas) else s
  }

  function RetriedAll(s: State, es: seq<Event>, sagas: bool): State
  {
    if es == [] then s else Retried(RetriedAll(s, es[..|es| - 1], sagas), es[|es| - 1], sagas)
  }

  /** A retry loses no record and turns no success into a failure; only rows of failed events change. */
  lemma {:induction false} RetryKeepsSuccesses(s: State, es: seq<Event>, sagas: bool)
    ensures RetriedAll(s, es, sagas).log.Keys == s.log.Keys
    ensures forall id :: id in s.log && s.log[id] ==> RetriedAll(s, es, sagas).log[id]
    ensures forall c: ContractId :: RowAt(RetriedAll(s, es, sagas).rows, c) != RowAt(s.rows, c) ==>
      exists i :: 0 <= i < |es| && Touch(es[i]) == Some(c) && IdOf(es[i]) in s.log && !s.log[IdOf(es[i])]
  {
    hide Handle;
    if es != [] {
      var n := |es| - 1;
      RetryKeepsSuccesses(s, es[..n], sagas);
      assert forall i :: 0 <= i < n ==> es[..n][i] == es[i];
    }
  }

  /** Once an event has succeeded, no further retry touches its row on its account. */
  lemma SuccessIsNotRetried(s: State, e: Event, sagas: bool)
    ensures if IdOf(e) in s.log && !s.log[IdOf(e)]
      then IsProcessed(s.(log := s.log - {IdOf(e)}), Retried(s, e, sagas), e, sagas)
      else Retried(s, e, sagas) == s
    ensures var once := Retried(s, e, sagas);
      IdOf(e) in once.log && once.log[IdOf(e)] ==> Retried(once, e, sagas) == once
  {
    ProcessInWords(s.(log := s.log - {IdOf(e)}), e, sagas);
    hide IsProcessed;
  }
}
