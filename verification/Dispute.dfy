// The dispute saga over the escrow store, as the interleaving of every await point. Escalation holds
// a lock per escrow, the other operations one per saga. Every escrow write, whoever makes it, is a
// read of the row and a later write of a row computed from what was read, with nothing that compares
// the two; other callers' transitions, crashes and faults may fall between any two steps.
module Dispute {
  import opened Common
  import opened Escrow
  import opened Voting

  type SagaId = nat

  datatype Step = Escalation | JurorAssignment | InVoting | Payout | Completed | Compensating | Failed

  datatype Initiator = Party(address: Address) | ChainUnknown

  /** `prior` is the escrow status this saga found; `paid` says a payout reference is recorded. */
  datatype Saga = Saga(
    sagaId: SagaId,
    escrowId: EscrowId,
    initiator: Initiator,
    prior: Status,
    step: Step,
    jurors: seq<Address>,
    votes: seq<Vote>,
    verdict: Option<Verdict>,
    paid: bool)

  predicate Ended(s: Saga) { s.step == Completed || s.step == Failed }

  /** Where an escalation that holds its escrow's lock has got to; `seen` is the row it last read. */
  datatype Escalating =
    | Guarded
    | Checked(seen: Escrow)
    | Opened(saga: SagaId)
    | Freezing(saga: SagaId, at: int, seen: Escrow)
    | Frozen(saga: SagaId, own: Option<Escrow>)
    | Undoing(saga: SagaId, own: Option<Escrow>)
    | Lifting(saga: SagaId)
    | Restoring(saga: SagaId, seen: Escrow)
    | Undone(saga: SagaId)

  /** Where a payout that holds its saga's lock has got to. */
  datatype Paying = Started | Settling(op: Op, seen: Escrow) | Applied | Refused | Reverting(seen: Escrow) | Reverted

  type Caller = nat

  /** A caller outside the saga that has read a row, passed its guard and not written back yet. */
  datatype Intent = Intent(op: Op, seen: Escrow)

  datatype World = World(
    rows: Rows,
    sagas: map<SagaId, Saga>,
    index: map<EscrowId, SagaId>,
    escalating: map<EscrowId, Escalating>,
    paying: map<SagaId, Paying>,
    intents: map<Caller, Intent>)

  /** The escrow's indexed saga, when it is still active. */
  predicate HasActive(w: World, e: EscrowId)
  {
    e in w.index && w.index[e] in w.sagas && !Ended(w.sagas[w.index[e]])
  }

  predicate Disputable(s: Status) { s == Active || s == Disputed }

  predicate MayEscalate(row: Escrow, who: Initiator)
  {
    && Disputable(row.status)
    && (who.ChainUnknown? || who.address == row.depositor || who.address == row.beneficiary)
  }

  function PayoutOp(v: Verdict, percentage: int): Op
  {
    match v
    case BeneficiaryWins => Release
    case DepositorWins => Cancel
    case SplitFunds => Op.Split(percentage)
  }

  function PaidStatus(v: Verdict): Status
  {
    if v == DepositorWins then Cancelled else Released
  }

  // ── Effects on one saga ───────────────────────────────────────────────────────

  function NewSaga(id: SagaId, seen: Escrow, who: Initiator): Saga
  {
    Saga(id, seen.id, who, seen.status, Escalation, [], [], None, false)
  }

  ghost function WithJurors(s: Saga, jurors: seq<Address>): Saga
  {
    s.(jurors := Unique(jurors), step := InVoting)
  }

  ghost function WithVote(s: Saga, v: Vote): Saga
  {
    var votes := s.votes + [v];
    if |votes| == |s.jurors| && s.verdict.None?
    then s.(votes := votes, verdict := Some(VerdictOf(votes)), step := Payout)
    else s.(votes := votes)
  }

  /** The row still carries the very dispute this saga raised. */
  predicate StillOwn(rows: Rows, e: EscrowId, own: Option<Escrow>)
  {
    own.Some? && e in rows && rows[e].status == Disputed && rows[e].disputedAt == own.value.disputedAt
  }

  // ── Interleaved actions ───────────────────────────────────────────────────────

  datatype Act =
    | NewEscrow(row: Escrow)
    | ReadOp(caller: Caller, e: EscrowId, op: Op)
    | WriteOp(caller: Caller)
    | Lock(e: EscrowId)
    | Check(e: EscrowId, who: Initiator)
    | Open(e: EscrowId, saga: SagaId, who: Initiator)
    | FreezeRead(e: EscrowId, at: int, fault: bool)
    | FreezeWrite(e: EscrowId, fault: bool)
    | Commit(e: EscrowId, fault: bool)
    | UndoCheck(e: EscrowId, fault: bool)
    | UndoRead(e: EscrowId, fault: bool)
    | UndoWrite(e: EscrowId, fault: bool)
    | Abandon(e: EscrowId)
    | AssignJurors(saga: SagaId, jurors: seq<Address>, fault: bool)
    | CastVote(saga: SagaId, vote: Vote)
    | StartPayout(saga: SagaId)
    | PayRead(saga: SagaId, percentage: int, fault: bool)
    | PayWrite(saga: SagaId, fault: bool)
    | FinishPayout(saga: SagaId)
    | RevertRead(saga: SagaId, fault: bool)
    | RevertWrite(saga: SagaId, fault: bool)
    | FailPayout(saga: SagaId)
    | Crash

  ghost predicate Idle(w: World, id: SagaId, step: Step)
  {
    id in w.sagas && id !in w.paying && w.sagas[id].step == step
  }

  ghost predicate MayAssign(rows: Rows, s: Saga, jurors: seq<Address>)
  {
    && |Unique(jurors)| >= 3 && |Unique(jurors)| % 2 == 1
    && (s.escrowId in rows ==>
          rows[s.escrowId].depositor !in Unique(jurors) && rows[s.escrowId].beneficiary !in Unique(jurors))
  }

  ghost predicate MayVote(s: Saga, juror: Address)
  {
    juror in s.jurors && juror !in Voters(s.votes)
  }

  ghost predicate MayPay(s: Saga) { s.verdict.Some? && !s.paid }

  /** The escalation of `e` is at a phase of a saga that is recorded. */
  ghost predicate Escalates(w: World, e: EscrowId)
  {
    e in w.escalating && !w.escalating[e].Guarded? && !w.escalating[e].Checked? && w.escalating[e].saga in w.sagas
  }

  ghost predicate Pays(w: World, id: SagaId)
  {
    id in w.paying && id in w.sagas && w.sagas[id].verdict.Some?
  }

  ghost predicate Enabled(w: World, a: Act)
  {
    match a
    case NewEscrow(row) => row.id !in w.rows
    case ReadOp(c, _, _) => c !in w.intents
    case WriteOp(c) => c in w.intents
    case Lock(e) => e !in w.escalating && !HasActive(w, e)
    case Check(e, _) => e in w.escalating && w.escalating[e].Guarded?
    case Open(e, saga, _) => e in w.escalating && w.escalating[e].Checked? && saga !in w.sagas
    case FreezeRead(e, _, _) => Escalates(w, e) && w.escalating[e].Opened?
    case FreezeWrite(e, _) => Escalates(w, e) && w.escalating[e].Freezing?
    case Commit(e, _) => Escalates(w, e) && w.escalating[e].Frozen?
    case UndoCheck(e, _) => Escalates(w, e) && w.escalating[e].Undoing?
    case UndoRead(e, _) => Escalates(w, e) && w.escalating[e].Lifting?
    case UndoWrite(e, _) => Escalates(w, e) && w.escalating[e].Restoring?
    case Abandon(e) => Escalates(w, e) && w.escalating[e].Undone?
    case AssignJurors(id, jurors, _) => Idle(w, id, JurorAssignment) && MayAssign(w.rows, w.sagas[id], jurors)
    case CastVote(id, v) => Idle(w, id, InVoting) && MayVote(w.sagas[id], v.juror)
    case StartPayout(id) => Idle(w, id, Payout) && MayPay(w.sagas[id])
    case PayRead(id, _, _) => Pays(w, id) && w.paying[id].Started?
    case PayWrite(id, _) => Pays(w, id) && w.paying[id].Settling?
    case FinishPayout(id) => Pays(w, id) && w.paying[id].Applied?
    case RevertRead(id, _) => Pays(w, id) && w.paying[id].Refused?
    case RevertWrite(id, _) => Pays(w, id) && w.paying[id].Reverting?
    case FailPayout(id) => Pays(w, id) && w.paying[id].Reverted?
    case Crash => true
  }

  ghost function PutSaga(w: World, s: Saga): World
  {
    w.(sagas := w.sagas[s.sagaId := s])
  }

  ghost function AtPhase(w: World, e: EscrowId, phase: Escalating): World
  {
    w.(escalating := w.escalating[e := phase])
  }

  ghost function AtPay(w: World, id: SagaId, phase: Paying): World
  {
    w.(paying := w.paying[id := phase])
  }

  /** The row an operation writes over whatever is there, computed from the row it read. */
  function Computed(op: Op, seen: Escrow): Escrow
  {
    var r := Apply(op, seen);
    if r.Success? then r.value else seen
  }

  ghost function AfterReadOp(w: World, c: Caller, e: EscrowId, op: Op): World
  {
    if TryAt(w.rows, e, op).Success? then w.(intents := w.intents[c := Intent(op, w.rows[e])]) else w
  }

  ghost function AfterWriteOp(w: World, c: Caller): World
    requires c in w.intents
  {
    var i := w.intents[c];
    w.(rows := w.rows[i.seen.id := Computed(i.op, i.seen)], intents := w.intents - {c})
  }

  ghost function AfterCheck(w: World, e: EscrowId, who: Initiator): World
  {
    if e in w.rows && MayEscalate(w.rows[e], who)
    then AtPhase(w, e, Checked(w.rows[e]))
    else w.(escalating := w.escalating - {e})
  }

  ghost function AfterOpen(w: World, e: EscrowId, id: SagaId, seen: Escrow, who: Initiator): World
  {
    AtPhase(w, e, Opened(id)).(sagas := w.sagas[id := NewSaga(id, seen, who)], index := w.index[seen.id := id])
  }

  ghost function AfterFreezeRead(w: World, e: EscrowId, id: SagaId, at: int, fault: bool): World
    requires id in w.sagas
  {
    if w.sagas[id].prior == Disputed then AtPhase(w, e, Frozen(id, None))
    else if fault || TryAt(w.rows, e, RaiseDispute(at)).Failure? then AtPhase(w, e, Undoing(id, None))
    else AtPhase(w, e, Freezing(id, at, w.rows[e]))
  }

  ghost function AfterFreezeWrite(w: World, e: EscrowId, id: SagaId, at: int, seen: Escrow, fault: bool): World
  {
    var row := Computed(RaiseDispute(at), seen);
    if fault then AtPhase(w, e, Undoing(id, None))
    else AtPhase(w, e, Frozen(id, Some(row))).(rows := w.rows[e := row])
  }

  ghost function AfterCommit(w: World, e: EscrowId, id: SagaId, own: Option<Escrow>, fault: bool): World
    requires id in w.sagas
  {
    if fault then AtPhase(w, e, Undoing(id, own))
    else PutSaga(w, w.sagas[id].(step := JurorAssignment)).(escalating := w.escalating - {e})
  }

  ghost function AfterUndoCheck(w: World, e: EscrowId, id: SagaId, own: Option<Escrow>, fault: bool): World
  {
    AtPhase(w, e, if !fault && StillOwn(w.rows, e, own) then Lifting(id) else Undone(id))
  }

  ghost function AfterUndoRead(w: World, e: EscrowId, id: SagaId, fault: bool): World
  {
    AtPhase(w, e, if !fault && e in w.rows then Restoring(id, w.rows[e]) else Undone(id))
  }

  ghost function AfterUndoWrite(w: World, e: EscrowId, id: SagaId, seen: Escrow, fault: bool): World
    requires id in w.sagas
  {
    if fault then AtPhase(w, e, Undone(id))
    else AtPhase(w, e, Undone(id)).(rows := w.rows[e := CorrectedRow(seen, w.sagas[id].prior, false, true)])
  }

  ghost function AfterAbandon(w: World, e: EscrowId, id: SagaId): World
    requires id in w.sagas
  {
    PutSaga(w, w.sagas[id].(step := Failed)).(escalating := w.escalating - {e})
  }

  ghost function AfterPayRead(w: World, id: SagaId, percentage: int, fault: bool): World
    requires id in w.sagas && w.sagas[id].verdict.Some?
  {
    var s := w.sagas[id];
    var op := PayoutOp(s.verdict.value, percentage);
    if fault || TryAt(w.rows, s.escrowId, op).Failure? then AtPay(w, id, Refused)
    else AtPay(w, id, Settling(op, w.rows[s.escrowId]))
  }

  ghost function AfterPayWrite(w: World, id: SagaId, op: Op, seen: Escrow, fault: bool): World
    requires id in w.sagas
  {
    if fault then AtPay(w, id, Refused)
    else AtPay(w, id, Applied).(rows := w.rows[w.sagas[id].escrowId := Computed(op, seen)])
  }

  ghost function AfterRevertRead(w: World, id: SagaId, fault: bool): World
    requires id in w.sagas
  {
    var e := w.sagas[id].escrowId;
    AtPay(w, id, if !fault && e in w.rows then Reverting(w.rows[e]) else Reverted)
  }

  ghost function AfterRevertWrite(w: World, id: SagaId, seen: Escrow, fault: bool): World
    requires id in w.sagas
  {
    if fault then AtPay(w, id, Reverted)
    else AtPay(w, id, Reverted).(rows := w.rows[w.sagas[id].escrowId := CorrectedRow(seen, Disputed, true, false)])
  }

  /** The payout ends, and its saga with it. */
  ghost function AfterPayout(w: World, id: SagaId, step: Step): World
    requires id in w.sagas
  {
    PutSaga(w, w.sagas[id].(step := step, paid := w.sagas[id].paid || step == Completed)).(paying := w.paying - {id})
  }

  ghost function After(w: World, a: Act): World
    requires Enabled(w, a)
  {
    match a
    case NewEscrow(row) => w.(rows := w.rows[row.id := row])
    case ReadOp(c, e, op) => AfterReadOp(w, c, e, op)
    case WriteOp(c) => AfterWriteOp(w, c)
    case Lock(e) => AtPhase(w, e, Guarded)
    case Check(e, who) => AfterCheck(w, e, who)
    case Open(e, id, who) => AfterOpen(w, e, id, w.escalating[e].seen, who)
    case FreezeRead(e, at, fault) => AfterFreezeRead(w, e, w.escalating[e].saga, at, fault)
    case FreezeWrite(e, fault) =>
      AfterFreezeWrite(w, e, w.escalating[e].saga, w.escalating[e].at, w.escalating[e].seen, fault)
    case Commit(e, fault) => AfterCommit(w, e, w.escalating[e].saga, w.escalating[e].own, fault)
    case UndoCheck(e, fault) => AfterUndoCheck(w, e, w.escalating[e].saga, w.escalating[e].own, fault)
    case UndoRead(e, fault) => AfterUndoRead(w, e, w.escalating[e].saga, fault)
    case UndoWrite(e, fault) => AfterUndoWrite(w, e, w.escalating[e].saga, w.escalating[e].seen, fault)
    case Abandon(e) => AfterAbandon(w, e, w.escalating[e].saga)
    case AssignJurors(id, jurors, fault) => PutSaga(w, AssignedSaga(w.sagas[id], jurors, fault))
    case CastVote(id, v) => PutSaga(w, WithVote(w.sagas[id], v))
    case StartPayout(id) => AtPay(w, id, Started)
    case PayRead(id, percentage, fault) => AfterPayRead(w, id, percentage, fault)
    case PayWrite(id, fault) => AfterPayWrite(w, id, w.paying[id].op, w.paying[id].seen, fault)
    case FinishPayout(id) => AfterPayout(w, id, Completed)
    case RevertRead(id, fault) => AfterRevertRead(w, id, fault)
    case RevertWrite(id, fault) => AfterRevertWrite(w, id, w.paying[id].seen, fault)
    case FailPayout(id) => AfterPayout(w, id, Failed)
    case Crash => w.(escalating := map[], paying := map[], intents := map[])
  }

  ghost function AssignedSaga(s: Saga, jurors: seq<Address>, fault: bool): Saga
  {
    if fault then s.(jurors := [], step := Failed) else WithJurors(s, jurors)
  }

  // ── Invariant ─────────────────────────────────────────────────────────────────

  /** Records are filed under their own ids, every saga's escrow exists, and the index names sagas
      of the escrow it is asked for. */
  ghost predicate Filed(w: World)
  {
    && (forall e :: e in w.rows ==> w.rows[e].id == e)
    && (forall id :: id in w.sagas ==>
          w.sagas[id].sagaId == id && w.sagas[id].escrowId in w.rows && Disputable(w.sagas[id].prior))
    && (forall e :: e in w.index ==> w.index[e] in w.sagas && w.sagas[w.index[e]].escrowId == e)
  }

  /** An active saga is the one its escrow's index entry names: there is at most one per escrow. */
  ghost predicate OneActive(w: World)
  {
    forall id :: id in w.sagas && !Ended(w.sagas[id]) ==>
      w.sagas[id].escrowId in w.index && w.index[w.sagas[id].escrowId] == id
  }

  /** What was read of row `e`, however long ago, is about that escrow and its parties. */
  ghost predicate ReadOf(rows: Rows, e: EscrowId, seen: Escrow)
  {
    e in rows && seen.id == e && seen.depositor == rows[e].depositor && seen.beneficiary == rows[e].beneficiary
  }

  /** What an escalation's lock protects. */
  ghost predicate Locked(w: World)
  {
    forall e :: e in w.escalating ==> LockHolds(w, e, w.escalating[e])
  }

  ghost predicate LockHolds(w: World, e: EscrowId, phase: Escalating)
  {
    match phase
    case Guarded => !HasActive(w, e)
    case Checked(seen) => !HasActive(w, e) && ReadOf(w.rows, e, seen) && Disputable(seen.status)
    case Opened(id) => OpenedFor(w, id, e)
    case Freezing(id, at, seen) => OpenedFor(w, id, e) && ReadOf(w.rows, e, seen) && Apply(RaiseDispute(at), seen).Success?
    case Frozen(id, _) => OpenedFor(w, id, e)
    case Undoing(id, _) => OpenedFor(w, id, e)
    case Lifting(id) => OpenedFor(w, id, e)
    case Restoring(id, seen) => OpenedFor(w, id, e) && ReadOf(w.rows, e, seen)
    case Undone(id) => OpenedFor(w, id, e)
  }

  ghost predicate OpenedFor(w: World, id: SagaId, e: EscrowId)
  {
    id in w.sagas && w.sagas[id].escrowId == e && w.sagas[id].step == Escalation
  }

  ghost predicate PayingOk(w: World)
  {
    forall id :: id in w.paying ==>
      id in w.sagas && w.sagas[id].step == Payout && w.sagas[id].verdict.Some? && PayHolds(w.rows, w.sagas[id], w.paying[id])
  }

  ghost predicate PayHolds(rows: Rows, s: Saga, phase: Paying)
  {
    match phase
    case Settling(op, seen) =>
      ReadOf(rows, s.escrowId, seen) && s.verdict.Some?
      && Apply(op, seen).Success? && Computed(op, seen).status == PaidStatus(s.verdict.value)
    case Reverting(seen) => ReadOf(rows, s.escrowId, seen)
    case _ => true
  }

  ghost predicate IntentsOk(w: World)
  {
    forall c :: c in w.intents ==>
      ReadOf(w.rows, w.intents[c].seen.id, w.intents[c].seen) && Apply(w.intents[c].op, w.intents[c].seen).Success?
  }

  /** Jurors, votes and verdict at each step. */
  ghost predicate VotingOk(w: World)
  {
    forall id :: id in w.sagas ==> SagaVotes(w.rows, w.sagas[id])
  }

  ghost predicate SagaVotes(rows: Rows, s: Saga)
  {
    && (s.step in {Escalation, JurorAssignment} ==> s.votes == [] && s.verdict.None?)
    && (s.step in {InVoting, Payout, Completed} ==>
          && s.escrowId in rows
          && ValidPanel(s.jurors, rows[s.escrowId].depositor, rows[s.escrowId].beneficiary)
          && ValidVotes(s.votes, s.jurors))
    && (s.step == InVoting ==> |s.votes| < |s.jurors| && s.verdict.None?)
    && (s.step in {Payout, Completed} ==> |s.votes| == |s.jurors| && s.verdict == Some(VerdictOf(s.votes)))
    && (s.step != Completed ==> !s.paid)
    && s.step != Compensating
  }

  ghost predicate Protocol(w: World)
  {
    Filed(w) && OneActive(w) && Locked(w) && PayingOk(w) && IntentsOk(w)
  }

  ghost predicate Inv(w: World) { Protocol(w) && VotingOk(w) }

  // ── What each action keeps of the protocol ────────────────────────────────────

  ghost predicate SameParties(rows: Rows, rows': Rows)
  {
    forall e :: e in rows ==>
      e in rows' && rows'[e].depositor == rows[e].depositor && rows'[e].beneficiary == rows[e].beneficiary
  }

  /** Writes that keep every row under its own id and every escrow's parties. */
  ghost predicate KeepsIdentity(rows: Rows, rows': Rows)
  {
    SameParties(rows, rows') && forall e :: e in rows' ==> rows'[e].id == e
  }

  lemma RowsKeepProtocol(w: World, rows': Rows)
    requires Protocol(w) && KeepsIdentity(w.rows, rows')
    ensures Protocol(w.(rows := rows'))
  {
    hide Apply;
    hide Computed;
  }

  /** A row computed from anything ever read of its escrow keeps its identity. */
  lemma WriteKeepsIdentity(rows: Rows, e: EscrowId, seen: Escrow, op: Op, status: Status, review: bool, clear: bool)
    requires (forall x :: x in rows ==> rows[x].id == x) && ReadOf(rows, e, seen)
    ensures KeepsIdentity(rows, rows[e := Computed(op, seen)])
    ensures KeepsIdentity(rows, rows[e := CorrectedRow(seen, status, review, clear)])
  {
  }

  lemma PhaseKeepsProtocol(w: World, e: EscrowId, phase: Escalating)
    requires Protocol(w) && LockHolds(w, e, phase)
    ensures Protocol(AtPhase(w, e, phase))
  {
    hide ReadOf;
    hide Apply;
    hide Computed;
    forall x | x in AtPhase(w, e, phase).escalating ensures LockHolds(AtPhase(w, e, phase), x, AtPhase(w, e, phase).escalating[x]) {
      assert x != e ==> LockHolds(w, x, w.escalating[x]);
    }
  }

  lemma PayPhaseKeepsProtocol(w: World, id: SagaId, phase: Paying)
    requires Protocol(w) && id in w.sagas && w.sagas[id].step == Payout && w.sagas[id].verdict.Some?
    requires PayHolds(w.rows, w.sagas[id], phase)
    ensures Protocol(AtPay(w, id, phase))
  {
    hide ReadOf;
    hide Apply;
    hide Computed;
    PayingIsNotLocked(w, AtPay(w, id, phase));
    hide LockHolds;
    hide PayHolds;
  }

  lemma PayingIsNotLocked(w: World, w': World)
    requires w'.rows == w.rows && w'.sagas == w.sagas && w'.index == w.index
    ensures forall x, p :: LockHolds(w, x, p) ==> LockHolds(w', x, p)
  {
  }

  lemma ReadOpKeepsProtocol(w: World, c: Caller, e: EscrowId, op: Op)
    requires Protocol(w) && c !in w.intents
    ensures Protocol(AfterReadOp(w, c, e, op))
  {
    hide Computed;
    var w' := AfterReadOp(w, c, e, op);
    PayingIsNotLocked(w, w');
    hide LockHolds;
    hide PayHolds;
  }

  lemma WriteOpKeepsProtocol(w: World, c: Caller)
    requires Protocol(w) && c in w.intents
    ensures Protocol(AfterWriteOp(w, c))
  {
    var i := w.intents[c];
    WriteKeepsIdentity(w.rows, i.seen.id, i.seen, i.op, Active, false, false);
    RowsKeepProtocol(w, w.rows[i.seen.id := Computed(i.op, i.seen)]);
    DropIntent(w.(rows := w.rows[i.seen.id := Computed(i.op, i.seen)]), c);
  }

  lemma DropIntent(w: World, c: Caller)
    requires Protocol(w)
    ensures Protocol(w.(intents := w.intents - {c}))
  {
    hide ReadOf;
    hide Apply;
    hide Computed;
    PayingIsNotLocked(w, w.(intents := w.intents - {c}));
    hide LockHolds;
    hide PayHolds;
  }
}
