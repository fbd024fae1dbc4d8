// What every single step of the dispute protocol keeps, whatever is in flight.
module DisputeSteps {
  import opened Common
  import opened Escrow
  import opened Voting
  import opened Dispute
  import opened DisputeFrames

  // ── What the invariant says of one lock ───────────────────────────────────────

  ghost predicate OwnIds(rows: Rows) { forall x :: x in rows ==> rows[x].id == x }

  lemma LockSays(w: World, e: EscrowId)
    requires Protocol(w) && e in w.escalating
    ensures LockHolds(w, e, w.escalating[e]) && OwnIds(w.rows)
    ensures Escalates(w, e) ==> OpenedFor(w, w.escalating[e].saga, e) && e in w.rows && Disputable(w.sagas[w.escalating[e].saga].prior)
  {
    hide OneActive;
    hide PayingOk;
    hide IntentsOk;
    hide ReadOf;
    hide Apply;
  }

  lemma PaySays(w: World, id: SagaId)
    requires Protocol(w) && id in w.paying
    ensures id in w.sagas && w.sagas[id].step == Payout && w.sagas[id].verdict.Some? && w.sagas[id].sagaId == id
    ensures w.sagas[id].escrowId in w.rows && PayHolds(w.rows, w.sagas[id], w.paying[id]) && OwnIds(w.rows)
  {
    hide OneActive;
    hide Locked;
    hide IntentsOk;
    hide PayHolds;
  }

  // ── Steps of an escalation ────────────────────────────────────────────────────

  lemma UnlockKeepsProtocol(w: World, e: EscrowId)
    requires Protocol(w)
    ensures Protocol(w.(escalating := w.escalating - {e}))
  {
    PayingIsNotLocked(w, w.(escalating := w.escalating - {e}));
    hide LockHolds;
    hide PayHolds;
    hide ReadOf;
    hide Apply;
  }

  /** Opening a saga: the lock guarantees that no other one of the escrow is active. */
  lemma OpenKeepsProtocol(w: World, e: EscrowId, id: SagaId, who: Initiator)
    requires Protocol(w) && e in w.escalating && w.escalating[e].Checked? && id !in w.sagas
    ensures Protocol(AfterOpen(w, e, id, w.escalating[e].seen, who))
  {
    assert LockHolds(w, e, w.escalating[e]);
    var w' := AfterOpen(w, e, id, w.escalating[e].seen, who);
    hide Apply;
    hide Computed;
    forall x | x in w'.escalating ensures LockHolds(w', x, w'.escalating[x]) {
      if x != e {
        assert LockHolds(w, x, w.escalating[x]);
        OpeningElsewhere(w, e, id, who, x);
      }
    }
    OpenKeepsRest(w, e, id, who);
    hide LockHolds;
  }

  lemma OpeningElsewhere(w: World, e: EscrowId, id: SagaId, who: Initiator, x: EscrowId)
    requires Filed(w) && e in w.escalating && w.escalating[e].Checked? && w.escalating[e].seen.id == e && id !in w.sagas && x != e
    requires x in w.escalating && LockHolds(w, x, w.escalating[x])
    ensures LockHolds(AfterOpen(w, e, id, w.escalating[e].seen, who), x, w.escalating[x])
  {
    hide Apply;
    hide ReadOf;
  }

  /** The rest is untouched, and the lock says that no other saga of the escrow is active. */
  lemma OpenKeepsRest(w: World, e: EscrowId, id: SagaId, who: Initiator)
    requires Protocol(w) && e in w.escalating && w.escalating[e].Checked? && id !in w.sagas
    ensures var w' := AfterOpen(w, e, id, w.escalating[e].seen, who);
      Filed(w') && OneActive(w') && PayingOk(w') && IntentsOk(w')
  {
    assert w.escalating[e].seen.id == e && !HasActive(w, e) && e in w.rows && Disputable(w.escalating[e].seen.status) by {
      LockSays(w, e);
    }
    hide Locked;
    OpenKeepsFiled(w, e, id, who);
    OpenKeepsLocksOfOthers(w, e, id, who);
    hide Filed;
    hide OneActive;
    hide PayingOk;
    hide IntentsOk;
  }

  lemma OpenKeepsFiled(w: World, e: EscrowId, id: SagaId, who: Initiator)
    requires Filed(w) && OneActive(w) && e in w.escalating && w.escalating[e].Checked? && id !in w.sagas
    requires w.escalating[e].seen.id == e && !HasActive(w, e) && e in w.rows && Disputable(w.escalating[e].seen.status)
    ensures var w' := AfterOpen(w, e, id, w.escalating[e].seen, who); Filed(w') && OneActive(w')
  {
  }

  lemma OpenKeepsLocksOfOthers(w: World, e: EscrowId, id: SagaId, who: Initiator)
    requires PayingOk(w) && IntentsOk(w) && e in w.escalating && w.escalating[e].Checked? && id !in w.sagas
    ensures var w' := AfterOpen(w, e, id, w.escalating[e].seen, who); PayingOk(w') && IntentsOk(w')
  {
    hide Apply;
    hide ReadOf;
    hide PayHolds;
  }

  lemma FreezeReadKeepsProtocol(w: World, e: EscrowId, at: int, fault: bool)
    requires Protocol(w) && Enabled(w, FreezeRead(e, at, fault))
    ensures Protocol(After(w, FreezeRead(e, at, fault)))
  {
    hide Enabled;
    hide After;
    hide Protocol;
    FreezeReadIs(w, e, at, fault);
    LockSays(w, e);
    var w' := AfterFreezeRead(w, e, w.escalating[e].saga, at, fault);
    PhaseKeepsProtocol(w, e, w'.escalating[e]);
  }

  lemma FreezeWriteKeepsProtocol(w: World, e: EscrowId, fault: bool)
    requires Protocol(w) && Enabled(w, FreezeWrite(e, fault))
    ensures Protocol(After(w, FreezeWrite(e, fault)))
  {
    hide Enabled;
    hide After;
    hide Protocol;
    FreezeWriteIs(w, e, fault);
    LockSays(w, e);
    var p := w.escalating[e];
    WriteKeepsIdentity(w.rows, e, p.seen, RaiseDispute(p.at), Active, false, false);
    hide Apply;
    hide Computed;
    var phase := if fault then Undoing(p.saga, None) else Frozen(p.saga, Some(Computed(RaiseDispute(p.at), p.seen)));
    PhaseKeepsProtocol(w, e, phase);
    if !fault { RowsKeepProtocol(AtPhase(w, e, phase), w.rows[e := Computed(RaiseDispute(p.at), p.seen)]); }
  }

  lemma UndoWriteKeepsProtocol(w: World, e: EscrowId, fault: bool)
    requires Protocol(w) && Enabled(w, UndoWrite(e, fault))
    ensures Protocol(After(w, UndoWrite(e, fault)))
  {
    hide Enabled;
    hide After;
    hide Protocol;
    UndoWriteIs(w, e, fault);
    LockSays(w, e);
    var p := w.escalating[e];
    var row := CorrectedRow(p.seen, w.sagas[p.saga].prior, false, true);
    WriteKeepsIdentity(w.rows, e, p.seen, Fund, w.sagas[p.saga].prior, false, true);
    hide CorrectedRow;
    PhaseKeepsProtocol(w, e, Undone(p.saga));
    if !fault { RowsKeepProtocol(AtPhase(w, e, Undone(p.saga)), w.rows[e := row]); }
  }

  lemma UndoCheckKeepsProtocol(w: World, e: EscrowId, fault: bool)
    requires Protocol(w) && Enabled(w, UndoCheck(e, fault))
    ensures Protocol(After(w, UndoCheck(e, fault)))
  {
    hide Apply;
    hide StillOwn;
    assert LockHolds(w, e, w.escalating[e]);
    var w' := After(w, UndoCheck(e, fault));
    PhaseKeepsProtocol(w, e, w'.escalating[e]);
  }

  lemma UndoReadKeepsProtocol(w: World, e: EscrowId, fault: bool)
    requires Protocol(w) && Enabled(w, UndoRead(e, fault))
    ensures Protocol(After(w, UndoRead(e, fault)))
  {
    hide Apply;
    assert LockHolds(w, e, w.escalating[e]);
    var w' := After(w, UndoRead(e, fault));
    PhaseKeepsProtocol(w, e, w'.escalating[e]);
  }

  /** The escalation's saga moves on or fails, and its lock is given up. */
  lemma LeaveKeepsProtocol(w: World, e: EscrowId, step: Step)
    requires Protocol(w) && Escalates(w, e) && step in {JurorAssignment, Failed}
    ensures var id := w.escalating[e].saga;
      Protocol(PutSaga(w, w.sagas[id].(step := step)).(escalating := w.escalating - {e}))
  {
    assert LockHolds(w, e, w.escalating[e]);
    var s := w.sagas[w.escalating[e].saga].(step := step);
    var w' := PutSaga(w, s).(escalating := w.escalating - {e});
    hide Apply;
    hide Computed;
    forall x | x in w'.escalating ensures LockHolds(w', x, w'.escalating[x]) {
      assert LockHolds(w, x, w.escalating[x]);
      MovingElsewhere(w, s, x);
    }
    MoveKeepsRest(w, s);
    hide LockHolds;
  }

  /** A saga's new record leaves the locks of other escrows alone, and those of its own that were taken
      while it was not active. */
  lemma MovingElsewhere(w: World, s: Saga, x: EscrowId)
    requires Filed(w) && s.sagaId in w.sagas && s.escrowId == w.sagas[s.sagaId].escrowId
    requires x in w.escalating && LockHolds(w, x, w.escalating[x])
    requires Ended(w.sagas[s.sagaId]) ==> Ended(s)
    requires w.sagas[s.sagaId].step == Escalation ==> x != s.escrowId
    ensures LockHolds(PutSaga(w, s), x, w.escalating[x])
  {
    hide Apply;
    hide ReadOf;
  }

  lemma MoveKeepsRest(w: World, s: Saga)
    requires Protocol(w) && s.sagaId in w.sagas && s.escrowId == w.sagas[s.sagaId].escrowId
    requires Disputable(s.prior) && !Ended(w.sagas[s.sagaId]) && s.sagaId !in w.paying
    ensures Filed(PutSaga(w, s)) && OneActive(PutSaga(w, s)) && PayingOk(PutSaga(w, s)) && IntentsOk(PutSaga(w, s))
  {
    hide Apply;
    hide Computed;
    hide PayHolds;
    hide ReadOf;
  }

  /** Assigning jurors and voting move an idle, active saga on, or fail it. */
  lemma AdvanceKeepsProtocol(w: World, s: Saga)
    requires Protocol(w) && s.sagaId in w.sagas && s.sagaId !in w.paying
    requires w.sagas[s.sagaId].step in {JurorAssignment, InVoting}
    requires s.escrowId == w.sagas[s.sagaId].escrowId && Disputable(s.prior)
    ensures Protocol(PutSaga(w, s))
  {
    var w' := PutSaga(w, s);
    hide Apply;
    hide Computed;
    forall x | x in w'.escalating ensures LockHolds(w', x, w'.escalating[x]) {
      assert LockHolds(w, x, w.escalating[x]);
      MovingElsewhere(w, s, x);
    }
    MoveKeepsRest(w, s);
    hide LockHolds;
  }

  // ── Steps of a payout ─────────────────────────────────────────────────────────

  lemma PayReadKeepsProtocol(w: World, id: SagaId, percentage: int, fault: bool)
    requires Protocol(w) && Enabled(w, PayRead(id, percentage, fault))
    ensures Protocol(After(w, PayRead(id, percentage, fault)))
  {
    hide Enabled;
    hide After;
    hide Protocol;
    PayReadIs(w, id, percentage, fault);
    PaySays(w, id);
    var w' := AfterPayRead(w, id, percentage, fault);
    PayPhaseKeepsProtocol(w, id, w'.paying[id]);
  }

  lemma PayWriteKeepsProtocol(w: World, id: SagaId, fault: bool)
    requires Protocol(w) && Enabled(w, PayWrite(id, fault))
    ensures Protocol(After(w, PayWrite(id, fault)))
  {
    hide Enabled;
    hide After;
    hide Protocol;
    PayWriteIs(w, id, fault);
    PaySays(w, id);
    var phase, p, e := if fault then Refused else Applied, w.paying[id], w.sagas[id].escrowId;
    PayPhaseKeepsProtocol(w, id, phase);
    if !fault {
      WriteKeepsIdentity(w.rows, e, p.seen, p.op, Active, false, false);
      hide Computed;
      RowsKeepProtocol(AtPay(w, id, phase), w.rows[e := Computed(p.op, p.seen)]);
    }
  }

  lemma RevertReadKeepsProtocol(w: World, id: SagaId, fault: bool)
    requires Protocol(w) && Enabled(w, RevertRead(id, fault))
    ensures Protocol(After(w, RevertRead(id, fault)))
  {
    hide Enabled;
    hide After;
    hide Protocol;
    RevertReadIs(w, id, fault);
    PaySays(w, id);
    var w' := AfterRevertRead(w, id, fault);
    PayPhaseKeepsProtocol(w, id, w'.paying[id]);
  }

  lemma RevertWriteKeepsProtocol(w: World, id: SagaId, fault: bool)
    requires Protocol(w) && Enabled(w, RevertWrite(id, fault))
    ensures Protocol(After(w, RevertWrite(id, fault)))
  {
    hide Enabled;
    hide After;
    hide Protocol;
    RevertWriteIs(w, id, fault);
    PaySays(w, id);
    var seen, e := w.paying[id].seen, w.sagas[id].escrowId;
    PayPhaseKeepsProtocol(w, id, Reverted);
    if !fault {
      WriteKeepsIdentity(w.rows, e, seen, Fund, Disputed, true, false);
      hide CorrectedRow;
      RowsKeepProtocol(AtPay(w, id, Reverted), w.rows[e := CorrectedRow(seen, Disputed, true, false)]);
    }
  }

  lemma PayoutEndKeepsProtocol(w: World, id: SagaId, step: Step)
    requires Protocol(w) && id in w.paying && step in {Completed, Failed}
    ensures Protocol(AfterPayout(w, id, step))
  {
    var idle := w.(paying := w.paying - {id});
    DropPaying(w, id);
    var s := w.sagas[id].(step := step, paid := w.sagas[id].paid || step == Completed);
    var w' := PutSaga(idle, s);
    hide Apply;
    hide Computed;
    forall x | x in w'.escalating ensures LockHolds(w', x, w'.escalating[x]) {
      assert LockHolds(idle, x, idle.escalating[x]);
      MovingElsewhere(idle, s, x);
    }
    MoveKeepsRest(idle, s);
    hide LockHolds;
  }

  lemma DropPaying(w: World, id: SagaId)
    requires Protocol(w)
    ensures Protocol(w.(paying := w.paying - {id}))
  {
    PayingIsNotLocked(w, w.(paying := w.paying - {id}));
    hide LockHolds;
    hide PayHolds;
    hide ReadOf;
    hide Apply;
  }

  lemma CrashKeepsProtocol(w: World)
    requires Protocol(w)
    ensures Protocol(After(w, Crash))
  {
  }

  lemma NewEscrowKeepsProtocol(w: World, row: Escrow)
    requires Protocol(w) && row.id !in w.rows
    ensures Protocol(w.(rows := w.rows[row.id := row]))
  {
    hide LockHolds;
    hide PayingOk;
    hide IntentsOk;
    RowsKeepProtocol(w, w.rows[row.id := row]);
  }

  lemma EscalationKeepsProtocol(w: World, a: Act)
    requires Protocol(w) && Enabled(w, a) && OfEscalation(a)
    ensures Protocol(After(w, a))
  {
    hide Enabled;
    hide After;
    hide Protocol;
    hide Apply;
    hide StillOwn;
    hide MayEscalate;
    match a
    case Lock(e) => LockKeepsProtocol(w, e);
    case Check(e, who) =>
      CheckKeepsProtocol(w, e, who);
    case Open(e, id, who) => OpenIs(w, e, id, who); OpenKeepsProtocol(w, e, id, who);
    case FreezeRead(e, at, fault) => FreezeReadKeepsProtocol(w, e, at, fault);
    case FreezeWrite(e, fault) => FreezeWriteKeepsProtocol(w, e, fault);
    case Commit(e, fault) =>
      CommitKeepsProtocol(w, e, fault);
    case UndoCheck(e, fault) => UndoCheckKeepsProtocol(w, e, fault);
    case UndoRead(e, fault) => UndoReadKeepsProtocol(w, e, fault);
    case UndoWrite(e, fault) => UndoWriteKeepsProtocol(w, e, fault);
    case Abandon(e) => AbandonKeepsProtocol(w, e);
    case _ =>
  }

  lemma LockKeepsProtocol(w: World, e: EscrowId)
    requires Protocol(w) && Enabled(w, Lock(e))
    ensures Protocol(After(w, Lock(e)))
  {
    PhaseKeepsProtocol(w, e, Guarded);
  }

  lemma AbandonKeepsProtocol(w: World, e: EscrowId)
    requires Protocol(w) && Enabled(w, Abandon(e))
    ensures Protocol(After(w, Abandon(e)))
  {
    assert LockHolds(w, e, w.escalating[e]);
    LeaveKeepsProtocol(w, e, Failed);
  }

  lemma CheckKeepsProtocol(w: World, e: EscrowId, who: Initiator)
    requires Protocol(w) && Enabled(w, Check(e, who))
    ensures Protocol(After(w, Check(e, who)))
  {
    assert LockHolds(w, e, w.escalating[e]);
    var w' := After(w, Check(e, who));
    if e in w'.escalating {
      PhaseKeepsProtocol(w, e, w'.escalating[e]);
    } else {
      UnlockKeepsProtocol(w, e);
    }
  }

  lemma CommitKeepsProtocol(w: World, e: EscrowId, fault: bool)
    requires Protocol(w) && Enabled(w, Commit(e, fault))
    ensures Protocol(After(w, Commit(e, fault)))
  {
    assert LockHolds(w, e, w.escalating[e]);
    var p := w.escalating[e];
    if fault {
      PhaseKeepsProtocol(w, e, Undoing(p.saga, p.own));
    } else {
      LeaveKeepsProtocol(w, e, JurorAssignment);
    }
  }

  /** No step, stale or not, faulty or not, breaks the protocol's invariant. */
  lemma StepKeepsProtocol(w: World, a: Act)
    requires Inv(w) && Enabled(w, a)
    ensures Protocol(After(w, a))
  {
    assert Protocol(w);
    hide Inv;
    hide Protocol;
    if OfEscalation(a) {
      EscalationKeepsProtocol(w, a);
    } else if OfPayout(a) {
      PayoutKeepsProtocol(w, a);
    } else {
      hide Apply;
      match a
      case NewEscrow(row) => NewEscrowKeepsProtocol(w, row);
      case ReadOp(c, e, op) => ReadOpKeepsProtocol(w, c, e, op);
      case WriteOp(c) => WriteOpKeepsProtocol(w, c);
      case AssignJurors(id, jurors, fault) => AdvanceStepKeepsProtocol(w, a);
      case CastVote(id, v) => AdvanceStepKeepsProtocol(w, a);
      case Crash => CrashKeepsProtocol(w);
      case _ =>
    }
  }

  lemma PayoutKeepsProtocol(w: World, a: Act)
    requires Protocol(w) && Enabled(w, a) && OfPayout(a)
    ensures Protocol(After(w, a))
  {
    hide Enabled;
    hide After;
    hide Protocol;
    hide Apply;
    match a
    case StartPayout(id) => StartIs(w, id); PayPhaseKeepsProtocol(w, id, Started);
    case PayRead(id, percentage, fault) => PayReadKeepsProtocol(w, id, percentage, fault);
    case PayWrite(id, fault) => PayWriteKeepsProtocol(w, id, fault);
    case FinishPayout(id) => FinishIs(w, id); PayoutEndKeepsProtocol(w, id, Completed);
    case RevertRead(id, fault) => RevertReadKeepsProtocol(w, id, fault);
    case RevertWrite(id, fault) => RevertWriteKeepsProtocol(w, id, fault);
    case FailPayout(id) => FailIs(w, id); PayoutEndKeepsProtocol(w, id, Failed);
    case _ =>
  }

  lemma AdvanceStepKeepsProtocol(w: World, a: Act)
    requires Protocol(w) && Enabled(w, a) && (a.AssignJurors? || a.CastVote?)
    ensures Protocol(After(w, a))
  {
    if a.AssignJurors? {
      AdvanceKeepsProtocol(w, AssignedSaga(w.sagas[a.saga], a.jurors, a.fault));
    } else {
      AdvanceKeepsProtocol(w, WithVote(w.sagas[a.saga], a.vote));
    }
  }

  // ── What each step keeps of the votes ─────────────────────────────────────────

  lemma PutKeepsVotes(w: World, s: Saga)
    requires VotingOk(w) && SagaVotes(w.rows, s)
    ensures VotingOk(PutSaga(w, s))
  {
    hide SagaVotes;
  }

  lemma RowsKeepVotes(w: World, rows': Rows)
    requires VotingOk(w) && SameParties(w.rows, rows')
    ensures forall id :: id in w.sagas ==> SagaVotes(rows', w.sagas[id])
  {
    hide ValidPanel; hide ValidVotes; hide VerdictOf;
  }

  lemma PanelKeepsVotes(w: World, id: SagaId, jurors: seq<Address>)
    requires Filed(w) && VotingOk(w) && Enabled(w, AssignJurors(id, jurors, false))
    ensures SagaVotes(w.rows, WithJurors(w.sagas[id], jurors))
  {
    assert SagaVotes(w.rows, w.sagas[id]);
  }

  lemma VoteKeepsVotes(w: World, id: SagaId, vote: Vote)
    requires VotingOk(w) && Enabled(w, CastVote(id, vote))
    ensures SagaVotes(w.rows, WithVote(w.sagas[id], vote))
  {
    var s := w.sagas[id];
    assert SagaVotes(w.rows, s);
    forall i | 0 <= i < |s.votes| ensures s.votes[i].juror != vote.juror {
      assert Voters(s.votes)[i] == s.votes[i].juror;
    }
    VotesFitPanel(s.votes + [vote], s.jurors);
  }

  /** Valid votes never outnumber their panel. */
  lemma VotesFitPanel(votes: seq<Vote>, panel: seq<Address>)
    requires ValidVotes(votes, panel) && Distinct(panel)
    ensures |votes| <= |panel|
  {
    var voted := set i | 0 <= i < |Voters(votes)| :: Voters(votes)[i];
    var all := set i | 0 <= i < |panel| :: panel[i];
    SizeOfDistinct(Voters(votes));
    SizeOfDistinct(panel);
    forall j | j in voted ensures j in all {
      var i :| 0 <= i < |votes| && votes[i].juror == j;
    }
    assert |all| == |voted| + |all - voted|;
  }

  /** A saga moved to another step with the votes it has. */
  lemma MovedSagaVotes(rows: Rows, s: Saga, step: Step)
    requires SagaVotes(rows, s) && !s.paid
    requires (s.step == Escalation && step == JurorAssignment) || (s.step == Payout && step == Completed) || step == Failed
    ensures SagaVotes(rows, s.(step := step))
    ensures step == Completed ==> SagaVotes(rows, s.(step := step, paid := true))
    ensures step == Failed ==> SagaVotes(rows, s.(step := step, jurors := []))
  {
    hide ValidPanel; hide ValidVotes; hide VerdictOf;
  }

  /** The other actions rewrite at most escrow rows, and never an escrow's parties. */
  lemma PartiesAreKept(w: World, a: Act)
    requires Protocol(w) && Enabled(w, a) && !WritesSaga(a)
    ensures After(w, a).sagas == w.sagas && SameParties(w.rows, After(w, a).rows)
  {
    hide Protocol;
    hide After;
    if a.WriteOp? {
      WriteOpKeepsParties(w, a.caller);
    } else if a.FreezeWrite? || a.UndoWrite? {
      EscalationKeepsParties(w, a);
    } else if a.PayWrite? {
      PayWriteKeepsParties(w, a.saga, a.fault);
    } else if a.RevertWrite? {
      RevertWriteKeepsParties(w, a.saga, a.fault);
    } else {
      OthersKeepRows(w, a);
    }
  }

  lemma WriteOpKeepsParties(w: World, c: Caller)
    requires Protocol(w) && Enabled(w, WriteOp(c))
    ensures After(w, WriteOp(c)).sagas == w.sagas && SameParties(w.rows, After(w, WriteOp(c)).rows)
  {
    var i := w.intents[c];
    WriteKeepsIdentity(w.rows, i.seen.id, i.seen, i.op, Active, false, false);
    hide Computed;
  }

  lemma EscalationKeepsParties(w: World, a: Act)
    requires Protocol(w) && Enabled(w, a) && (a.FreezeWrite? || a.UndoWrite?)
    ensures After(w, a).sagas == w.sagas && SameParties(w.rows, After(w, a).rows)
  {
    hide Enabled;
    hide After;
    hide Protocol;
    if a.FreezeWrite? { FreezeWriteIs(w, a.e, a.fault); } else { UndoWriteIs(w, a.e, a.fault); }
    LockSays(w, a.e);
    var p := w.escalating[a.e];
    if a.FreezeWrite? {
      WriteKeepsIdentity(w.rows, a.e, p.seen, RaiseDispute(p.at), Active, false, false);
    } else {
      WriteKeepsIdentity(w.rows, a.e, p.seen, Fund, w.sagas[p.saga].prior, false, true);
    }
    hide Apply;
    hide Computed;
    hide CorrectedRow;
  }

  lemma PayWriteKeepsParties(w: World, id: SagaId, fault: bool)
    requires Protocol(w) && Enabled(w, PayWrite(id, fault))
    ensures var w' := After(w, PayWrite(id, fault)); w'.sagas == w.sagas && SameParties(w.rows, w'.rows)
  {
    hide Enabled;
    hide After;
    hide Protocol;
    PayWriteIs(w, id, fault);
    PaySays(w, id);
    var p := w.paying[id];
    WriteKeepsIdentity(w.rows, w.sagas[id].escrowId, p.seen, p.op, Active, false, false);
    hide Apply;
    hide Computed;
  }

  lemma RevertWriteKeepsParties(w: World, id: SagaId, fault: bool)
    requires Protocol(w) && Enabled(w, RevertWrite(id, fault))
    ensures var w' := After(w, RevertWrite(id, fault)); w'.sagas == w.sagas && SameParties(w.rows, w'.rows)
  {
    hide Enabled;
    hide After;
    hide Protocol;
    RevertWriteIs(w, id, fault);
    PaySays(w, id);
    WriteKeepsIdentity(w.rows, w.sagas[id].escrowId, w.paying[id].seen, Fund, Disputed, true, false);
    hide CorrectedRow;
  }

  lemma OthersKeepRows(w: World, a: Act)
    requires Enabled(w, a) && !WritesRow(a)
    ensures forall e :: e in w.rows ==> e in After(w, a).rows && After(w, a).rows[e] == w.rows[e]
    ensures !WritesSaga(a) ==> After(w, a).sagas == w.sagas
  {
    if OfEscalation(a) {
      EscalationFrame(w, a);
    } else if OfPayout(a) {
      PayoutFrame(w, a);
    } else {
      OtherFrame(w, a);
      if a.NewEscrow? { NewEscrowKeepsRows(w, a.row); }
    }
    hide Enabled;
    hide After;
  }

  lemma NewEscrowKeepsRows(w: World, row: Escrow)
    requires Enabled(w, NewEscrow(row))
    ensures var w' := After(w, NewEscrow(row));
      w'.rows == w.rows[row.id := row] && row.id !in w.rows && w'.sagas == w.sagas
  {
  }

  lemma SagaStepKeepsVoting(w: World, a: Act)
    requires Inv(w) && Enabled(w, a) && WritesSaga(a)
    ensures VotingOk(After(w, a))
  {
    hide Inv; hide VotingOk; hide After; hide Enabled;
    match a
    case AssignJurors(id, jurors, fault) => AssigningKeepsVotes(w, id, jurors, fault);
    case CastVote(id, v) => VotingKeepsVotes(w, id, v);
    case Open(e, id, who) => OpeningKeepsVotes(w, e, id, who);
    case Commit(e, fault) => CommittingKeepsVotes(w, e, fault);
    case Abandon(e) => AbandoningKeepsVotes(w, e);
    case FinishPayout(id) => FinishingKeepsVotes(w, id);
    case FailPayout(id) => FailingKeepsVotes(w, id);
    case _ =>
  }

  lemma AssigningKeepsVotes(w: World, id: SagaId, jurors: seq<Address>, fault: bool)
    requires Inv(w) && Enabled(w, AssignJurors(id, jurors, fault))
    ensures VotingOk(After(w, AssignJurors(id, jurors, fault)))
  {
    assert SagaVotes(w.rows, w.sagas[id]);
    if fault {
      MovedSagaVotes(w.rows, w.sagas[id], Failed);
      PutKeepsVotes(w, w.sagas[id].(step := Failed, jurors := []));
    } else {
      PanelKeepsVotes(w, id, jurors);
      PutKeepsVotes(w, WithJurors(w.sagas[id], jurors));
    }
  }

  lemma VotingKeepsVotes(w: World, id: SagaId, vote: Vote)
    requires Inv(w) && Enabled(w, CastVote(id, vote))
    ensures VotingOk(After(w, CastVote(id, vote)))
  {
    VoteKeepsVotes(w, id, vote);
    PutKeepsVotes(w, WithVote(w.sagas[id], vote));
  }

  lemma OpeningKeepsVotes(w: World, e: EscrowId, id: SagaId, who: Initiator)
    requires Inv(w) && Enabled(w, Open(e, id, who))
    ensures VotingOk(After(w, Open(e, id, who)))
  {
    hide Protocol;
    PutKeepsVotes(w, NewSaga(id, w.escalating[e].seen, who));
  }

  lemma CommittingKeepsVotes(w: World, e: EscrowId, fault: bool)
    requires Inv(w) && Enabled(w, Commit(e, fault))
    ensures VotingOk(After(w, Commit(e, fault)))
  {
    LeavingKeepsVotes(w, e, JurorAssignment);
    hide Protocol;
    hide SagaVotes;
  }

  lemma AbandoningKeepsVotes(w: World, e: EscrowId)
    requires Inv(w) && Enabled(w, Abandon(e))
    ensures VotingOk(After(w, Abandon(e)))
  {
    LeavingKeepsVotes(w, e, Failed);
    hide Protocol;
    hide SagaVotes;
  }

  lemma LeavingKeepsVotes(w: World, e: EscrowId, step: Step)
    requires Inv(w) && Escalates(w, e) && step in {JurorAssignment, Failed}
    ensures VotingOk(PutSaga(w, w.sagas[w.escalating[e].saga].(step := step)))
  {
    assert LockHolds(w, e, w.escalating[e]);
    var s := w.sagas[w.escalating[e].saga];
    assert SagaVotes(w.rows, s);
    MovedSagaVotes(w.rows, s, step);
    PutKeepsVotes(w, s.(step := step));
  }

  lemma FinishingKeepsVotes(w: World, id: SagaId)
    requires Inv(w) && Enabled(w, FinishPayout(id))
    ensures VotingOk(After(w, FinishPayout(id)))
  {
    assert SagaVotes(w.rows, w.sagas[id]);
    MovedSagaVotes(w.rows, w.sagas[id], Completed);
    PutKeepsVotes(w, w.sagas[id].(step := Completed, paid := true));
  }

  lemma FailingKeepsVotes(w: World, id: SagaId)
    requires Inv(w) && Enabled(w, FailPayout(id))
    ensures VotingOk(After(w, FailPayout(id)))
  {
    assert SagaVotes(w.rows, w.sagas[id]);
    MovedSagaVotes(w.rows, w.sagas[id], Failed);
    PutKeepsVotes(w, w.sagas[id].(step := Failed));
  }

  lemma StepKeepsVoting(w: World, a: Act)
    requires Inv(w) && Enabled(w, a)
    ensures VotingOk(After(w, a))
  {
    if WritesSaga(a) {
      SagaStepKeepsVoting(w, a);
    } else {
      PartiesAreKept(w, a);
      hide SagaVotes; hide Protocol;
      RowsKeepVotes(w, After(w, a).rows);
    }
  }

  lemma StepKeepsInv(w: World, a: Act)
    requires Inv(w) && Enabled(w, a)
    ensures Inv(After(w, a))
  {
    StepKeepsProtocol(w, a);
    StepKeepsVoting(w, a);
  }
}
