// Which parts of the world each family of steps of the dispute protocol leaves alone.
module DisputeFrames {
  import opened Common
  import opened Escrow
  import opened Voting
  import opened Dispute

  predicate Opens(a: Act) { a.Lock? || a.Check? || a.Open? }

  predicate Freezes(a: Act) { a.FreezeRead? || a.FreezeWrite? || a.Commit? }

  predicate Undoes(a: Act) { a.UndoCheck? || a.UndoRead? || a.UndoWrite? || a.Abandon? }

  predicate OfEscalation(a: Act) { Opens(a) || Freezes(a) || Undoes(a) }

  predicate Settles(a: Act) { a.StartPayout? || a.PayRead? || a.PayWrite? || a.FinishPayout? }

  predicate Reverts(a: Act) { a.RevertRead? || a.RevertWrite? || a.FailPayout? }

  predicate OfPayout(a: Act) { Settles(a) || Reverts(a) }

  predicate WritesSaga(a: Act)
  {
    a.AssignJurors? || a.CastVote? || a.Open? || a.Commit? || a.Abandon? || a.FinishPayout? || a.FailPayout?
  }

  predicate WritesRow(a: Act)
  {
    a.WriteOp? || a.FreezeWrite? || a.UndoWrite? || a.PayWrite? || a.RevertWrite?
  }

  // ── Each step by itself ───────────────────────────────────────────────────────

  lemma FreezeReadIs(w: World, e: EscrowId, at: int, fault: bool)
    requires Enabled(w, FreezeRead(e, at, fault))
    ensures Escalates(w, e) && w.escalating[e].Opened? && After(w, FreezeRead(e, at, fault)) == AfterFreezeRead(w, e, w.escalating[e].saga, at, fault)
  {
  }

  lemma FreezeWriteIs(w: World, e: EscrowId, fault: bool)
    requires Enabled(w, FreezeWrite(e, fault))
    ensures var p := w.escalating[e];
      Escalates(w, e) && p.Freezing? && After(w, FreezeWrite(e, fault)) == AfterFreezeWrite(w, e, p.saga, p.at, p.seen, fault)
  {
  }

  lemma CommitIs(w: World, e: EscrowId, fault: bool)
    requires Enabled(w, Commit(e, fault))
    ensures var p := w.escalating[e];
      Escalates(w, e) && p.Frozen? && After(w, Commit(e, fault)) == AfterCommit(w, e, p.saga, p.own, fault)
  {
  }

  lemma UndoCheckIs(w: World, e: EscrowId, fault: bool)
    requires Enabled(w, UndoCheck(e, fault))
    ensures var p := w.escalating[e];
      Escalates(w, e) && p.Undoing? && After(w, UndoCheck(e, fault)) == AfterUndoCheck(w, e, p.saga, p.own, fault)
  {
  }

  lemma UndoReadIs(w: World, e: EscrowId, fault: bool)
    requires Enabled(w, UndoRead(e, fault))
    ensures Escalates(w, e) && w.escalating[e].Lifting? && After(w, UndoRead(e, fault)) == AfterUndoRead(w, e, w.escalating[e].saga, fault)
  {
  }

  lemma UndoWriteIs(w: World, e: EscrowId, fault: bool)
    requires Enabled(w, UndoWrite(e, fault))
    ensures var p := w.escalating[e];
      Escalates(w, e) && p.Restoring? && After(w, UndoWrite(e, fault)) == AfterUndoWrite(w, e, p.saga, p.seen, fault)
  {
  }

  lemma AbandonIs(w: World, e: EscrowId)
    requires Enabled(w, Abandon(e))
    ensures Escalates(w, e) && w.escalating[e].Undone? && After(w, Abandon(e)) == AfterAbandon(w, e, w.escalating[e].saga)
  {
  }

  lemma PayReadIs(w: World, id: SagaId, percentage: int, fault: bool)
    requires Enabled(w, PayRead(id, percentage, fault))
    ensures Pays(w, id) && w.paying[id].Started? && After(w, PayRead(id, percentage, fault)) == AfterPayRead(w, id, percentage, fault)
  {
  }

  lemma PayWriteIs(w: World, id: SagaId, fault: bool)
    requires Enabled(w, PayWrite(id, fault))
    ensures var p := w.paying[id];
      Pays(w, id) && p.Settling? && After(w, PayWrite(id, fault)) == AfterPayWrite(w, id, p.op, p.seen, fault)
  {
  }

  lemma FinishIs(w: World, id: SagaId)
    requires Enabled(w, FinishPayout(id))
    ensures Pays(w, id) && w.paying[id].Applied? && After(w, FinishPayout(id)) == AfterPayout(w, id, Completed)
  {
  }

  lemma RevertReadIs(w: World, id: SagaId, fault: bool)
    requires Enabled(w, RevertRead(id, fault))
    ensures Pays(w, id) && w.paying[id].Refused? && After(w, RevertRead(id, fault)) == AfterRevertRead(w, id, fault)
  {
  }

  lemma RevertWriteIs(w: World, id: SagaId, fault: bool)
    requires Enabled(w, RevertWrite(id, fault))
    ensures var p := w.paying[id];
      Pays(w, id) && p.Reverting? && After(w, RevertWrite(id, fault)) == AfterRevertWrite(w, id, p.seen, fault)
  {
  }

  lemma FailIs(w: World, id: SagaId)
    requires Enabled(w, FailPayout(id))
    ensures Pays(w, id) && w.paying[id].Reverted? && After(w, FailPayout(id)) == AfterPayout(w, id, Failed)
  {
  }

  lemma AssignIs(w: World, id: SagaId, jurors: seq<Address>, fault: bool)
    requires Enabled(w, AssignJurors(id, jurors, fault))
    ensures Idle(w, id, JurorAssignment) && MayAssign(w.rows, w.sagas[id], jurors)
      && After(w, AssignJurors(id, jurors, fault)) == PutSaga(w, AssignedSaga(w.sagas[id], jurors, fault))
  {
  }

  lemma CastIs(w: World, id: SagaId, v: Vote)
    requires Enabled(w, CastVote(id, v))
    ensures Idle(w, id, InVoting) && MayVote(w.sagas[id], v.juror) && After(w, CastVote(id, v)) == PutSaga(w, WithVote(w.sagas[id], v))
  {
  }

  lemma CheckIs(w: World, e: EscrowId, who: Initiator)
    requires Enabled(w, Check(e, who))
    ensures e in w.escalating && w.escalating[e].Guarded? && After(w, Check(e, who)) == AfterCheck(w, e, who)
  {
  }

  lemma OpenIs(w: World, e: EscrowId, id: SagaId, who: Initiator)
    requires Enabled(w, Open(e, id, who))
    ensures e in w.escalating && w.escalating[e].Checked? && id !in w.sagas
      && After(w, Open(e, id, who)) == AfterOpen(w, e, id, w.escalating[e].seen, who)
  {
  }

  lemma StartIs(w: World, id: SagaId)
    requires Enabled(w, StartPayout(id))
    ensures Idle(w, id, Payout) && MayPay(w.sagas[id]) && After(w, StartPayout(id)) == AtPay(w, id, Started)
  {
  }

  lemma LockIs(w: World, e: EscrowId)
    requires Enabled(w, Lock(e))
    ensures e !in w.escalating && !HasActive(w, e) && After(w, Lock(e)) == AtPhase(w, e, Guarded)
  {
  }

  /** Between the two worlds only the escalation of `e` has moved, and what `rows` and `sagas` admit. */
  ghost predicate OwnLock(w: World, w': World, e: EscrowId, rows: bool, sagas: bool)
  {
    && w'.paying == w.paying && w'.intents == w.intents && w'.escalating - {e} == w.escalating - {e}
    && (rows || w'.rows == w.rows)
    && (sagas || (w'.sagas == w.sagas && w'.index == w.index))
  }

  lemma PhaseIsOwnLock(w: World, e: EscrowId, phase: Escalating)
    ensures OwnLock(w, AtPhase(w, e, phase), e, false, false)
    ensures OwnLock(w, w.(escalating := w.escalating - {e}), e, false, false)
  {
  }

  lemma OpeningFrame(w: World, a: Act)
    requires Enabled(w, a) && Opens(a)
    ensures OwnLock(w, After(w, a), a.e, false, WritesSaga(a))
  {
    hide MayEscalate;
    hide HasActive;
    if a.Check? {
      PhaseIsOwnLock(w, a.e, w.escalating[a.e]);
    }
  }

  lemma FreezeReadIsOwn(w: World, e: EscrowId, id: SagaId, at: int, fault: bool)
    requires id in w.sagas
    ensures OwnLock(w, AfterFreezeRead(w, e, id, at, fault), e, false, false)
  {
    hide Apply;
    hide OwnLock;
    var phase := if w.sagas[id].prior == Disputed then Frozen(id, None)
                 else if fault || TryAt(w.rows, e, RaiseDispute(at)).Failure? then Undoing(id, None)
                 else Freezing(id, at, w.rows[e]);
    assert AfterFreezeRead(w, e, id, at, fault) == AtPhase(w, e, phase);
    PhaseIsOwnLock(w, e, phase);
  }

  lemma FreezeWriteIsOwn(w: World, e: EscrowId, id: SagaId, at: int, seen: Escrow, fault: bool)
    ensures OwnLock(w, AfterFreezeWrite(w, e, id, at, seen, fault), e, true, false)
  {
    hide Computed;
  }

  lemma CommitIsOwn(w: World, e: EscrowId, id: SagaId, own: Option<Escrow>, fault: bool)
    requires id in w.sagas
    ensures OwnLock(w, AfterCommit(w, e, id, own, fault), e, false, true) && AfterCommit(w, e, id, own, fault).index == w.index
  {
  }

  lemma FreezingFrame(w: World, a: Act)
    requires Enabled(w, a) && Freezes(a)
    ensures OwnLock(w, After(w, a), a.e, WritesRow(a), WritesSaga(a))
    ensures a.Commit? ==> After(w, a).index == w.index
  {
    hide Enabled;
    hide After;
    hide OwnLock;
    hide AfterFreezeRead;
    hide AfterFreezeWrite;
    hide AfterCommit;
    match a
    case FreezeRead(e, at, fault) => FreezeReadIs(w, e, at, fault); FreezeReadIsOwn(w, e, w.escalating[e].saga, at, fault);
    case FreezeWrite(e, fault) =>
      FreezeWriteIs(w, e, fault);
      FreezeWriteIsOwn(w, e, w.escalating[e].saga, w.escalating[e].at, w.escalating[e].seen, fault);
    case Commit(e, fault) => CommitIs(w, e, fault); CommitIsOwn(w, e, w.escalating[e].saga, w.escalating[e].own, fault);
    case _ =>
  }

  lemma UndoingFrame(w: World, a: Act)
    requires Enabled(w, a) && Undoes(a)
    ensures OwnLock(w, After(w, a), a.e, WritesRow(a), WritesSaga(a))
    ensures After(w, a).index == w.index
  {
    hide Enabled;
    hide After;
    hide StillOwn;
    hide CorrectedRow;
    match a
    case UndoCheck(e, fault) => UndoCheckIs(w, e, fault);
    case UndoRead(e, fault) => UndoReadIs(w, e, fault);
    case UndoWrite(e, fault) => UndoWriteIs(w, e, fault);
    case Abandon(e) => AbandonIs(w, e);
    case _ =>
  }

  /** A step of an escalation leaves other escalations, payouts and callers alone. */
  lemma EscalationFrame(w: World, a: Act)
    requires Enabled(w, a) && OfEscalation(a)
    ensures OwnLock(w, After(w, a), a.e, WritesRow(a), WritesSaga(a))
    ensures !a.Open? ==> After(w, a).index == w.index
  {
    if Opens(a) {
      OpeningFrame(w, a);
    } else if Freezes(a) {
      FreezingFrame(w, a);
    } else {
      UndoingFrame(w, a);
    }
    hide Enabled;
    hide After;
  }

  /** Between the two worlds only the payout of `id` has moved, and what `rows` and `sagas` admit. */
  ghost predicate OwnPay(w: World, w': World, id: SagaId, rows: bool, sagas: bool)
  {
    && w'.escalating == w.escalating && w'.intents == w.intents && w'.index == w.index
    && w'.paying - {id} == w.paying - {id}
    && (rows || w'.rows == w.rows) && (sagas || w'.sagas == w.sagas)
  }

  lemma PayReadIsOwn(w: World, id: SagaId, percentage: int, fault: bool)
    requires id in w.sagas && w.sagas[id].verdict.Some?
    ensures OwnPay(w, AfterPayRead(w, id, percentage, fault), id, false, false)
  {
    hide Apply;
  }

  lemma PayWriteIsOwn(w: World, id: SagaId, op: Op, seen: Escrow, fault: bool)
    requires id in w.sagas
    ensures OwnPay(w, AfterPayWrite(w, id, op, seen, fault), id, true, false)
  {
    hide Computed;
  }

  lemma SettlingFrame(w: World, a: Act)
    requires Enabled(w, a) && Settles(a)
    ensures OwnPay(w, After(w, a), a.saga, WritesRow(a), WritesSaga(a))
  {
    hide Enabled;
    hide After;
    match a
    case StartPayout(id) => StartIs(w, id);
    case PayRead(id, percentage, fault) => PayReadIs(w, id, percentage, fault); PayReadIsOwn(w, id, percentage, fault); hide AfterPayRead;
    case PayWrite(id, fault) => PayWriteIs(w, id, fault); PayWriteIsOwn(w, id, w.paying[id].op, w.paying[id].seen, fault); hide AfterPayWrite;
    case FinishPayout(id) => FinishIs(w, id);
    case _ =>
  }

  lemma RevertingFrame(w: World, a: Act)
    requires Enabled(w, a) && Reverts(a)
    ensures OwnPay(w, After(w, a), a.saga, WritesRow(a), WritesSaga(a))
  {
    hide Enabled;
    hide After;
    hide CorrectedRow;
    match a
    case RevertRead(id, fault) => RevertReadIs(w, id, fault);
    case RevertWrite(id, fault) => RevertWriteIs(w, id, fault);
    case FailPayout(id) => FailIs(w, id);
    case _ =>
  }

  /** A step of a payout leaves other payouts, escalations and callers alone. */
  lemma PayoutFrame(w: World, a: Act)
    requires Enabled(w, a) && OfPayout(a)
    ensures OwnPay(w, After(w, a), a.saga, WritesRow(a), WritesSaga(a))
  {
    if Settles(a) { SettlingFrame(w, a); } else { RevertingFrame(w, a); }
    hide Enabled;
    hide After;
  }

  /** Any other step takes no lock and moves none, though a crash gives all of them up. */
  lemma OtherFrame(w: World, a: Act)
    requires Enabled(w, a) && !OfEscalation(a) && !OfPayout(a)
    ensures var w' := After(w, a);
      && w'.index == w.index && (WritesSaga(a) || w'.sagas == w.sagas)
      && (a.Crash? || (w'.escalating == w.escalating && w'.paying == w.paying))
      && (a.Crash? ==> w'.escalating == map[] && w'.paying == map[] && w'.intents == map[])
      && (a.ReadOp? || a.WriteOp? || a.Crash? || w'.intents == w.intents)
      && (a.NewEscrow? || a.WriteOp? || w'.rows == w.rows)
  {
    hide Apply;
    hide Computed;
    hide MayAssign;
    hide MayVote;
    hide AssignedSaga;
    hide WithVote;
  }
}
