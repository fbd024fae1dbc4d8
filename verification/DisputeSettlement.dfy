// When the settlement a completed saga has reached is kept. Nothing in the protocol itself takes it
// back; a caller that read the escrow before it was settled and writes afterwards does.
module DisputeSettlement {
  import opened Escrow
  import opened Voting
  import opened Dispute
  import opened DisputeFrames
  import opened DisputeSteps
  import opened DisputeRuns

  /** The saga's escrow is settled as its verdict says. */
  ghost predicate PaidOut(rows: Rows, s: Saga)
  {
    s.verdict.Some? && s.escrowId in rows && rows[s.escrowId].status == PaidStatus(s.verdict.value)
  }

  /** No saga of the escrow is active, and no escalation has got past its first guard. */
  ghost predicate Quiet(w: World, e: EscrowId)
  {
    !HasActive(w, e) && (e in w.escalating ==> w.escalating[e].Guarded?)
  }

  ghost predicate Completes(w: World, id: SagaId, e: EscrowId)
  {
    id in w.sagas && w.sagas[id].escrowId == e && w.sagas[id].step == Completed
  }

  ghost predicate Applies(w: World, id: SagaId, e: EscrowId)
  {
    id in w.paying && w.paying[id] == Applied && id in w.sagas && w.sagas[id].escrowId == e
  }

  /** The escrow is as its completed saga, or the payout that is about to complete one, left it. */
  ghost predicate SettledAt(w: World, e: EscrowId)
  {
    && (forall id :: Completes(w, id, e) ==> PaidOut(w.rows, w.sagas[id]) && Quiet(w, e))
    && (forall id :: Applies(w, id, e) ==> PaidOut(w.rows, w.sagas[id]))
  }

  /** What a caller is about to write would change the status the escrow has. */
  ghost predicate Disagrees(w: World, c: Caller, e: EscrowId)
  {
    && c in w.intents && w.intents[c].seen.id == e && e in w.rows
    && Computed(w.intents[c].op, w.intents[c].seen).status != w.rows[e].status
  }

  /** A caller's write replaces a settled row by another status. */
  ghost predicate Clobbers(w: World, a: Act, e: EscrowId)
  {
    a.WriteOp? && Disagrees(w, a.caller, e) && IsTerminal(w.rows[e].status)
  }

  // ── One step ──────────────────────────────────────────────────────────────────

  /** Locks of the protocol that could touch the escrow of a settled saga are not held. */
  lemma SettledIsUnlocked(w: World, id: SagaId, e: EscrowId)
    requires Protocol(w)
    requires (Completes(w, id, e) && Quiet(w, e)) || Applies(w, id, e)
    ensures e in w.escalating ==> w.escalating[e].Guarded?
    ensures forall other :: other in w.paying && w.sagas[other].escrowId == e ==> other == id && Applies(w, id, e)
  {
    if e in w.escalating {
      assert LockHolds(w, e, w.escalating[e]);
    }
    hide ReadOf;
    hide Apply;
    hide PayHolds;
    hide IntentsOk;
  }

  lemma StatusStays(w: World, a: Act, id: SagaId, e: EscrowId)
    requires Protocol(w) && Enabled(w, a) && !Clobbers(w, a, e) && id in w.sagas && PaidOut(w.rows, w.sagas[id])
    requires (Completes(w, id, e) && Quiet(w, e)) || Applies(w, id, e)
    ensures e in After(w, a).rows && After(w, a).rows[e].status == w.rows[e].status
  {
    SettledIsUnlocked(w, id, e);
    if !WritesRow(a) {
      OthersKeepRows(w, a);
      hide Enabled;
      hide After;
    } else if a.WriteOp? {
      hide Computed;
    } else {
      WritesElsewhere(w, a, e);
    }
    hide Protocol;
  }

  lemma WritesElsewhere(w: World, a: Act, e: EscrowId)
    requires Enabled(w, a) && WritesRow(a) && !a.WriteOp? && e in w.rows
    requires e in w.escalating ==> w.escalating[e].Guarded?
    requires forall other :: other in w.paying && other in w.sagas && w.sagas[other].escrowId == e ==> w.paying[other] == Applied
    ensures e in After(w, a).rows && After(w, a).rows[e] == w.rows[e]
  {
    hide Computed;
    hide CorrectedRow;
  }

  lemma QuietStays(w: World, a: Act, e: EscrowId)
    requires Protocol(w) && Enabled(w, a) && Quiet(w, e) && e in w.rows && IsTerminal(w.rows[e].status)
    ensures Quiet(After(w, a), e)
  {
    if OfEscalation(a) {
      EscalationsStayQuiet(w, a, e);
    } else if WritesSaga(a) {
      AdvancesStayQuiet(w, a, e);
    } else {
      PartiesAreKept(w, a);
      OthersStayQuiet(w, a, e);
    }
    hide Protocol;
    hide Enabled;
    hide After;
    hide Quiet;
  }

  /** A saga that is not active stays so: jurors, votes and payouts are of active ones. */
  lemma AdvancesStayQuiet(w: World, a: Act, e: EscrowId)
    requires Protocol(w) && Enabled(w, a) && Quiet(w, e) && WritesSaga(a) && !OfEscalation(a)
    ensures Quiet(After(w, a), e)
  {
    hide Enabled;
    hide After;
    hide VerdictOf;
    hide Unique;
    assert Filed(w) && PayingOk(w);
    hide Protocol;
    hide PayHolds;
    match a
    case AssignJurors(x, jurors, fault) => AssignIs(w, x, jurors, fault); hide MayAssign;
    case CastVote(x, v) => CastIs(w, x, v); hide MayVote;
    case FinishPayout(x) => FinishIs(w, x);
    case FailPayout(x) => FailIs(w, x);
    case _ =>
  }

  lemma OthersStayQuiet(w: World, a: Act, e: EscrowId)
    requires Enabled(w, a) && Quiet(w, e) && !OfEscalation(a) && !WritesSaga(a)
    requires After(w, a).sagas == w.sagas
    ensures Quiet(After(w, a), e)
  {
    if OfPayout(a) { PayoutFrame(w, a); } else { OtherFrame(w, a); }
    hide Enabled;
    hide After;
  }

  lemma EscalationsStayQuiet(w: World, a: Act, e: EscrowId)
    requires Protocol(w) && Enabled(w, a) && Quiet(w, e) && e in w.rows && IsTerminal(w.rows[e].status) && OfEscalation(a)
    ensures Quiet(After(w, a), e)
  {
    hide Enabled;
    hide After;
    if a.e == e {
      OwnEscalationStaysQuiet(w, a);
    } else if WritesSaga(a) {
      if a.Open? { OpeningStaysQuiet(w, a, e); } else { LeavingStaysQuiet(w, a, e); }
    } else {
      LockedStayQuiet(w, a, e);
    }
    hide Protocol;
    hide Quiet;
  }

  /** An escalation that has not got past its first guard comes to take the lock or to give it up. */
  lemma OwnEscalationStaysQuiet(w: World, a: Act)
    requires Enabled(w, a) && OfEscalation(a) && Quiet(w, a.e) && a.e in w.rows && IsTerminal(w.rows[a.e].status)
    ensures Quiet(After(w, a), a.e)
  {
    NotPastGuard(w, a);
    hide Enabled;
    hide After;
    if a.Lock? {
      LockIs(w, a.e);
    } else {
      CheckIs(w, a.e, a.who);
    }
  }

  lemma NotPastGuard(w: World, a: Act)
    requires Enabled(w, a) && OfEscalation(a) && (a.e in w.escalating ==> w.escalating[a.e].Guarded?)
    ensures a.Lock? || a.Check?
  {
    hide HasActive;
  }

  lemma OpeningStaysQuiet(w: World, a: Act, e: EscrowId)
    requires Protocol(w) && Enabled(w, a) && Quiet(w, e) && a.Open? && a.e != e
    ensures Quiet(After(w, a), e)
  {
    hide Enabled;
    hide After;
    OpenIs(w, a.e, a.saga, a.who);
    assert LockHolds(w, a.e, w.escalating[a.e]);
    assert Filed(w);
    hide Protocol;
    hide Apply;
  }

  lemma LeavingStaysQuiet(w: World, a: Act, e: EscrowId)
    requires Protocol(w) && Enabled(w, a) && Quiet(w, e) && (a.Commit? || a.Abandon?) && a.e != e
    ensures Quiet(After(w, a), e)
  {
    hide Enabled;
    hide After;
    if a.Commit? { CommitIs(w, a.e, a.fault); } else { AbandonIs(w, a.e); }
    EscalatingIsOpen(w, a.e);
    assert Filed(w);
    hide Protocol;
  }

  lemma LockedStayQuiet(w: World, a: Act, e: EscrowId)
    requires Enabled(w, a) && Quiet(w, e) && OfEscalation(a) && !WritesSaga(a) && a.e != e
    ensures Quiet(After(w, a), e)
  {
    EscalationFrame(w, a);
    hide Enabled;
    hide After;
    var now := After(w, a);
    assert e in now.escalating ==> e in now.escalating - {a.e};
  }

  /** What a step makes of a saga that is recorded: it never leaves its escrow, it is completed only by the
      end of its payout, and no other step writes it while it is being paid. */
  ghost predicate Moved(w: World, a: Act, s: Saga, s': Saga)
  {
    && s'.escrowId == s.escrowId
    && (s'.step == Completed && s.step != Completed ==> a == FinishPayout(s.sagaId) && s'.verdict == s.verdict)
    && (s.sagaId in w.paying && s' != s ==> a in {FinishPayout(s.sagaId), FailPayout(s.sagaId)})
  }

  lemma SagaIsMoved(w: World, a: Act, id: SagaId)
    requires Protocol(w) && Enabled(w, a) && id in w.sagas
    ensures id in After(w, a).sagas && Moved(w, a, w.sagas[id], After(w, a).sagas[id])
  {
    hide Enabled;
    hide After;
    if a.AssignJurors? || a.CastVote? {
      AdvancedIsMoved(w, a, id);
    } else if a.Open? || a.Commit? || a.Abandon? {
      EscalatedIsMoved(w, a, id);
    } else if a.FinishPayout? || a.FailPayout? {
      if a.FinishPayout? { FinishIs(w, a.saga); } else { FailIs(w, a.saga); }
      assert Filed(w);
    } else {
      PartiesAreKept(w, a);
    }
    hide Protocol;
  }

  lemma AdvancedIsMoved(w: World, a: Act, id: SagaId)
    requires Filed(w) && Enabled(w, a) && (a.AssignJurors? || a.CastVote?) && id in w.sagas
    ensures id in After(w, a).sagas && Moved(w, a, w.sagas[id], After(w, a).sagas[id])
  {
    hide Enabled;
    hide After;
    hide VerdictOf;
    hide Unique;
    if a.AssignJurors? { AssignIs(w, a.saga, a.jurors, a.fault); } else { CastIs(w, a.saga, a.vote); }
    hide MayAssign;
    hide MayVote;
  }

  lemma EscalatedIsMoved(w: World, a: Act, id: SagaId)
    requires Protocol(w) && Enabled(w, a) && (a.Open? || a.Commit? || a.Abandon?) && id in w.sagas
    ensures id in After(w, a).sagas && Moved(w, a, w.sagas[id], After(w, a).sagas[id])
  {
    hide Enabled;
    hide After;
    if a.Open? {
      OpenIs(w, a.e, a.saga, a.who);
    } else {
      if a.Commit? { CommitIs(w, a.e, a.fault); } else { AbandonIs(w, a.e); }
      EscalatingIsOpen(w, a.e);
    }
    assert PayingOk(w) && Filed(w);
    hide Protocol;
    hide PayHolds;
  }

  /** The saga an escalation is about is at its first step, and of the escalation's escrow. */
  lemma EscalatingIsOpen(w: World, e: EscrowId)
    requires Protocol(w) && Escalates(w, e)
    ensures OpenedFor(w, w.escalating[e].saga, e)
  {
    assert LockHolds(w, e, w.escalating[e]);
    hide OneActive;
    hide PayingOk;
    hide IntentsOk;
    hide ReadOf;
    hide Apply;
  }

  /** Only the end of an applied payout completes a saga. */
  lemma CompletionIsNew(w: World, a: Act, id: SagaId, e: EscrowId)
    requires Protocol(w) && Enabled(w, a) && Completes(After(w, a), id, e) && !Completes(w, id, e)
    ensures Applies(w, id, e) && a == FinishPayout(id) && After(w, a).rows == w.rows
    ensures After(w, a).sagas[id].verdict == w.sagas[id].verdict
  {
    if id in w.sagas {
      SagaIsMoved(w, a, id);
    } else {
      NewSagasEscalate(w, a, id);
    }
    hide Protocol;
  }

  lemma NewSagasEscalate(w: World, a: Act, id: SagaId)
    requires Protocol(w) && Enabled(w, a) && id !in w.sagas
    ensures id in After(w, a).sagas ==> After(w, a).sagas[id].step == Escalation
  {
    if !WritesSaga(a) {
      PartiesAreKept(w, a);
    } else if !a.Open? {
      NoNewSaga(w, a, id);
    }
    hide Protocol;
    if !a.Open? {
      hide Enabled;
      hide After;
    }
  }

  lemma NoNewSaga(w: World, a: Act, id: SagaId)
    requires Filed(w) && Enabled(w, a) && id !in w.sagas && WritesSaga(a) && !a.Open?
    ensures id !in After(w, a).sagas
  {
    hide Enabled;
    hide After;
    hide VerdictOf;
    hide Unique;
    match a
    case AssignJurors(x, jurors, fault) => AssignIs(w, x, jurors, fault); hide MayAssign;
    case CastVote(x, v) => CastIs(w, x, v); hide MayVote;
    case Commit(e, fault) => CommitIs(w, e, fault);
    case Abandon(e) => AbandonIs(w, e);
    case FinishPayout(x) => FinishIs(w, x);
    case FailPayout(x) => FailIs(w, x);
    case _ =>
  }

  /** Only a payout's write applies it, and what it writes is what the verdict says. */
  lemma ApplicationIsNew(w: World, a: Act, id: SagaId, e: EscrowId)
    requires Protocol(w) && Enabled(w, a) && Applies(After(w, a), id, e) && !Applies(w, id, e)
    ensures PaidOut(After(w, a).rows, After(w, a).sagas[id])
  {
    hide Enabled;
    hide After;
    if a.PayWrite? {
      PayWritePays(w, a.saga, a.fault);
    } else {
      NoOtherApplies(w, a, id);
      assert PayingOk(w);
      SagaIsMoved(w, a, id);
    }
    hide Protocol;
  }

  lemma PayWritePays(w: World, id: SagaId, fault: bool)
    requires Protocol(w) && Enabled(w, PayWrite(id, fault))
    ensures var w' := After(w, PayWrite(id, fault));
      w'.sagas == w.sagas && id in w'.paying && w'.paying - {id} == w.paying - {id}
      && (w'.paying[id] == Applied ==> PaidOut(w'.rows, w'.sagas[id]))
    ensures forall other :: other in After(w, PayWrite(id, fault)).paying && other != id ==>
      other in w.paying && After(w, PayWrite(id, fault)).paying[other] == w.paying[other]
  {
    hide Enabled;
    hide After;
    PayWriteIs(w, id, fault);
    assert PayHolds(w.rows, w.sagas[id], w.paying[id]);
    hide Protocol;
    hide Apply;
    hide ReadOf;
  }

  lemma NoOtherApplies(w: World, a: Act, id: SagaId)
    requires Enabled(w, a) && !a.PayWrite?
    ensures id in After(w, a).paying && After(w, a).paying[id] == Applied ==> id in w.paying && w.paying[id] == Applied
  {
    if OfEscalation(a) {
      EscalationFrame(w, a);
    } else if OfPayout(a) {
      PayoutFrame(w, a);
      OwnPhaseIsNotApplied(w, a);
      var now := After(w, a);
      assert id in now.paying && id != a.saga ==> id in now.paying - {a.saga};
    } else {
      OtherFrame(w, a);
    }
    hide Enabled;
    hide After;
  }

  lemma OwnPhaseIsNotApplied(w: World, a: Act)
    requires Enabled(w, a) && OfPayout(a) && !a.PayWrite?
    ensures a.saga in After(w, a).paying ==> After(w, a).paying[a.saga] != Applied
  {
    hide Enabled;
    hide After;
    if Settles(a) { SettlingIsNotApplied(w, a); } else { RevertingIsNotApplied(w, a); }
  }

  lemma SettlingIsNotApplied(w: World, a: Act)
    requires Enabled(w, a) && Settles(a) && !a.PayWrite?
    ensures a.saga in After(w, a).paying ==> After(w, a).paying[a.saga] != Applied
  {
    hide Enabled;
    hide After;
    hide Apply;
    match a
    case StartPayout(id) => StartIs(w, id);
    case PayRead(id, percentage, fault) => PayReadIs(w, id, percentage, fault);
    case FinishPayout(id) => FinishIs(w, id);
    case _ =>
  }

  lemma RevertingIsNotApplied(w: World, a: Act)
    requires Enabled(w, a) && Reverts(a)
    ensures a.saga in After(w, a).paying ==> After(w, a).paying[a.saga] != Applied
  {
    hide Enabled;
    hide After;
    hide CorrectedRow;
    match a
    case RevertRead(id, fault) => RevertReadIs(w, id, fault);
    case RevertWrite(id, fault) => RevertWriteIs(w, id, fault);
    case FailPayout(id) => FailIs(w, id);
    case _ =>
  }

  /** A saga whose payout is applied keeps its verdict while it is. */
  lemma AppliedKeepsVerdict(w: World, a: Act, id: SagaId, e: EscrowId)
    requires Protocol(w) && Enabled(w, a) && Applies(w, id, e) && Applies(After(w, a), id, e)
    ensures After(w, a).sagas[id].verdict == w.sagas[id].verdict
  {
    hide Enabled;
    hide After;
    SagaIsMoved(w, a, id);
    assert Filed(w);
    hide Protocol;
    if a.FinishPayout? || a.FailPayout? {
      PayoutIsOver(w, a);
    }
  }

  lemma PayoutIsOver(w: World, a: Act)
    requires Enabled(w, a) && (a.FinishPayout? || a.FailPayout?)
    ensures a.saga !in After(w, a).paying
  {
  }

  /** Nothing but a clobbering write takes back what a payout has settled. */
  lemma StepKeepsSettled(w: World, a: Act, e: EscrowId)
    requires Inv(w) && Enabled(w, a) && SettledAt(w, e) && !Clobbers(w, a, e)
    ensures SettledAt(After(w, a), e)
  {
    var w' := After(w, a);
    assert Protocol(w);
    hide Inv;
    hide Protocol;
    hide Enabled;
    hide After;
    hide Clobbers;
    forall id | Completes(w', id, e) ensures PaidOut(w'.rows, w'.sagas[id]) && Quiet(w', e) {
      CompletedIsPaid(w, a, id, e);
    }
    forall id | Applies(w', id, e) ensures PaidOut(w'.rows, w'.sagas[id]) {
      AppliedIsPaid(w, a, id, e);
    }
  }

  lemma CompletedIsPaid(w: World, a: Act, id: SagaId, e: EscrowId)
    requires Inv(w) && Enabled(w, a) && SettledAt(w, e) && !Clobbers(w, a, e) && Completes(After(w, a), id, e)
    ensures PaidOut(After(w, a).rows, After(w, a).sagas[id]) && Quiet(After(w, a), e)
  {
    hide Protocol;
    hide VotingOk;
    hide Enabled;
    hide After;
    hide Clobbers;
    hide PaidOut;
    hide Quiet;
    if Completes(w, id, e) {
      CompletedStays(w, a, id, e);
    } else {
      CompletionIsNew(w, a, id, e);
      NewCompletionIsQuiet(w, id, e);
      assert PaidOut(w.rows, w.sagas[id]);
      PaidOutIsThere(w, id);
      SamePaidOut(w, After(w, a), id, e);
    }
  }

  lemma PaidOutIsThere(w: World, id: SagaId)
    requires id in w.sagas && PaidOut(w.rows, w.sagas[id])
    ensures w.sagas[id].escrowId in w.rows
  {
  }

  lemma AppliedIsPaid(w: World, a: Act, id: SagaId, e: EscrowId)
    requires Inv(w) && Enabled(w, a) && SettledAt(w, e) && !Clobbers(w, a, e) && Applies(After(w, a), id, e)
    ensures PaidOut(After(w, a).rows, After(w, a).sagas[id])
  {
    hide Protocol;
    hide VotingOk;
    hide Enabled;
    hide After;
    hide Clobbers;
    hide Quiet;
    if Applies(w, id, e) {
      StatusStays(w, a, id, e);
      AppliedKeepsVerdict(w, a, id, e);
      SamePaidOut(w, After(w, a), id, e);
    } else {
      ApplicationIsNew(w, a, id, e);
    }
  }

  lemma SamePaidOut(w: World, w': World, id: SagaId, e: EscrowId)
    requires id in w.sagas && id in w'.sagas && w.sagas[id].escrowId == e == w'.sagas[id].escrowId
    requires w'.sagas[id].verdict == w.sagas[id].verdict && e in w.rows && e in w'.rows
    requires w'.rows[e].status == w.rows[e].status && PaidOut(w.rows, w.sagas[id])
    ensures PaidOut(w'.rows, w'.sagas[id])
  {
  }

  lemma CompletedStays(w: World, a: Act, id: SagaId, e: EscrowId)
    requires Inv(w) && Enabled(w, a) && !Clobbers(w, a, e)
    requires Completes(w, id, e) && PaidOut(w.rows, w.sagas[id]) && Quiet(w, e)
    ensures Completes(After(w, a), id, e) && PaidOut(After(w, a).rows, After(w, a).sagas[id]) && Quiet(After(w, a), e)
  {
    StatusStays(w, a, id, e);
    QuietStays(w, a, e);
    EndedSagaStays(w, a, id);
    hide Inv;
    hide Enabled;
    hide After;
    hide Quiet;
    hide Clobbers;
  }

  lemma NewCompletionIsQuiet(w: World, id: SagaId, e: EscrowId)
    requires Protocol(w) && Enabled(w, FinishPayout(id)) && Applies(w, id, e)
    ensures Quiet(After(w, FinishPayout(id)), e)
  {
    SettledIsUnlocked(w, id, e);
    hide Locked;
    hide PayHolds;
    hide IntentsOk;
  }

  /**
   * Once a saga has completed and its escrow is settled, a step changes the escrow's status exactly
   * if it is a caller's write of a different status, computed from a row read before the settlement.
   */
  lemma SettlementChangesOnlyByClobbering(w: World, a: Act, id: SagaId, e: EscrowId)
    requires Inv(w) && Enabled(w, a) && SettledAt(w, e) && Completes(w, id, e)
    ensures e in w.rows && e in After(w, a).rows
    ensures After(w, a).rows[e].status != w.rows[e].status <==> Clobbers(w, a, e)
    ensures Clobbers(w, a, e) ==> !IsTerminal(w.intents[a.caller].seen.status)
  {
    assert PaidOut(w.rows, w.sagas[id]) && Quiet(w, e);
    if Clobbers(w, a, e) {
      var i := w.intents[a.caller];
      assert Apply(i.op, i.seen).Success? by { assert IntentsOk(w); }
    } else {
      StatusStays(w, a, id, e);
    }
    hide Inv;
  }

  // ── Runs ──────────────────────────────────────────────────────────────────────

  /** Like `Leads`, with no clobbering write to the escrow on the way. */
  ghost predicate LeadsUnclobbered(w0: World, acts: seq<Act>, w: World, e: EscrowId)
    decreases |acts|
  {
    if acts == [] then w == w0
    else
      var n := |acts| - 1;
      exists prev :: LeadsUnclobbered(w0, acts[..n], prev, e) && Enabled(prev, acts[n]) && !Clobbers(prev, acts[n], e)
                     && w == After(prev, acts[n])
  }

  lemma {:induction false} RunsKeepSettled(w0: World, acts: seq<Act>, w: World, e: EscrowId)
    requires Inv(w0) && SettledAt(w0, e) && LeadsUnclobbered(w0, acts, w, e)
    ensures Inv(w) && SettledAt(w, e)
    decreases |acts|
  {
    if acts != [] {
      var n := |acts| - 1;
      hide Inv;
      hide Enabled;
      hide After;
      hide Clobbers;
      hide SettledAt;
      var prev :| LeadsUnclobbered(w0, acts[..n], prev, e) && Enabled(prev, acts[n]) && !Clobbers(prev, acts[n], e)
                  && w == After(prev, acts[n]);
      RunsKeepSettled(w0, acts[..n], prev, e);
      StepKeepsInv(prev, acts[n]);
      StepKeepsSettled(prev, acts[n], e);
    }
  }

  /** Over every interleaving in which nobody clobbers an escrow, its completed sagas are paid out as their
      votes decided, and stay so. */
  lemma CompletedArePaid(acts: seq<Act>, w: World, id: SagaId, e: EscrowId)
    requires LeadsUnclobbered(START, acts, w, e) && Completes(w, id, e)
    ensures e in w.rows && w.rows[e].status == PaidStatus(VerdictOf(w.sagas[id].votes))
  {
    hide LeadsUnclobbered;
    assert Inv(START) && SettledAt(START, e);
    RunsKeepSettled(START, acts, w, e);
    assert PaidOut(w.rows, w.sagas[id]);
    assert SagaVotes(w.rows, w.sagas[id]);
    hide Protocol;
  }

  /** Every write in flight on the escrow would leave it in the status it has. */
  ghost predicate NoneDisagrees(w: World, e: EscrowId)
  {
    forall c :: c in w.intents ==> !Disagrees(w, c, e)
  }

  lemma StepKeepsAgreement(w: World, a: Act, id: SagaId, e: EscrowId)
    requires Inv(w) && Enabled(w, a) && Completes(w, id, e) && PaidOut(w.rows, w.sagas[id]) && Quiet(w, e)
    requires NoneDisagrees(w, e)
    ensures NoneDisagrees(After(w, a), e) && !Clobbers(w, a, e)
    ensures e in w.rows && e in After(w, a).rows && After(w, a).rows[e].status == w.rows[e].status
  {
    StatusStays(w, a, id, e);
    var w' := After(w, a);
    assert Filed(w);
    IntentsAfter(w, a, e);
    hide Enabled;
    hide After;
    hide Inv;
    hide Computed;
    forall c | c in w'.intents ensures !Disagrees(w', c, e) {
      if w'.intents[c].seen.id == e {
        assert !Disagrees(w, c, e);
      }
    }
  }

  /** Nobody who reads a settled row gets past the guards. */
  lemma IntentsAfter(w: World, a: Act, e: EscrowId)
    requires Filed(w) && Enabled(w, a) && e in w.rows && IsTerminal(w.rows[e].status)
    ensures forall c :: c in After(w, a).intents && After(w, a).intents[c].seen.id == e ==>
      c in w.intents && After(w, a).intents[c] == w.intents[c]
  {
    if a.ReadOp? {
      NoIntentOnSettled(w, a, e);
    } else {
      OtherIntents(w, a);
    }
    hide Filed;
    hide Enabled;
    hide After;
  }

  lemma NoIntentOnSettled(w: World, a: Act, e: EscrowId)
    requires Filed(w) && Enabled(w, a) && e in w.rows && IsTerminal(w.rows[e].status) && a.ReadOp?
    ensures forall c :: c in After(w, a).intents && After(w, a).intents[c].seen.id == e ==>
      c in w.intents && After(w, a).intents[c] == w.intents[c]
  {
  }

  lemma OtherIntents(w: World, a: Act)
    requires Enabled(w, a) && !a.ReadOp?
    ensures forall c :: c in After(w, a).intents ==> c in w.intents && After(w, a).intents[c] == w.intents[c]
  {
    if OfEscalation(a) {
      EscalationFrame(w, a);
    } else if OfPayout(a) {
      PayoutFrame(w, a);
    } else {
      OtherFrame(w, a);
      if a.WriteOp? { WriteDropsIntent(w, a.caller); }
    }
    hide Enabled;
    hide After;
  }

  lemma WriteDropsIntent(w: World, c: Caller)
    requires Enabled(w, WriteOp(c))
    ensures After(w, WriteOp(c)).intents == w.intents - {c}
  {
    hide Computed;
  }

  lemma {:induction false} AgreementIsKept(w0: World, acts: seq<Act>, w: World, id: SagaId, e: EscrowId)
    requires Inv(w0) && Completes(w0, id, e) && PaidOut(w0.rows, w0.sagas[id]) && Quiet(w0, e) && NoneDisagrees(w0, e)
    requires Leads(w0, acts, w)
    ensures Inv(w) && Completes(w, id, e) && PaidOut(w.rows, w.sagas[id]) && Quiet(w, e) && NoneDisagrees(w, e)
    ensures e in w0.rows && e in w.rows && w.rows[e].status == w0.rows[e].status
    decreases |acts|
  {
    if acts != [] {
      var n := |acts| - 1;
      hide Inv;
      hide Enabled;
      hide After;
      hide Quiet;
      hide NoneDisagrees;
      hide Clobbers;
      var prev :| Leads(w0, acts[..n], prev) && Enabled(prev, acts[n]) && w == After(prev, acts[n]);
      AgreementIsKept(w0, acts[..n], prev, id, e);
      StepKeepsInv(prev, acts[n]);
      StepKeepsAgreement(prev, acts[n], id, e);
      CompletedStays(prev, acts[n], id, e);
    }
  }

  /** Whatever runs from here, the escrow keeps the status it has. */
  ghost predicate StatusIsFinal(w0: World, e: EscrowId)
  {
    forall acts, w :: Leads(w0, acts, w) ==> e in w0.rows && e in w.rows && w.rows[e].status == w0.rows[e].status
  }

  /**
   * A completed saga's settlement is final, over every continuation, exactly if no caller that read the
   * escrow beforehand is still to write another status.
   */
  lemma FinalIffNoneDisagrees(w0: World, id: SagaId, e: EscrowId)
    requires Inv(w0) && SettledAt(w0, e) && Completes(w0, id, e)
    ensures StatusIsFinal(w0, e) <==> NoneDisagrees(w0, e)
  {
    assert PaidOut(w0.rows, w0.sagas[id]) && Quiet(w0, e);
    if NoneDisagrees(w0, e) {
      forall acts, w | Leads(w0, acts, w)
        ensures e in w0.rows && e in w.rows && w.rows[e].status == w0.rows[e].status
      {
        AgreementIsKept(w0, acts, w, id, e);
      }
    } else {
      var c :| c in w0.intents && Disagrees(w0, c, e);
      DisagreementShows(w0, c, e);
    }
  }

  lemma DisagreementShows(w: World, c: Caller, e: EscrowId)
    requires c in w.intents && Disagrees(w, c, e)
    ensures !StatusIsFinal(w, e)
  {
    assert Leads(w, [], w);
    Then(w, [], w, WriteOp(c));
    hide Computed;
    var w' := After(w, WriteOp(c));
    assert e in w'.rows && w'.rows[e].status != w.rows[e].status;
  }
}
