// How a settled escrow becomes unsettled again: which steps do it, and the runs that reach them.
module DisputeReopening {
  import opened Common
  import opened Escrow
  import opened Dispute
  import opened DisputeFrames
  import opened DisputeSteps
  import opened DisputeRuns
  import opened DisputeSettlement
  import opened DisputePlans

  /** The action writes the row of `e`. */
  ghost predicate Writes(w: World, a: Act, e: EscrowId)
    requires Enabled(w, a)
  {
    match a
    case WriteOp(c) => w.intents[c].seen.id == e
    case FreezeWrite(x, fault) => x == e && !fault
    case UndoWrite(x, fault) => x == e && !fault
    case PayWrite(id, fault) => w.sagas[id].escrowId == e && !fault
    case RevertWrite(id, fault) => w.sagas[id].escrowId == e && !fault
    case _ => false
  }

  /** The row its write is computed from. */
  ghost function SeenBy(w: World, a: Act): Escrow
    requires Enabled(w, a) && WritesRow(a)
  {
    match a
    case WriteOp(c) => w.intents[c].seen
    case FreezeWrite(x, _) => w.escalating[x].seen
    case UndoWrite(x, _) => w.escalating[x].seen
    case PayWrite(id, _) => w.paying[id].seen
    case RevertWrite(id, _) => w.paying[id].seen
  }

  /** No other write came between the action's read and its write. */
  ghost predicate Current(w: World, a: Act, e: EscrowId)
    requires Enabled(w, a) && e in w.rows
  {
    Writes(w, a, e) && WritesRow(a) ==> SeenBy(w, a) == w.rows[e]
  }

  /**
   * A released or cancelled escrow changes status in two ways: by a write computed from a row that is no
   * longer there, or by one of the two compensations, which write past the guards. A write whose row is
   * still there changes it exactly if it is a compensation.
   */
  lemma SettledIsReopenedOnlyByCompensation(w: World, a: Act, e: EscrowId)
    requires Inv(w) && Enabled(w, a) && e in w.rows && IsTerminal(w.rows[e].status)
    ensures e in After(w, a).rows
    ensures After(w, a).rows[e].status != w.rows[e].status ==> Writes(w, a, e)
    ensures Current(w, a, e) ==>
      (After(w, a).rows[e].status != w.rows[e].status <==> Writes(w, a, e) && (a.UndoWrite? || a.RevertWrite?))
  {
    assert Protocol(w);
    hide Inv;
    if !WritesRow(a) {
      OthersKeepRows(w, a);
      hide Protocol;
      NoWrite(w, a, e);
      hide Enabled;
      hide After;
      hide Writes;
    } else if a.WriteOp? {
      CallersSpareSettled(w, a.caller, e);
      hide Protocol;
    } else if a.FreezeWrite? || a.UndoWrite? {
      EscalationsOnSettled(w, a, e);
    } else {
      PayoutsOnSettled(w, a, e);
    }
  }

  lemma NoWrite(w: World, a: Act, e: EscrowId)
    requires Enabled(w, a) && !WritesRow(a)
    ensures !Writes(w, a, e)
  {
  }

  lemma CallersSpareSettled(w: World, c: Caller, e: EscrowId)
    requires Protocol(w) && Enabled(w, WriteOp(c)) && e in w.rows && IsTerminal(w.rows[e].status)
    ensures w.intents[c].seen != w.rows[e]
    ensures w.intents[c].seen.id != e ==> After(w, WriteOp(c)).rows[e] == w.rows[e]
  {
    hide Locked;
    hide PayingOk;
    assert Apply(w.intents[c].op, w.intents[c].seen).Success?;
  }

  lemma EscalationsOnSettled(w: World, a: Act, e: EscrowId)
    requires Protocol(w) && Enabled(w, a) && e in w.rows && IsTerminal(w.rows[e].status) && (a.FreezeWrite? || a.UndoWrite?)
    ensures !Writes(w, a, e) ==> After(w, a).rows[e] == w.rows[e]
    ensures Writes(w, a, e) && a.FreezeWrite? ==> SeenBy(w, a) != w.rows[e]
    ensures Writes(w, a, e) && a.UndoWrite? ==> After(w, a).rows[e].status != w.rows[e].status
  {
    assert LockHolds(w, a.e, w.escalating[a.e]);
    assert Filed(w);
    hide Locked;
    hide OneActive;
    hide PayingOk;
    hide IntentsOk;
  }

  lemma PayoutsOnSettled(w: World, a: Act, e: EscrowId)
    requires Protocol(w) && Enabled(w, a) && e in w.rows && IsTerminal(w.rows[e].status) && (a.PayWrite? || a.RevertWrite?)
    ensures !Writes(w, a, e) ==> After(w, a).rows[e] == w.rows[e]
    ensures Writes(w, a, e) && a.PayWrite? ==> SeenBy(w, a) != w.rows[e]
    ensures Writes(w, a, e) && a.RevertWrite? ==> After(w, a).rows[e].status != w.rows[e].status
  {
    hide Locked;
    hide OneActive;
    hide IntentsOk;
  }

  // ── A caller's operation, in two steps ────────────────────────────────────────

  lemma ReadLeads(w: World, c: Caller, e: EscrowId, op: Op)
    requires c !in w.intents && TryAt(w.rows, e, op).Success?
    ensures Leads(w, [ReadOp(c, e, op)], w.(intents := w.intents[c := Intent(op, w.rows[e])]))
  {
    One(w, ReadOp(c, e, op));
  }

  lemma WriteLeads(w: World, c: Caller, e: EscrowId, op: Op, seen: Escrow)
    requires c in w.intents && w.intents[c] == Intent(op, seen) && seen.id == e
    ensures Leads(w, [WriteOp(c)], w.(rows := w.rows[e := Computed(op, seen)], intents := w.intents - {c}))
  {
    One(w, WriteOp(c));
    hide Computed;
  }

  lemma OperationLeads(w: World, c: Caller, e: EscrowId, op: Op)
    requires c !in w.intents && TryAt(w.rows, e, op).Success? && w.rows[e].id == e
    ensures Leads(w, [ReadOp(c, e, op)] + [WriteOp(c)], w.(rows := w.rows[e := Computed(op, w.rows[e])]))
  {
    hide Leads;
    var read := w.(intents := w.intents[c := Intent(op, w.rows[e])]);
    ReadLeads(w, c, e, op);
    WriteLeads(read, c, e, op, w.rows[e]);
    assert w.intents[c := Intent(op, w.rows[e])] - {c} == w.intents;
    hide Apply;
    LeadsOn(w, [ReadOp(c, e, op)], read, [WriteOp(c)], w.(rows := w.rows[e := Computed(op, w.rows[e])]));
  }

  // ── Runs ──────────────────────────────────────────────────────────────────────

  /** The caller reads the escrow, the saga pays it out and completes, and then the caller writes. */
  ghost function Overwriting(w: World, s: Saga, c: Caller, op: Op): seq<Act>
    requires s.verdict.Some?
  {
    ([ReadOp(c, s.escrowId, op)] + PayoutActs(w, s, 50, false, false)) + [WriteOp(c)]
  }

  /** Where the completed payout leads, the caller's write still outstanding. */
  ghost function PaidMeanwhile(w: World, s: Saga, c: Caller, op: Op): World
    requires s.verdict.Some? && s.escrowId in w.rows
  {
    PaidStores(w.(intents := w.intents[c := Intent(op, w.rows[s.escrowId])]), s, 50, false, false)
  }

  /** And where the write leads from there. */
  ghost function OverwrittenBy(paid: World, c: Caller, e: EscrowId, op: Op, seen: Escrow): World
  {
    paid.(rows := paid.rows[e := Computed(op, seen)], intents := paid.intents - {c})
  }

  /** A payout waits on an open escrow, and the caller's operation is one the guards admit. */
  ghost predicate MayStraddle(w: World, id: SagaId, c: Caller, op: Op)
  {
    && Idle(w, id, Payout) && c !in w.intents && TryAt(w.rows, w.sagas[id].escrowId, op).Success?
    && !IsTerminal(w.rows[w.sagas[id].escrowId].status)
  }

  /**
   * With no fault at all: whenever a payout waits on an open escrow, a caller's operation the guards admit
   * can straddle it. The saga completes and pays out, and the caller's write then replaces the settlement
   * by its own status, under a saga that stays completed.
   */
  lemma PaidOutIsOverwritten(w: World, id: SagaId, c: Caller, op: Op)
    requires Inv(w) && MayStraddle(w, id, c, op)
    ensures w.sagas[id].verdict.Some?
    ensures var s, e := w.sagas[id], w.sagas[id].escrowId; var paid := PaidMeanwhile(w, s, c, op);
      Leads(w, Overwriting(w, s, c, op)[..5], paid) && Completes(paid, id, e) && PaidOut(paid.rows, paid.sagas[id])
    ensures var s, e := w.sagas[id], w.sagas[id].escrowId;
      var end := OverwrittenBy(PaidMeanwhile(w, s, c, op), c, e, op, w.rows[e]);
      Leads(w, Overwriting(w, s, c, op), end) && Completes(end, id, e) && end.rows[e] == Computed(op, w.rows[e])
  {
    IdleIsOwed(w, id);
    hide Inv;
    hide Leads;
    hide MayPay;
    var s, e := w.sagas[id], w.sagas[id].escrowId;
    StraddledPayout(w, id, c, op);
    var paid, seen := PaidMeanwhile(w, s, c, op), w.rows[e];
    hide PaidMeanwhile;
    hide MayStraddle;
    hide PaidOut;
    WriteLeads(paid, c, e, op, seen);
    var pays := PayoutActs(w, s, 50, false, false);
    hide PayoutActs;
    hide Computed;
    LeadsOn(w, [ReadOp(c, e, op)] + pays, paid, [WriteOp(c)], OverwrittenBy(paid, c, e, op, seen));
    assert (([ReadOp(c, e, op)] + pays) + [WriteOp(c)])[..5] == [ReadOp(c, e, op)] + pays;
  }

  lemma StraddledPayout(w: World, id: SagaId, c: Caller, op: Op)
    requires Inv(w) && MayStraddle(w, id, c, op) && w.sagas[id].verdict.Some?
    ensures var s, e := w.sagas[id], w.sagas[id].escrowId; var paid := PaidMeanwhile(w, s, c, op);
      && |PayoutActs(w, s, 50, false, false)| == 4
      && Leads(w, [ReadOp(c, e, op)] + PayoutActs(w, s, 50, false, false), paid)
      && Completes(paid, id, e) && PaidOut(paid.rows, paid.sagas[id])
      && c in paid.intents && paid.intents[c] == Intent(op, w.rows[e])
  {
    var s, e := w.sagas[id], w.sagas[id].escrowId;
    IdleIsOwed(w, id);
    var read := w.(intents := w.intents[c := Intent(op, w.rows[e])]);
    hide Inv;
    hide Leads;
    hide Apply;
    ReadLeads(w, c, e, op);
    RunsKeepInv(w, [ReadOp(c, e, op)], read);
    PayoutPlan(read, id, 50, false, false);
    PayoutOfOpen(read, s, 50);
    assert PayoutActs(w, s, 50, false, false) == PayoutActs(read, s, 50, false, false);
    hide PayoutActs;
    hide PaidStores;
    LeadsOn(w, [ReadOp(c, e, op)], read, PayoutActs(w, s, 50, false, false), PaidStores(read, s, 50, false, false));
  }

  lemma IdleIsOwed(w: World, id: SagaId)
    requires Inv(w) && Idle(w, id, Payout)
    ensures MayPay(w.sagas[id]) && w.sagas[id].sagaId == id && w.sagas[id].escrowId in w.rows
    ensures forall e :: e in w.rows ==> w.rows[e].id == e
    ensures HasActive(w, w.sagas[id].escrowId) && w.index[w.sagas[id].escrowId] == id
    ensures w.sagas[id].escrowId !in w.escalating
  {
    assert SagaVotes(w.rows, w.sagas[id]);
    NotEscalating(w, id);
    hide Locked;
    hide IntentsOk;
    hide PayingOk;
  }

  /** An active saga past its escalation keeps others from starting one. */
  lemma NotEscalating(w: World, id: SagaId)
    requires Inv(w) && id in w.sagas && !Ended(w.sagas[id]) && w.sagas[id].step != Escalation
    ensures w.sagas[id].escrowId !in w.escalating
  {
    assert Protocol(w);
    assert HasActive(w, w.sagas[id].escrowId) && w.index[w.sagas[id].escrowId] == id by {
      hide Locked;
      hide PayingOk;
      hide IntentsOk;
    }
    hide Inv;
    hide Protocol;
    forall x | x in w.escalating ensures x != w.sagas[id].escrowId {
      LockSays(w, x);
    }
  }

  /** A payout of an open escrow, with no fault. */
  lemma PayoutOfOpen(w: World, s: Saga, percentage: int)
    requires s.verdict.Some? && s.escrowId in w.rows && !IsTerminal(w.rows[s.escrowId].status)
    ensures |PayoutActs(w, s, percentage, false, false)| == 4
    ensures var end := PaidStores(w, s, percentage, false, false);
      && end.intents == w.intents && s.sagaId in end.sagas && end.sagas[s.sagaId] == s.(step := Completed, paid := true)
      && s.escrowId in end.rows && end.rows[s.escrowId].status == PaidStatus(s.verdict.value)
  {
  }

  /** The direct release that gets ahead of a saga's payout, in two steps, and the world it leaves. */
  ghost function ReleaseActs(e: EscrowId, c: Caller): seq<Act>
  {
    [ReadOp(c, e, Release)] + [WriteOp(c)]
  }

  ghost function ReleasedWorld(w: World, e: EscrowId): World
    requires e in w.rows
  {
    w.(rows := w.rows[e := Computed(Release, w.rows[e])])
  }

  /**
   * And with no write lost at all: while a saga waits for its payout, release the escrow directly, then
   * execute the payout. The escrow that was paid out is disputed again, free of any active saga, and open
   * to a second dispute and a second payout.
   */
  lemma {:induction false} ReleasedEscrowCanBeReopened(w: World, id: SagaId, c: Caller)
    requires Inv(w) && MayStraddle(w, id, c, Release)
    ensures var s, e := w.sagas[id], w.sagas[id].escrowId; var released := ReleasedWorld(w, e);
      && s.verdict.Some? && Leads(w, ReleaseActs(e, c), released) && released.rows[e].status == Released
      && Leads(released, PayoutActs(released, s, 50, false, false), PaidStores(released, s, 50, false, false))
    ensures var s, e := w.sagas[id], w.sagas[id].escrowId;
      s.verdict.Some? ==> Reopened(PaidStores(ReleasedWorld(w, e), s, 50, false, false), e)
  {
    var s, e := w.sagas[id], w.sagas[id].escrowId;
    IdleIsOwed(w, id);
    OperationLeads(w, c, e, Release);
    hide Leads;
    RunsKeepInv(w, ReleaseActs(e, c), ReleasedWorld(w, e));
    hide Inv;
    PayoutOfSettled(ReleasedWorld(w, e), id, 50);
  }

  /** The escrow is disputed, no saga of it is active and no escalation is under way. */
  ghost predicate Reopened(w: World, e: EscrowId)
  {
    e in w.rows && w.rows[e].status == Disputed && e !in w.escalating && !HasActive(w, e)
  }

  /** A payout of an escrow that is settled already puts it back to disputed, and fails its saga. */
  lemma PayoutOfSettled(w: World, id: SagaId, percentage: int)
    requires Inv(w) && Idle(w, id, Payout) && w.sagas[id].escrowId in w.rows && IsTerminal(w.rows[w.sagas[id].escrowId].status)
    ensures w.sagas[id].verdict.Some?
    ensures Leads(w, PayoutActs(w, w.sagas[id], percentage, false, false), PaidStores(w, w.sagas[id], percentage, false, false))
    ensures Reopened(PaidStores(w, w.sagas[id], percentage, false, false), w.sagas[id].escrowId)
  {
    IdleIsOwed(w, id);
    hide Leads;
    PayoutPlan(w, id, percentage, false, false);
    hide Inv;
    hide PayoutActs;
    hide Idle;
    RefusedStores(w, w.sagas[id], percentage);
    hide PaidStores;
  }

  /** What a refused payout leaves of the escrow's only active saga. */
  lemma RefusedStores(w: World, s: Saga, percentage: int)
    requires s.verdict.Some? && s.escrowId in w.rows && IsTerminal(w.rows[s.escrowId].status)
    requires s.escrowId !in w.escalating && s.escrowId in w.index && w.index[s.escrowId] == s.sagaId
    ensures Reopened(PaidStores(w, s, percentage, false, false), s.escrowId)
  {
  }

  // ── Lifting a dispute ─────────────────────────────────────────────────────────

  /** The saga's write at the end of an escalation throws. */
  predicate FailsToCommit(a: Act) { a.Commit? && a.fault }

  /** No escalation has a dispute of its own to lift, or is lifting one. */
  ghost predicate NothingToLift(w: World)
  {
    forall e :: e in w.escalating ==> KeepsDispute(w.escalating[e])
  }

  predicate KeepsDispute(phase: Escalating)
  {
    match phase
    case Undoing(_, own) => own == None
    case Lifting(_) => false
    case Restoring(_, _) => false
    case _ => true
  }

  lemma StepLiftsNothing(w: World, a: Act)
    requires Enabled(w, a) && NothingToLift(w) && !FailsToCommit(a)
    ensures NothingToLift(After(w, a))
  {
    if OfEscalation(a) {
      EscalationLiftsNothing(w, a);
    } else {
      if OfPayout(a) { PayoutFrame(w, a); } else { OtherFrame(w, a); }
    }
    hide Enabled;
    hide After;
  }

  lemma EscalationLiftsNothing(w: World, a: Act)
    requires Enabled(w, a) && NothingToLift(w) && !FailsToCommit(a) && OfEscalation(a)
    ensures NothingToLift(After(w, a))
  {
    EscalationFrame(w, a);
    if a.e in w.escalating { assert KeepsDispute(w.escalating[a.e]); }
    OwnLockKeepsDispute(w, a);
    hide Enabled;
    hide After;
    forall x | x in After(w, a).escalating ensures KeepsDispute(After(w, a).escalating[x]) {
      assert x != a.e ==> x in After(w, a).escalating - {a.e};
    }
  }

  lemma OwnLockKeepsDispute(w: World, a: Act)
    requires Enabled(w, a) && !FailsToCommit(a) && OfEscalation(a) && (a.e in w.escalating ==> KeepsDispute(w.escalating[a.e]))
    ensures a.e in After(w, a).escalating ==> KeepsDispute(After(w, a).escalating[a.e])
  {
    hide Enabled;
    hide After;
    hide KeepsDispute;
    if Opens(a) {
      OpeningKeepsDispute(w, a);
    } else if Freezes(a) {
      FreezingKeepsDispute(w, a);
    } else {
      UndoingKeepsDispute(w, a);
    }
  }

  lemma OpeningKeepsDispute(w: World, a: Act)
    requires Enabled(w, a) && Opens(a)
    ensures a.e in After(w, a).escalating ==> KeepsDispute(After(w, a).escalating[a.e])
  {
    hide Enabled;
    hide After;
    hide MayEscalate;
    match a
    case Lock(e) => LockIs(w, e);
    case Check(e, who) => CheckIs(w, e, who);
    case Open(e, id, who) => OpenIs(w, e, id, who);
    case _ =>
  }

  lemma FreezingKeepsDispute(w: World, a: Act)
    requires Enabled(w, a) && Freezes(a) && !FailsToCommit(a)
    ensures a.e in After(w, a).escalating ==> KeepsDispute(After(w, a).escalating[a.e])
  {
    hide Enabled;
    hide After;
    hide Apply;
    hide Computed;
    match a
    case FreezeRead(e, at, fault) => FreezeReadIs(w, e, at, fault);
    case FreezeWrite(e, fault) => FreezeWriteIs(w, e, fault);
    case Commit(e, fault) => CommitIs(w, e, fault);
    case _ =>
  }

  lemma UndoingKeepsDispute(w: World, a: Act)
    requires Enabled(w, a) && Undoes(a) && (a.e in w.escalating ==> KeepsDispute(w.escalating[a.e]))
    ensures a.e in After(w, a).escalating ==> KeepsDispute(After(w, a).escalating[a.e])
  {
    hide Enabled;
    hide After;
    hide CorrectedRow;
    match a
    case UndoCheck(e, fault) => UndoCheckIs(w, e, fault);
    case UndoRead(e, fault) => UndoReadIs(w, e, fault);
    case UndoWrite(e, fault) => UndoWriteIs(w, e, fault);
    case Abandon(e) => AbandonIs(w, e);
    case _ =>
  }

  /**
   * The dispute a failed escalation raised is lifted only if the write that records the escalation throws. The
   * service's own writes never do, they fall back to memory, so over all its runs no escalation ever lifts one.
   */
  lemma {:induction false} NothingIsLifted(acts: seq<Act>, w: World)
    requires Leads(START, acts, w) && forall i :: 0 <= i < |acts| ==> !FailsToCommit(acts[i])
    ensures NothingToLift(w)
    decreases |acts|
  {
    if acts != [] {
      var n := |acts| - 1;
      hide Enabled;
      hide After;
      hide NothingToLift;
      var prev :| Leads(START, acts[..n], prev) && Enabled(prev, acts[n]) && w == After(prev, acts[n]);
      NothingIsLifted(acts[..n], prev);
      StepLiftsNothing(prev, acts[n]);
    }
  }

  /** An escalation of an active escrow up to the check whether its dispute still stands, when the write that
      records it throws. */
  ghost function FailedActs(e: EscrowId, id: SagaId, who: Initiator, at: int): seq<Act>
  {
    ([Lock(e)] + ([Check(e, who)] + [Open(e, id, who)]))
    + ((([FreezeRead(e, at, false)] + [FreezeWrite(e, false)]) + [Commit(e, true)]) + [UndoCheck(e, false)])
  }

  /** Where that leads: the escrow is disputed, and about to be read again. */
  ghost function AboutToLift(w: World, e: EscrowId, id: SagaId, who: Initiator, at: int): World
    requires e in w.rows
  {
    Amid(w, e, NewSaga(id, w.rows[e], who), w.rows[e := Computed(RaiseDispute(at), w.rows[e])], Lifting(id))
  }

  lemma FailedEscalationLeads(w: World, e: EscrowId, id: SagaId, who: Initiator, at: int)
    requires Inv(w) && id !in w.sagas && e !in w.escalating && Admitted(w, e, who) && w.rows[e].status == Active
    ensures Leads(w, FailedActs(e, id, who, at), AboutToLift(w, e, id, who, at))
  {
    assert Filed(w);
    hide Inv;
    hide HasActive;
    hide MayEscalate;
    hide Leads;
    BegunLeads(w, e, id, who);
    var s := NewSaga(id, w.rows[e], who);
    FreezeThenFail(w, e, s, at);
    hide Amid;
    hide Computed;
    LeadsOn(w, [Lock(e)] + ([Check(e, who)] + [Open(e, id, who)]), Amid(w, e, s, w.rows, Opened(id)),
            (([FreezeRead(e, at, false)] + [FreezeWrite(e, false)]) + [Commit(e, true)]) + [UndoCheck(e, false)],
            AboutToLift(w, e, id, who, at));
  }

  lemma BegunLeads(w: World, e: EscrowId, id: SagaId, who: Initiator)
    requires id !in w.sagas && e !in w.escalating && Admitted(w, e, who) && w.rows[e].id == e
    ensures Leads(w, [Lock(e)] + ([Check(e, who)] + [Open(e, id, who)]), Amid(w, e, NewSaga(id, w.rows[e], who), w.rows, Opened(id)))
  {
    hide Leads;
    LockAndCheckLead(w, e, who);
    OpenLeads(w, e, id, who);
    hide Amid;
    hide HasActive;
    hide MayEscalate;
    LeadsOn(w, [Lock(e)] + [Check(e, who)], AtPhase(w, e, Checked(w.rows[e])), [Open(e, id, who)],
            Amid(w, e, NewSaga(id, w.rows[e], who), w.rows, Opened(id)));
    assert ([Lock(e)] + [Check(e, who)]) + [Open(e, id, who)] == [Lock(e)] + ([Check(e, who)] + [Open(e, id, who)]);
  }

  lemma FreezeThenFail(w: World, e: EscrowId, s: Saga, at: int)
    requires e in w.rows && s.escrowId == e && s.prior == Active && w.rows[e].status == Active
    ensures Leads(Amid(w, e, s, w.rows, Opened(s.sagaId)),
                  (([FreezeRead(e, at, false)] + [FreezeWrite(e, false)]) + [Commit(e, true)]) + [UndoCheck(e, false)],
                  Amid(w, e, s, w.rows[e := Computed(RaiseDispute(at), w.rows[e])], Lifting(s.sagaId)))
  {
    hide Leads;
    var row := Computed(RaiseDispute(at), w.rows[e]);
    var rows := w.rows[e := row];
    FreezeLeads(w, e, s, at, false);
    assert TryFreeze(w.rows, s, at, false) == FreezeResult(rows, Some(row), false);
    assert StillOwn(rows, e, Some(row));
    hide TryFreeze;
    hide Computed;
    hide Apply;
    FailedCommitLeads(w, e, s, rows, Some(row));
    hide Amid;
    hide StillOwn;
    LeadsOn(Amid(w, e, s, w.rows, Opened(s.sagaId)), [FreezeRead(e, at, false)] + [FreezeWrite(e, false)],
            Amid(w, e, s, rows, Frozen(s.sagaId, Some(row))), [Commit(e, true)] + [UndoCheck(e, false)],
            Amid(w, e, s, rows, Lifting(s.sagaId)));
    assert ([FreezeRead(e, at, false)] + [FreezeWrite(e, false)]) + ([Commit(e, true)] + [UndoCheck(e, false)])
        == (([FreezeRead(e, at, false)] + [FreezeWrite(e, false)]) + [Commit(e, true)]) + [UndoCheck(e, false)];
  }

  lemma FailedCommitLeads(w: World, e: EscrowId, s: Saga, rows: Rows, own: Option<Escrow>)
    requires StillOwn(rows, e, own)
    ensures Leads(Amid(w, e, s, rows, Frozen(s.sagaId, own)), [Commit(e, true)] + [UndoCheck(e, false)],
                  Amid(w, e, s, rows, Lifting(s.sagaId)))
  {
    var id := s.sagaId;
    var frozen, undoing := Amid(w, e, s, rows, Frozen(id, own)), Amid(w, e, s, rows, Undoing(id, own));
    CommitLeads(frozen, e, id, own, true);
    AmidMoves(w, e, s, rows, Frozen(id, own), rows, Undoing(id, own));
    UndoCheckLeads(undoing, e, id, own, false);
    AmidMoves(w, e, s, rows, Undoing(id, own), rows, Lifting(id));
    hide Leads;
    LeadsOn(frozen, [Commit(e, true)], undoing, [UndoCheck(e, false)], Amid(w, e, s, rows, Lifting(id)));
  }

  /** A release between the check and the second read. */
  ghost function Lifted(e: EscrowId, c: Caller): seq<Act>
  {
    ReleaseActs(e, c) + ([UndoRead(e, false)] + [UndoWrite(e, false)])
  }

  ghost function LiftedWorld(w: World, e: EscrowId, id: SagaId): World
    requires e in w.rows && id in w.sagas
  {
    AfterUndoWrite(AtPhase(w, e, Restoring(id, w.rows[e])), e, id, w.rows[e], false)
  }

  /**
   * If such a write did throw, a release that comes between the check of the dispute and the second read of
   * the escrow would be undone: the lift puts back the status the escalation found.
   */
  lemma ReleasedEscrowIsLifted(w: World, e: EscrowId, id: SagaId, who: Initiator, at: int, c: Caller)
    requires Inv(w) && id !in w.sagas && e !in w.escalating && Admitted(w, e, who) && w.rows[e].status == Active
    requires c !in w.intents
    ensures var about := AboutToLift(w, e, id, who, at);
      && Leads(w, FailedActs(e, id, who, at) + ReleaseActs(e, c), ReleasedWorld(about, e))
      && ReleasedWorld(about, e).rows[e].status == Released
    ensures var end := LiftedWorld(ReleasedWorld(AboutToLift(w, e, id, who, at), e), e, id);
      Leads(w, FailedActs(e, id, who, at) + Lifted(e, c), end) && e in end.rows && end.rows[e].status == Active
  {
    FailedEscalationLeads(w, e, id, who, at);
    var about := AboutToLift(w, e, id, who, at);
    RunsKeepInv(w, FailedActs(e, id, who, at), about);
    AboutToLiftIs(w, e, id, who, at);
    hide Inv;
    hide Leads;
    hide FailedActs;
    hide AboutToLift;
    hide Admitted;
    LiftLosesRelease(about, e, id, c);
    hide Lifted;
    hide ReleaseActs;
    LeadsOn(w, FailedActs(e, id, who, at), about, ReleaseActs(e, c), ReleasedWorld(about, e));
    LeadsOn(w, FailedActs(e, id, who, at), about, Lifted(e, c), LiftedWorld(ReleasedWorld(about, e), e, id));
  }

  lemma AboutToLiftIs(w: World, e: EscrowId, id: SagaId, who: Initiator, at: int)
    requires Admitted(w, e, who) && w.rows[e].status == Active
    ensures var about := AboutToLift(w, e, id, who, at);
      && about.intents == w.intents && e in about.rows && about.rows[e].status == Disputed
      && e in about.escalating && about.escalating[e] == Lifting(id) && id in about.sagas && about.sagas[id].prior == Active
  {
    hide HasActive;
    hide MayEscalate;
  }

  lemma LiftLosesRelease(w: World, e: EscrowId, id: SagaId, c: Caller)
    requires Inv(w) && e in w.escalating && w.escalating[e] == Lifting(id) && c !in w.intents
    requires e in w.rows && !IsTerminal(w.rows[e].status)
    ensures id in w.sagas
    ensures Leads(w, ReleaseActs(e, c), ReleasedWorld(w, e)) && ReleasedWorld(w, e).rows[e].status == Released
    ensures var end := LiftedWorld(ReleasedWorld(w, e), e, id);
      Leads(w, Lifted(e, c), end) && e in end.rows && end.rows[e].status == w.sagas[id].prior && !IsTerminal(end.rows[e].status)
  {
    LiftingHolds(w, e, id);
    hide Inv;
    hide Leads;
    var released := ReleasedWorld(w, e);
    OperationLeads(w, c, e, Release);
    hide Computed;
    hide Apply;
    LiftRest(released, e, id);
    LeadsOn(w, ReleaseActs(e, c), released, [UndoRead(e, false)] + [UndoWrite(e, false)], LiftedWorld(released, e, id));
  }

  /** The check that passes finds the escrow disputed. */
  ghost predicate Checks(w: World, e: EscrowId, id: SagaId)
  {
    e in w.escalating && w.escalating[e].Undoing? && w.escalating[e].saga == id && StillOwn(w.rows, e, w.escalating[e].own)
  }

  /**
   * Exactly when a lift reopens a settled escrow: whatever runs between the check and the write, the write
   * makes a settled escrow open if and only if the escrow, disputed at the check, is settled by then.
   */
  lemma LiftReopensIffSettledMeanwhile(w0: World, acts: seq<Act>, w: World, e: EscrowId, id: SagaId)
    requires Inv(w0) && Checks(w0, e, id) && Enabled(w0, UndoCheck(e, false))
    requires Leads(After(w0, UndoCheck(e, false)), acts, w) && Enabled(w, UndoWrite(e, false)) && e in w.rows
    ensures e in w0.rows && w0.rows[e].status == Disputed
    ensures var end := After(w, UndoWrite(e, false));
      e in end.rows && (IsTerminal(w.rows[e].status) && !IsTerminal(end.rows[e].status) <==> IsTerminal(w.rows[e].status))
  {
    StepKeepsInv(w0, UndoCheck(e, false));
    RunsKeepInv(After(w0, UndoCheck(e, false)), acts, w);
    hide Leads;
    RestoresOpen(w, e);
    hide Inv;
    hide Enabled;
    hide After;
  }

  lemma RestoresOpen(w: World, e: EscrowId)
    requires Inv(w) && Enabled(w, UndoWrite(e, false))
    ensures var end := After(w, UndoWrite(e, false)); e in end.rows && !IsTerminal(end.rows[e].status)
  {
    assert LockHolds(w, e, w.escalating[e]);
    assert Filed(w);
    hide Locked;
    hide OneActive;
    hide PayingOk;
    hide IntentsOk;
  }

  lemma LiftingHolds(w: World, e: EscrowId, id: SagaId)
    requires Inv(w) && e in w.escalating && w.escalating[e] == Lifting(id)
    ensures id in w.sagas && Disputable(w.sagas[id].prior) && forall x :: x in w.rows ==> w.rows[x].id == x
  {
    assert LockHolds(w, e, w.escalating[e]);
    assert Filed(w);
    hide Locked;
    hide OneActive;
    hide PayingOk;
    hide IntentsOk;
  }

  lemma LiftRest(w: World, e: EscrowId, id: SagaId)
    requires e in w.escalating && w.escalating[e] == Lifting(id) && id in w.sagas && e in w.rows
    ensures Leads(w, [UndoRead(e, false)] + [UndoWrite(e, false)], LiftedWorld(w, e, id))
    ensures e in LiftedWorld(w, e, id).rows && LiftedWorld(w, e, id).rows[e].status == w.sagas[id].prior
  {
    hide Leads;
    var restoring := AtPhase(w, e, Restoring(id, w.rows[e]));
    UndoReadLeads(w, e, id);
    UndoWriteLeads(restoring, e, id, w.rows[e]);
    LeadsOn(w, [UndoRead(e, false)], restoring, [UndoWrite(e, false)], LiftedWorld(w, e, id));
  }
}
