// The dispute operations run alone: which steps of the interleaved protocol a call takes, and the
// stores it leaves.
module DisputePlans {
  import opened Common
  import opened Escrow
  import opened Dispute
  import opened DisputeRuns

  lemma One(w: World, a: Act)
    requires Enabled(w, a)
    ensures Leads(w, [a], After(w, a))
  {
    assert Leads(w, [], w);
    Then(w, [], w, a);
    assert [] + [a] == [a];
  }

  // ── Payout ────────────────────────────────────────────────────────────────────

  /** The stores after a payout: paid by the verdict, or put back to disputed for a manual review. */
  ghost function PaidStores(w: World, s: Saga, percentage: int, applyFault: bool, revertFault: bool): World
    requires s.verdict.Some? && s.escrowId in w.rows
  {
    var r := TryAt(w.rows, s.escrowId, PayoutOp(s.verdict.value, percentage));
    if !applyFault && r.Success? then
      w.(rows := w.rows[s.escrowId := r.value], sagas := w.sagas[s.sagaId := s.(step := Completed, paid := true)])
    else
      w.(rows := if revertFault then w.rows else w.rows[s.escrowId := CorrectedRow(w.rows[s.escrowId], Disputed, true, false)],
         sagas := w.sagas[s.sagaId := s.(step := Failed)])
  }

  ghost function PayoutActs(w: World, s: Saga, percentage: int, applyFault: bool, revertFault: bool): seq<Act>
    requires s.verdict.Some?
  {
    [StartPayout(s.sagaId)] + [PayRead(s.sagaId, percentage, applyFault)]
    + (if !applyFault && TryAt(w.rows, s.escrowId, PayoutOp(s.verdict.value, percentage)).Success?
       then [PayWrite(s.sagaId, false)] + [FinishPayout(s.sagaId)]
       else RevertActs(s.sagaId, revertFault))
  }

  ghost function RevertActs(id: SagaId, fault: bool): seq<Act>
  {
    if fault then [RevertRead(id, true)] + [FailPayout(id)]
    else [RevertRead(id, false)] + ([RevertWrite(id, false)] + [FailPayout(id)])
  }

  ghost predicate PaysAt(w: World, id: SagaId, phase: Paying)
  {
    Pays(w, id) && w.paying[id] == phase
  }

  lemma StartLeads(w: World, id: SagaId)
    requires Idle(w, id, Payout) && MayPay(w.sagas[id])
    ensures Leads(w, [StartPayout(id)], AtPay(w, id, Started))
  {
    One(w, StartPayout(id));
  }

  lemma PayReadLeads(w: World, id: SagaId, percentage: int, fault: bool)
    requires PaysAt(w, id, Started)
    ensures Leads(w, [PayRead(id, percentage, fault)], AfterPayRead(w, id, percentage, fault))
  {
    One(w, PayRead(id, percentage, fault));
    hide AfterPayRead;
  }

  lemma PayWriteLeads(w: World, id: SagaId, op: Op, seen: Escrow)
    requires PaysAt(w, id, Settling(op, seen))
    ensures Leads(w, [PayWrite(id, false)], AtPay(w, id, Applied).(rows := w.rows[w.sagas[id].escrowId := Computed(op, seen)]))
  {
    One(w, PayWrite(id, false));
    hide Computed;
  }

  lemma FinishLeads(w: World, id: SagaId)
    requires PaysAt(w, id, Applied)
    ensures Leads(w, [FinishPayout(id)], AfterPayout(w, id, Completed))
  {
    One(w, FinishPayout(id));
    hide AfterPayout;
  }

  lemma RevertReadLeads(w: World, id: SagaId, fault: bool)
    requires PaysAt(w, id, Refused) && w.sagas[id].escrowId in w.rows
    ensures Leads(w, [RevertRead(id, fault)], AtPay(w, id, if fault then Reverted else Reverting(w.rows[w.sagas[id].escrowId])))
  {
    One(w, RevertRead(id, fault));
  }

  lemma RevertWriteLeads(w: World, id: SagaId, seen: Escrow)
    requires PaysAt(w, id, Reverting(seen))
    ensures Leads(w, [RevertWrite(id, false)],
                  AtPay(w, id, Reverted).(rows := w.rows[w.sagas[id].escrowId := CorrectedRow(seen, Disputed, true, false)]))
  {
    One(w, RevertWrite(id, false));
    hide CorrectedRow;
  }

  lemma FailLeads(w: World, id: SagaId)
    requires PaysAt(w, id, Reverted)
    ensures Leads(w, [FailPayout(id)], AfterPayout(w, id, Failed))
  {
    One(w, FailPayout(id));
    hide AfterPayout;
  }

  /** Giving the lock up leaves the other payouts' locks. */
  lemma PayoutEnds(w: World, id: SagaId, phase: Paying, rows: Rows, step: Step)
    requires id in w.sagas && id !in w.paying && w.sagas[id].sagaId == id && !w.sagas[id].paid
    ensures AfterPayout(AtPay(w, id, phase).(rows := rows), id, step) ==
      w.(rows := rows, sagas := w.sagas[id := w.sagas[id].(step := step, paid := step == Completed)])
  {
    assert w.paying[id := phase] - {id} == w.paying;
  }

  /** A payout run alone takes these steps of the protocol to these stores. */
  lemma PayoutPlan(w: World, id: SagaId, percentage: int, applyFault: bool, revertFault: bool)
    requires Inv(w) && Idle(w, id, Payout) && MayPay(w.sagas[id])
    ensures w.sagas[id].sagaId == id && w.sagas[id].escrowId in w.rows
    ensures Leads(w, PayoutActs(w, w.sagas[id], percentage, applyFault, revertFault),
                  PaidStores(w, w.sagas[id], percentage, applyFault, revertFault))
  {
    assert Filed(w);
    hide Inv;
    hide Filed;
    hide Leads;
    var s := w.sagas[id];
    var op := PayoutOp(s.verdict.value, percentage);
    var granted := !applyFault && TryAt(w.rows, s.escrowId, op).Success?;
    PayoutBegins(w, id, percentage, applyFault);
    hide AfterPayRead;
    hide MayPay;
    if granted {
      GrantedPayout(w, id, op);
    } else {
      RefusedPayout(w, id, revertFault);
    }
    hide Apply;
    LeadsOn(w, [StartPayout(id)] + [PayRead(id, percentage, applyFault)],
            AtPay(w, id, if granted then Settling(op, w.rows[s.escrowId]) else Refused),
            if granted then [PayWrite(id, false)] + [FinishPayout(id)] else RevertActs(id, revertFault),
            PaidStores(w, s, percentage, applyFault, revertFault));
  }

  lemma PayoutBegins(w: World, id: SagaId, percentage: int, fault: bool)
    requires Filed(w) && Idle(w, id, Payout) && MayPay(w.sagas[id])
    ensures var s := w.sagas[id]; var op := PayoutOp(s.verdict.value, percentage);
      Leads(w, [StartPayout(id)] + [PayRead(id, percentage, fault)],
            AtPay(w, id, if !fault && TryAt(w.rows, s.escrowId, op).Success? then Settling(op, w.rows[s.escrowId]) else Refused))
  {
    hide Leads;
    hide Apply;
    var started := AtPay(w, id, Started);
    var s := w.sagas[id];
    var op := PayoutOp(s.verdict.value, percentage);
    var phase := if !fault && TryAt(w.rows, s.escrowId, op).Success? then Settling(op, w.rows[s.escrowId]) else Refused;
    StartLeads(w, id);
    PayReadLeads(started, id, percentage, fault);
    assert w.paying[id := Started][id := phase] == w.paying[id := phase];
    assert AfterPayRead(started, id, percentage, fault) == AtPay(w, id, phase);
    LeadsOn(w, [StartPayout(id)], started, [PayRead(id, percentage, fault)], AtPay(w, id, phase));
  }

  lemma GrantedPayout(w: World, id: SagaId, op: Op)
    requires id in w.sagas && id !in w.paying && w.sagas[id].sagaId == id && MayPay(w.sagas[id]) && w.sagas[id].escrowId in w.rows
    ensures var s := w.sagas[id]; var seen := w.rows[s.escrowId];
      Leads(AtPay(w, id, Settling(op, seen)), [PayWrite(id, false)] + [FinishPayout(id)],
            w.(rows := w.rows[s.escrowId := Computed(op, seen)], sagas := w.sagas[id := s.(step := Completed, paid := true)]))
  {
    hide Leads;
    hide Computed;
    var s := w.sagas[id];
    var seen := w.rows[s.escrowId];
    var settling := AtPay(w, id, Settling(op, seen));
    var applied := AtPay(w, id, Applied).(rows := w.rows[s.escrowId := Computed(op, seen)]);
    PayWriteLeads(settling, id, op, seen);
    assert w.paying[id := Settling(op, seen)][id := Applied] == w.paying[id := Applied];
    FinishLeads(applied, id);
    PayoutEnds(w, id, Applied, applied.rows, Completed);
    LeadsOn(settling, [PayWrite(id, false)], applied, [FinishPayout(id)], AfterPayout(applied, id, Completed));
  }

  lemma RefusedPayout(w: World, id: SagaId, fault: bool)
    requires id in w.sagas && id !in w.paying && w.sagas[id].sagaId == id && MayPay(w.sagas[id]) && w.sagas[id].escrowId in w.rows
    ensures var s := w.sagas[id];
      Leads(AtPay(w, id, Refused), RevertActs(id, fault),
            w.(rows := if fault then w.rows else w.rows[s.escrowId := CorrectedRow(w.rows[s.escrowId], Disputed, true, false)],
               sagas := w.sagas[id := s.(step := Failed)]))
  {
    hide Leads;
    hide CorrectedRow;
    var s := w.sagas[id];
    var refused := AtPay(w, id, Refused);
    RevertReadLeads(refused, id, fault);
    if fault {
      var reverted := AtPay(w, id, Reverted);
      assert w.paying[id := Refused][id := Reverted] == w.paying[id := Reverted];
      FailLeads(reverted, id);
      PayoutEnds(w, id, Reverted, w.rows, Failed);
      LeadsOn(refused, [RevertRead(id, true)], reverted, [FailPayout(id)], AfterPayout(reverted, id, Failed));
    } else {
      var seen := w.rows[s.escrowId];
      assert w.paying[id := Refused][id := Reverting(seen)] == w.paying[id := Reverting(seen)];
      RevertedPayout(w, id);
      LeadsOn(refused, [RevertRead(id, false)], AtPay(w, id, Reverting(seen)), [RevertWrite(id, false)] + [FailPayout(id)],
              w.(rows := w.rows[s.escrowId := CorrectedRow(seen, Disputed, true, false)],
                 sagas := w.sagas[id := s.(step := Failed)]));
    }
  }

  lemma RevertedPayout(w: World, id: SagaId)
    requires id in w.sagas && id !in w.paying && w.sagas[id].sagaId == id && MayPay(w.sagas[id]) && w.sagas[id].escrowId in w.rows
    ensures var s := w.sagas[id]; var seen := w.rows[s.escrowId];
      Leads(AtPay(w, id, Reverting(seen)), [RevertWrite(id, false)] + [FailPayout(id)],
            w.(rows := w.rows[s.escrowId := CorrectedRow(seen, Disputed, true, false)],
               sagas := w.sagas[id := s.(step := Failed)]))
  {
    hide Leads;
    hide CorrectedRow;
    var s := w.sagas[id];
    var seen := w.rows[s.escrowId];
    var reverting := AtPay(w, id, Reverting(seen));
    var reverted := AtPay(w, id, Reverted).(rows := w.rows[s.escrowId := CorrectedRow(seen, Disputed, true, false)]);
    RevertWriteLeads(reverting, id, seen);
    assert w.paying[id := Reverting(seen)][id := Reverted] == w.paying[id := Reverted];
    FailLeads(reverted, id);
    PayoutEnds(w, id, Reverted, reverted.rows, Failed);
    LeadsOn(reverting, [RevertWrite(id, false)], reverted, [FailPayout(id)], AfterPayout(reverted, id, Failed));
  }

  // ── Escalation ────────────────────────────────────────────────────────────────

  /** The faults an escalation may meet: freezing, committing and undoing can each fail. */
  datatype Faults = Faults(freeze: bool, commit: bool, undo: bool)

  datatype FreezeResult = FreezeResult(rows: Rows, own: Option<Escrow>, failed: bool)

  ghost function TryFreeze(rows: Rows, s: Saga, at: int, fault: bool): FreezeResult
  {
    var r := TryAt(rows, s.escrowId, RaiseDispute(at));
    if s.prior == Disputed then FreezeResult(rows, None, false)
    else if fault || r.Failure? then FreezeResult(rows, None, true)
    else FreezeResult(rows[s.escrowId := r.value], Some(r.value), false)
  }

  /** Lifts the dispute `own` if the row still carries it. */
  ghost function Unfrozen(rows: Rows, e: EscrowId, own: Option<Escrow>, prior: Status): Rows
  {
    if StillOwn(rows, e, own) then Corrected(rows, e, prior, false, true) else rows
  }

  /** The stores after an escalation that got past the guards. */
  ghost function EscalatedStores(w: World, e: EscrowId, s: Saga, at: int, f: Faults): World
  {
    var z := TryFreeze(w.rows, s, at, f.freeze);
    if z.failed || f.commit then
      w.(rows := if f.undo then z.rows else Unfrozen(z.rows, e, z.own, s.prior),
         sagas := w.sagas[s.sagaId := s.(step := Failed)], index := w.index[e := s.sagaId])
    else
      w.(rows := z.rows, sagas := w.sagas[s.sagaId := s.(step := JurorAssignment)], index := w.index[e := s.sagaId])
  }

  ghost predicate Admitted(w: World, e: EscrowId, who: Initiator)
  {
    !HasActive(w, e) && e in w.rows && MayEscalate(w.rows[e], who)
  }

  /** The stores after an escalation run alone. */
  ghost function Escalated(w: World, e: EscrowId, id: SagaId, who: Initiator, at: int, f: Faults): World
  {
    if Admitted(w, e, who) then EscalatedStores(w, e, NewSaga(id, w.rows[e], who), at, f) else w
  }

  ghost function FreezeActs(e: EscrowId, at: int, fault: bool, raised: bool): seq<Act>
  {
    if raised then [FreezeRead(e, at, false)] + [FreezeWrite(e, false)] else [FreezeRead(e, at, fault)]
  }

  ghost function UndoActs(e: EscrowId, fault: bool, lifted: bool): seq<Act>
  {
    if lifted then [UndoCheck(e, false)] + ([UndoRead(e, false)] + ([UndoWrite(e, false)] + [Abandon(e)]))
    else [UndoCheck(e, fault)] + [Abandon(e)]
  }

  ghost function EndActs(e: EscrowId, z: FreezeResult, f: Faults): seq<Act>
  {
    if z.failed then UndoActs(e, f.undo, !f.undo && StillOwn(z.rows, e, z.own))
    else if f.commit then [Commit(e, true)] + UndoActs(e, f.undo, !f.undo && StillOwn(z.rows, e, z.own))
    else [Commit(e, false)]
  }

  ghost function EscalationActs(w: World, e: EscrowId, id: SagaId, who: Initiator, at: int, f: Faults): seq<Act>
  {
    if HasActive(w, e) then []
    else if !Admitted(w, e, who) then [Lock(e)] + [Check(e, who)]
    else
      var z := TryFreeze(w.rows, NewSaga(id, w.rows[e], who), at, f.freeze);
      ([Lock(e)] + ([Check(e, who)] + [Open(e, id, who)])) + (FreezeActs(e, at, f.freeze, z.own.Some?) + EndActs(e, z, f))
  }

  /** `w` with the escrow's new saga, its rows as they are by now, and its escalation at `phase`. */
  ghost function Amid(w: World, e: EscrowId, s: Saga, rows: Rows, phase: Escalating): World
  {
    w.(rows := rows, sagas := w.sagas[s.sagaId := s], index := w.index[e := s.sagaId], escalating := w.escalating[e := phase])
  }

  lemma AmidMoves(w: World, e: EscrowId, s: Saga, rows: Rows, phase: Escalating, rows': Rows, phase': Escalating)
    ensures AtPhase(Amid(w, e, s, rows, phase), e, phase').(rows := rows') == Amid(w, e, s, rows', phase')
    ensures AtPhase(Amid(w, e, s, rows, phase), e, phase') == Amid(w, e, s, rows, phase')
  {
    assert w.escalating[e := phase][e := phase'] == w.escalating[e := phase'];
  }

  lemma AmidEnds(w: World, e: EscrowId, s: Saga, rows: Rows, phase: Escalating, step: Step)
    requires e !in w.escalating
    ensures PutSaga(Amid(w, e, s, rows, phase), s.(step := step)).(escalating := Amid(w, e, s, rows, phase).escalating - {e})
         == w.(rows := rows, sagas := w.sagas[s.sagaId := s.(step := step)], index := w.index[e := s.sagaId])
  {
    assert w.escalating[e := phase] - {e} == w.escalating;
    assert w.sagas[s.sagaId := s][s.sagaId := s.(step := step)] == w.sagas[s.sagaId := s.(step := step)];
  }

  ghost predicate At(w: World, e: EscrowId, phase: Escalating)
  {
    Escalates(w, e) && w.escalating[e] == phase
  }

  lemma LockLeads(w: World, e: EscrowId)
    requires e !in w.escalating && !HasActive(w, e)
    ensures Leads(w, [Lock(e)], AtPhase(w, e, Guarded))
  {
    One(w, Lock(e));
  }

  lemma CheckLeads(w: World, e: EscrowId, who: Initiator)
    requires e in w.escalating && w.escalating[e] == Guarded
    ensures Leads(w, [Check(e, who)], AfterCheck(w, e, who))
  {
    One(w, Check(e, who));
    hide AfterCheck;
  }

  lemma LockAndCheckLead(w: World, e: EscrowId, who: Initiator)
    requires e !in w.escalating && !HasActive(w, e)
    ensures Leads(w, [Lock(e)] + [Check(e, who)], if Admitted(w, e, who) then AtPhase(w, e, Checked(w.rows[e])) else w)
  {
    hide MayEscalate;
    hide Leads;
    var locked := AtPhase(w, e, Guarded);
    LockLeads(w, e);
    CheckLeads(locked, e, who);
    if Admitted(w, e, who) {
      assert w.escalating[e := Guarded][e := Checked(w.rows[e])] == w.escalating[e := Checked(w.rows[e])];
    } else {
      assert w.escalating[e := Guarded] - {e} == w.escalating;
    }
    LeadsOn(w, [Lock(e)], locked, [Check(e, who)], AfterCheck(locked, e, who));
  }

  lemma OpenLeads(w: World, e: EscrowId, id: SagaId, who: Initiator)
    requires e in w.rows && w.rows[e].id == e && id !in w.sagas
    ensures Leads(AtPhase(w, e, Checked(w.rows[e])), [Open(e, id, who)], Amid(w, e, NewSaga(id, w.rows[e], who), w.rows, Opened(id)))
  {
    var checked := AtPhase(w, e, Checked(w.rows[e]));
    One(checked, Open(e, id, who));
    assert w.escalating[e := Checked(w.rows[e])][e := Opened(id)] == w.escalating[e := Opened(id)];
  }

  lemma FreezeReadLeads(w: World, e: EscrowId, id: SagaId, at: int, fault: bool)
    requires At(w, e, Opened(id))
    ensures Leads(w, [FreezeRead(e, at, fault)], AfterFreezeRead(w, e, id, at, fault))
  {
    One(w, FreezeRead(e, at, fault));
    hide AfterFreezeRead;
  }

  lemma FreezeWriteLeads(w: World, e: EscrowId, id: SagaId, at: int, seen: Escrow)
    requires At(w, e, Freezing(id, at, seen))
    ensures Leads(w, [FreezeWrite(e, false)], AfterFreezeWrite(w, e, id, at, seen, false))
  {
    One(w, FreezeWrite(e, false));
    hide AfterFreezeWrite;
  }

  lemma CommitLeads(w: World, e: EscrowId, id: SagaId, own: Option<Escrow>, fault: bool)
    requires At(w, e, Frozen(id, own))
    ensures Leads(w, [Commit(e, fault)], AfterCommit(w, e, id, own, fault))
  {
    One(w, Commit(e, fault));
    hide AfterCommit;
  }

  lemma UndoCheckLeads(w: World, e: EscrowId, id: SagaId, own: Option<Escrow>, fault: bool)
    requires At(w, e, Undoing(id, own))
    ensures Leads(w, [UndoCheck(e, fault)], AfterUndoCheck(w, e, id, own, fault))
  {
    One(w, UndoCheck(e, fault));
    hide AfterUndoCheck;
  }

  lemma UndoReadLeads(w: World, e: EscrowId, id: SagaId)
    requires At(w, e, Lifting(id)) && e in w.rows
    ensures Leads(w, [UndoRead(e, false)], AtPhase(w, e, Restoring(id, w.rows[e])))
  {
    One(w, UndoRead(e, false));
  }

  lemma UndoWriteLeads(w: World, e: EscrowId, id: SagaId, seen: Escrow)
    requires At(w, e, Restoring(id, seen))
    ensures Leads(w, [UndoWrite(e, false)], AfterUndoWrite(w, e, id, seen, false))
  {
    One(w, UndoWrite(e, false));
    hide AfterUndoWrite;
  }

  lemma AbandonLeads(w: World, e: EscrowId, id: SagaId)
    requires At(w, e, Undone(id))
    ensures Leads(w, [Abandon(e)], AfterAbandon(w, e, id))
  {
    One(w, Abandon(e));
    hide AfterAbandon;
  }

  lemma FreezeLeads(w: World, e: EscrowId, s: Saga, at: int, fault: bool)
    requires s.escrowId == e
    ensures var z := TryFreeze(w.rows, s, at, fault);
      Leads(Amid(w, e, s, w.rows, Opened(s.sagaId)), FreezeActs(e, at, fault, z.own.Some?),
            Amid(w, e, s, z.rows, if z.failed then Undoing(s.sagaId, None) else Frozen(s.sagaId, z.own)))
  {
    hide Leads;
    hide Apply;
    var id, z := s.sagaId, TryFreeze(w.rows, s, at, fault);
    var begun := Amid(w, e, s, w.rows, Opened(id));
    if z.own.Some? {
      var seen := w.rows[e];
      var freezing := Amid(w, e, s, w.rows, Freezing(id, at, seen));
      FreezeReadLeads(begun, e, id, at, false);
      AmidMoves(w, e, s, w.rows, Opened(id), w.rows, Freezing(id, at, seen));
      FreezeWriteLeads(freezing, e, id, at, seen);
      AmidMoves(w, e, s, w.rows, Freezing(id, at, seen), z.rows, Frozen(id, z.own));
      LeadsOn(begun, [FreezeRead(e, at, false)], freezing, [FreezeWrite(e, false)], Amid(w, e, s, z.rows, Frozen(id, z.own)));
    } else {
      FreezeReadLeads(begun, e, id, at, fault);
      AmidMoves(w, e, s, w.rows, Opened(id), w.rows, if z.failed then Undoing(id, None) else Frozen(id, None));
    }
  }

  lemma AbandonEnds(w: World, e: EscrowId, s: Saga, rows: Rows)
    requires e !in w.escalating
    ensures Leads(Amid(w, e, s, rows, Undone(s.sagaId)), [Abandon(e)],
                  w.(rows := rows, sagas := w.sagas[s.sagaId := s.(step := Failed)], index := w.index[e := s.sagaId]))
  {
    AbandonLeads(Amid(w, e, s, rows, Undone(s.sagaId)), e, s.sagaId);
    AmidEnds(w, e, s, rows, Undone(s.sagaId), Failed);
    hide Leads;
  }

  lemma UndoLeads(w: World, e: EscrowId, s: Saga, rows: Rows, own: Option<Escrow>, fault: bool)
    requires e !in w.escalating
    ensures Leads(Amid(w, e, s, rows, Undoing(s.sagaId, own)), UndoActs(e, fault, !fault && StillOwn(rows, e, own)),
                  w.(rows := if fault then rows else Unfrozen(rows, e, own, s.prior),
                     sagas := w.sagas[s.sagaId := s.(step := Failed)], index := w.index[e := s.sagaId]))
  {
    hide Leads;
    hide CorrectedRow;
    var id := s.sagaId;
    var undoing := Amid(w, e, s, rows, Undoing(id, own));
    UndoCheckLeads(undoing, e, id, own, fault);
    if !fault && StillOwn(rows, e, own) {
      AmidMoves(w, e, s, rows, Undoing(id, own), rows, Lifting(id));
      LiftLeads(w, e, s, rows);
      LeadsOn(undoing, [UndoCheck(e, false)], Amid(w, e, s, rows, Lifting(id)),
              [UndoRead(e, false)] + ([UndoWrite(e, false)] + [Abandon(e)]),
              w.(rows := Corrected(rows, e, s.prior, false, true), sagas := w.sagas[id := s.(step := Failed)],
                 index := w.index[e := id]));
    } else {
      AmidMoves(w, e, s, rows, Undoing(id, own), rows, Undone(id));
      AbandonEnds(w, e, s, rows);
      LeadsOn(undoing, [UndoCheck(e, fault)], Amid(w, e, s, rows, Undone(id)), [Abandon(e)],
              w.(rows := rows, sagas := w.sagas[id := s.(step := Failed)], index := w.index[e := id]));
    }
  }

  lemma LiftLeads(w: World, e: EscrowId, s: Saga, rows: Rows)
    requires e !in w.escalating && e in rows
    ensures Leads(Amid(w, e, s, rows, Lifting(s.sagaId)), [UndoRead(e, false)] + ([UndoWrite(e, false)] + [Abandon(e)]),
                  w.(rows := Corrected(rows, e, s.prior, false, true), sagas := w.sagas[s.sagaId := s.(step := Failed)],
                     index := w.index[e := s.sagaId]))
  {
    hide Leads;
    hide CorrectedRow;
    var id, seen, lifted := s.sagaId, rows[e], Corrected(rows, e, s.prior, false, true);
    var lifting := Amid(w, e, s, rows, Lifting(id));
    var restoring := Amid(w, e, s, rows, Restoring(id, seen));
    var end := w.(rows := lifted, sagas := w.sagas[id := s.(step := Failed)], index := w.index[e := id]);
    UndoReadLeads(lifting, e, id);
    AmidMoves(w, e, s, rows, Lifting(id), rows, Restoring(id, seen));
    UndoWriteLeads(restoring, e, id, seen);
    AmidMoves(w, e, s, rows, Restoring(id, seen), lifted, Undone(id));
    AbandonEnds(w, e, s, lifted);
    LeadsOn(restoring, [UndoWrite(e, false)], Amid(w, e, s, lifted, Undone(id)), [Abandon(e)], end);
    LeadsOn(lifting, [UndoRead(e, false)], restoring, [UndoWrite(e, false)] + [Abandon(e)], end);
  }

  lemma EndLeads(w: World, e: EscrowId, s: Saga, at: int, f: Faults)
    requires e !in w.escalating && s.escrowId == e
    ensures var z := TryFreeze(w.rows, s, at, f.freeze);
      Leads(Amid(w, e, s, z.rows, if z.failed then Undoing(s.sagaId, None) else Frozen(s.sagaId, z.own)), EndActs(e, z, f),
            EscalatedStores(w, e, s, at, f))
  {
    hide Leads;
    hide Apply;
    hide Unfrozen;
    hide StillOwn;
    var id, z := s.sagaId, TryFreeze(w.rows, s, at, f.freeze);
    if z.failed || f.commit {
      UndoLeads(w, e, s, z.rows, z.own, f.undo);
    }
    if !z.failed {
      var frozen := Amid(w, e, s, z.rows, Frozen(id, z.own));
      CommitLeads(frozen, e, id, z.own, f.commit);
      if f.commit {
        AmidMoves(w, e, s, z.rows, Frozen(id, z.own), z.rows, Undoing(id, z.own));
        hide TryFreeze;
        LeadsOn(frozen, [Commit(e, true)], Amid(w, e, s, z.rows, Undoing(id, z.own)),
                UndoActs(e, f.undo, !f.undo && StillOwn(z.rows, e, z.own)), EscalatedStores(w, e, s, at, f));
      } else {
        AmidEnds(w, e, s, z.rows, Frozen(id, z.own), JurorAssignment);
      }
    }
  }

  /** An escalation run alone takes these steps of the protocol to these stores. */
  lemma EscalationPlan(w: World, e: EscrowId, id: SagaId, who: Initiator, at: int, f: Faults)
    requires Inv(w) && id !in w.sagas && e !in w.escalating
    ensures Leads(w, EscalationActs(w, e, id, who, at, f), Escalated(w, e, id, who, at, f))
  {
    assert Filed(w);
    hide Inv;
    if !HasActive(w, e) {
      LockAndCheckLead(w, e, who);
    }
    if Admitted(w, e, who) {
      hide HasActive;
      hide MayEscalate;
      hide Leads;
      var s := NewSaga(id, w.rows[e], who);
      var z := TryFreeze(w.rows, s, at, f.freeze);
      var begun := Amid(w, e, s, w.rows, Opened(id));
      OpenLeads(w, e, id, who);
      FreezeLeads(w, e, s, at, f.freeze);
      EndLeads(w, e, s, at, f);
      hide TryFreeze;
      hide EscalatedStores;
      hide Amid;
      hide FreezeActs;
      hide EndActs;
      EscalationJoins(w, e, s, who, z, begun, EscalatedStores(w, e, s, at, f), FreezeActs(e, at, f.freeze, z.own.Some?), EndActs(e, z, f));
    }
  }

  lemma EscalationJoins(w: World, e: EscrowId, s: Saga, who: Initiator, z: FreezeResult, begun: World, end: World,
                        freezing: seq<Act>, ending: seq<Act>)
    requires e in w.rows
    requires Leads(w, [Lock(e)] + [Check(e, who)], AtPhase(w, e, Checked(w.rows[e])))
    requires Leads(AtPhase(w, e, Checked(w.rows[e])), [Open(e, s.sagaId, who)], begun)
    requires var frozen := Amid(w, e, s, z.rows, if z.failed then Undoing(s.sagaId, None) else Frozen(s.sagaId, z.own));
      Leads(begun, freezing, frozen) && Leads(frozen, ending, end)
    ensures Leads(w, ([Lock(e)] + ([Check(e, who)] + [Open(e, s.sagaId, who)])) + (freezing + ending), end)
  {
    hide Leads;
    var frozen := Amid(w, e, s, z.rows, if z.failed then Undoing(s.sagaId, None) else Frozen(s.sagaId, z.own));
    LeadsOn(w, [Lock(e)] + [Check(e, who)], AtPhase(w, e, Checked(w.rows[e])), [Open(e, s.sagaId, who)], begun);
    assert ([Lock(e)] + [Check(e, who)]) + [Open(e, s.sagaId, who)] == [Lock(e)] + ([Check(e, who)] + [Open(e, s.sagaId, who)]);
    LeadsOn(begun, freezing, frozen, ending, end);
    LeadsOn(w, [Lock(e)] + ([Check(e, who)] + [Open(e, s.sagaId, who)]), begun, freezing + ending, end);
  }
}
