// The dispute saga service as an object over its stores: each operation, run alone, is one path
// through the interleaved protocol.
module DisputeService {
  import opened Common
  import opened Escrow
  import opened Voting
  import opened Dispute
  import opened DisputeSteps
  import opened DisputeRuns
  import opened DisputeSettlement
  import opened DisputePlans
  import opened DisputeOutcomes
  import opened DisputeReopening

  /** The invariant between calls; nobody's late write has taken a settlement back. */
  ghost predicate Sound(w: World)
  {
    Inv(w) && forall e :: SettledAt(w, e)
  }

  /** Steps that are all the saga's own keep it. */
  lemma {:induction false} OwnStepsKeepSound(w0: World, acts: seq<Act>, w: World)
    requires Sound(w0) && Leads(w0, acts, w) && forall i :: 0 <= i < |acts| ==> !acts[i].WriteOp?
    ensures Sound(w)
    decreases |acts|
  {
    if acts != [] {
      var n := |acts| - 1;
      hide Inv;
      hide Enabled;
      hide After;
      hide SettledAt;
      var prev :| Leads(w0, acts[..n], prev) && Enabled(prev, acts[n]) && w == After(prev, acts[n]);
      OwnStepsKeepSound(w0, acts[..n], prev);
      StepKeepsInv(prev, acts[n]);
      forall e ensures SettledAt(w, e) {
        StepKeepsSettled(prev, acts[n], e);
      }
    }
  }

  /** A guarded transition whose read and write have nothing in between keeps it too. */
  lemma TransitionKeepsSound(w: World, e: EscrowId, op: Op)
    requires Sound(w) && w.intents == map[]
    ensures Sound(w.(rows := ApplyAt(w.rows, e, op)))
  {
    if TryAt(w.rows, e, op).Success? {
      var read := w.(intents := w.intents[0 := Intent(op, w.rows[e])]);
      var end := w.(rows := w.rows[e := Computed(op, w.rows[e])]);
      assert Filed(w);
      assert w.intents[0 := Intent(op, w.rows[e])] - {0} == w.intents;
      ReadThenWrite(w, e, op);
      hide Inv;
      hide SettledAt;
      hide After;
      hide Enabled;
      hide Apply;
      hide Computed;
      StepKeepsInv(w, ReadOp(0, e, op));
      StepKeepsInv(read, WriteOp(0));
      forall x ensures SettledAt(end, x) {
        FreshWriteClobbersNothing(w, e, op, x);
        StepKeepsSettled(w, ReadOp(0, e, op), x);
        StepKeepsSettled(read, WriteOp(0), x);
      }
    }
  }

  lemma ReadThenWrite(w: World, e: EscrowId, op: Op)
    requires w.intents == map[] && TryAt(w.rows, e, op).Success? && w.rows[e].id == e
    ensures var read := w.(intents := w.intents[0 := Intent(op, w.rows[e])]);
      && Enabled(w, ReadOp(0, e, op)) && After(w, ReadOp(0, e, op)) == read && Enabled(read, WriteOp(0))
      && After(read, WriteOp(0)) == w.(rows := w.rows[e := Computed(op, w.rows[e])])
  {
    assert w.intents[0 := Intent(op, w.rows[e])] - {0} == w.intents;
    hide Computed;
  }

  lemma FreshWriteClobbersNothing(w: World, e: EscrowId, op: Op, x: EscrowId)
    requires TryAt(w.rows, e, op).Success? && w.rows[e].id == e
    ensures !Clobbers(w, ReadOp(0, e, op), x)
    ensures !Clobbers(w.(intents := w.intents[0 := Intent(op, w.rows[e])]), WriteOp(0), x)
  {
  }

  lemma FiledSaga(w: World, id: SagaId)
    requires Inv(w)
    ensures id in w.sagas ==> w.sagas[id].sagaId == id && w.sagas[id].escrowId in w.rows
  {}

  // ── Each call is such a path ──────────────────────────────────────────────────

  lemma EscalationActsAreOwn(w: World, e: EscrowId, id: SagaId, who: Initiator, at: int, f: Faults)
    ensures forall i :: 0 <= i < |EscalationActs(w, e, id, who, at, f)| ==> !EscalationActs(w, e, id, who, at, f)[i].WriteOp?
  {
    hide TryFreeze;
    hide Admitted;
    hide HasActive;
    hide StillOwn;
  }

  lemma EscalationKeepsSound(w: World, e: EscrowId, id: SagaId, who: Initiator, at: int, f: Faults)
    requires Sound(w) && id !in w.sagas && e !in w.escalating
    ensures Sound(Escalated(w, e, id, who, at, f))
  {
    hide Leads;
    hide Escalated;
    hide SettledAt;
    assert Inv(w);
    EscalationPlan(w, e, id, who, at, f);
    hide Inv;
    EscalationActsAreOwn(w, e, id, who, at, f);
    hide EscalationActs;
    OwnStepsKeepSound(w, EscalationActs(w, e, id, who, at, f), Escalated(w, e, id, who, at, f));
  }

  lemma AssignPlan(w: World, id: SagaId, jurors: seq<Address>, fault: bool)
    requires Sound(w) && w.paying == map[]
    ensures id in w.sagas ==> w.sagas[id].sagaId == id
    ensures id in w.sagas && w.sagas[id].step == JurorAssignment && MayAssign(w.rows, w.sagas[id], jurors) ==>
      Sound(PutSaga(w, AssignedSaga(w.sagas[id], jurors, fault)))
  {
    FiledSaga(w, id);
    hide Inv;
    hide MayAssign;
    hide SettledAt;
    if id in w.sagas && w.sagas[id].step == JurorAssignment && MayAssign(w.rows, w.sagas[id], jurors) {
      One(w, AssignJurors(id, jurors, fault));
      hide WithJurors;
      hide Leads;
      OwnStepsKeepSound(w, [AssignJurors(id, jurors, fault)], After(w, AssignJurors(id, jurors, fault)));
    }
  }

  lemma VotePlan(w: World, id: SagaId, vote: Vote)
    requires Sound(w) && w.paying == map[]
    ensures id in w.sagas ==> w.sagas[id].sagaId == id
    ensures id in w.sagas && w.sagas[id].step == InVoting && MayVote(w.sagas[id], vote.juror) ==>
      Sound(PutSaga(w, WithVote(w.sagas[id], vote)))
  {
    FiledSaga(w, id);
    hide Inv;
    hide MayVote;
    hide SettledAt;
    if id in w.sagas && w.sagas[id].step == InVoting && MayVote(w.sagas[id], vote.juror) {
      One(w, CastVote(id, vote));
      hide WithVote;
      hide Leads;
      OwnStepsKeepSound(w, [CastVote(id, vote)], After(w, CastVote(id, vote)));
    }
  }

  lemma PayoutKeepsSound(w: World, id: SagaId, percentage: int, applyFault: bool, revertFault: bool)
    requires Sound(w) && w.paying == map[] && Owed(w, id)
    ensures w.sagas[id].sagaId == id && w.sagas[id].escrowId in w.rows
    ensures Sound(PaidStores(w, w.sagas[id], percentage, applyFault, revertFault))
  {
    FiledSaga(w, id);
    hide Leads;
    hide PaidStores;
    hide SettledAt;
    PayoutPlan(w, id, percentage, applyFault, revertFault);
    hide Inv;
    var s := w.sagas[id];
    assert forall i :: 0 <= i < |PayoutActs(w, s, percentage, applyFault, revertFault)| ==>
      !PayoutActs(w, s, percentage, applyFault, revertFault)[i].WriteOp?;
    hide PayoutActs;
    OwnStepsKeepSound(w, PayoutActs(w, s, percentage, applyFault, revertFault),
                      PaidStores(w, s, percentage, applyFault, revertFault));
  }

  /**
   * What a payout does to its escrow and its saga. It fails exactly if the escrow was settled before the
   * call or the payout hit a fault; and it takes a settlement back exactly if there was one and putting the
   * escrow back to disputed does not hit a fault too.
   */
  lemma PayoutTakesBackIffSettled(w: World, id: SagaId, percentage: int, applyFault: bool, revertFault: bool)
    requires Owed(w, id) && w.sagas[id].sagaId == id && w.sagas[id].escrowId in w.rows
    ensures var e := w.sagas[id].escrowId; var before := w.rows[e].status;
      var end := PaidStores(w, w.sagas[id], percentage, applyFault, revertFault);
      && e in end.rows && id in end.sagas && end.sagas[id].step == (if applyFault || IsTerminal(before) then Failed else Completed)
      && (IsTerminal(before) && !IsTerminal(end.rows[e].status) <==> IsTerminal(before) && !revertFault)
      && end.rows[e].status == (if !applyFault && !IsTerminal(before) then PaidStatus(w.sagas[id].verdict.value)
                                else if revertFault then before else Disputed)
  {
  }

  lemma OwedPlan(w: World, id: SagaId, percentage: int, applyFault: bool, revertFault: bool)
    requires Sound(w) && w.paying == map[]
    ensures id in w.sagas && w.sagas[id].step == Payout ==>
      && Owed(w, id) && w.sagas[id].sagaId == id && w.sagas[id].escrowId in w.rows
      && Sound(PaidStores(w, w.sagas[id], percentage, applyFault, revertFault))
      && (IsTerminal(w.rows[w.sagas[id].escrowId].status) ==>
            (PaidStores(w, w.sagas[id], percentage, applyFault, revertFault).rows[w.sagas[id].escrowId].status == Disputed
             <==> !revertFault))
  {
    if id in w.sagas && w.sagas[id].step == Payout {
      assert Idle(w, id, Payout);
      IdleIsOwed(w, id);
      hide Inv;
      hide SettledAt;
      PayoutKeepsSound(w, id, percentage, applyFault, revertFault);
      PayoutTakesBackIffSettled(w, id, percentage, applyFault, revertFault);
      hide PaidStores;
    }
  }

  /** The guards admit a verdict's payout exactly while the escrow is not settled. */
  lemma GrantedIffOpen(rows: Rows, e: EscrowId, v: Verdict, percentage: int)
    requires e in rows
    ensures TryAt(rows, e, PayoutOp(v, percentage)).Success? <==> !IsTerminal(rows[e].status)
  {}

  /** An admitted escalation run alone fails to freeze only by a fault. */
  lemma ActiveIsFrozen(w: World, e: EscrowId, id: SagaId, who: Initiator, at: int, fault: bool)
    requires Inv(w)
    ensures Admitted(w, e, who) ==>
      && w.rows[e].id == e
      && (TryFreeze(w.rows, NewSaga(id, w.rows[e], who), at, fault).failed <==> w.rows[e].status == Active && fault)
  {
    assert Filed(w);
    hide Inv;
    hide HasActive;
  }

  lemma EscalationIsTold(w: World, e: EscrowId, id: SagaId, who: Initiator, at: int, f: Faults)
    requires Inv(w)
    ensures Admitted(w, e, who) <==> MayOpen(w, e, who)
    ensures if MayOpen(w, e, who) then IsEscalation(w, Escalated(w, e, id, who, at, f), e, id, who, at, f)
            else IsRefusal(w, e, EscalationError(w, e)) && Escalated(w, e, id, who, at, f) == w
  {
    RefusalIsTold(w, e, who);
    assert Filed(w);
    hide Inv;
    hide MayOpen;
    hide EscalationError;
    hide EscalatedStores;
    if Admitted(w, e, who) {
      EscalationInWords(w, e, id, who, at, f);
    }
    hide IsEscalation;
  }

  lemma AssignmentIsTold(w: World, id: SagaId, jurors: seq<Address>, fault: bool)
    requires Inv(w)
    ensures id in w.sagas ==>
      && w.sagas[id].escrowId in w.rows && IsAssigned(w.sagas[id], AssignedSaga(w.sagas[id], jurors, fault), jurors, fault)
      && (MayAssign(w.rows, w.sagas[id], jurors) <==> IsPanelFor(w.rows[w.sagas[id].escrowId], jurors))
  {
    FiledSaga(w, id);
    hide Inv;
    if id in w.sagas {
      PanelInWords(w.rows, w.sagas[id], jurors);
      AssignmentInWords(w.sagas[id], jurors, fault);
    }
  }

  lemma VoteIsTold(w: World, id: SagaId, vote: Vote)
    ensures id in w.sagas ==>
      && IsVoted(w.sagas[id], WithVote(w.sagas[id], vote), vote)
      && (vote.juror in Voters(w.sagas[id].votes) <==> exists cast :: cast in w.sagas[id].votes && cast.juror == vote.juror)
  {
    if id in w.sagas {
      var votes := w.sagas[id].votes;
      VoteInWords(w.sagas[id], vote);
      if cast :| cast in votes && cast.juror == vote.juror {
        var i :| 0 <= i < |votes| && votes[i] == cast;
        assert Voters(votes)[i] == vote.juror;
      }
    }
  }

  class DisputeSagaService {
    const escrowService: EscrowService
    var sagas: map<SagaId, Saga>
    var escrowIndex: map<EscrowId, SagaId>
    var nextId: SagaId

    /** The stores as the protocol sees them between calls, when no lock is held. */
    ghost function Stores(): World
      reads this, escrowService
    {
      World(escrowService.escrows, sagas, escrowIndex, map[], map[], map[])
    }

    ghost predicate Valid()
      reads this, escrowService
    {
      escrowService.Valid() && Sound(Stores()) && forall id :: id in sagas ==> id < nextId
    }

    constructor (escrowService: EscrowService)
      requires escrowService.Valid()
      ensures this.escrowService == escrowService && Valid() && sagas == map[] && escrowIndex == map[]
    {
      this.escrowService := escrowService;
      sagas, escrowIndex, nextId := map[], map[], 0;
    }

    method TryFindById(id: SagaId) returns (r: Option<Saga>)
      ensures r == if id in sagas then Some(sagas[id]) else None
    {
      r := if id in sagas then Some(sagas[id]) else None;
    }

    method FindByEscrowId(e: EscrowId) returns (r: Option<Saga>)
      ensures r == if e in escrowIndex && escrowIndex[e] in sagas then Some(sagas[escrowIndex[e]]) else None
    {
      if e !in escrowIndex { return None; }
      r := TryFindById(escrowIndex[e]);
    }

    /** The saga at the step an operation expects, or why it may not go on. */
    method AtStep(id: SagaId, expected: Step) returns (r: Result<Saga>)
      ensures r.Success? <==> id in sagas && sagas[id].step == expected
      ensures r.Success? ==> r.value == sagas[id]
      ensures r.Failure? ==> r.error == if id in sagas then BadRequest else NotFound
    {
      var found := TryFindById(id);
      if found.None? { return Failure(NotFound); }
      if found.value.step != expected { return Failure(BadRequest); }
      r := Success(found.value);
    }

    /** A saga's first write: its record, and its escrow's index entry. */
    method CreateSaga(s: Saga)
      modifies this`sagas, this`escrowIndex
      ensures sagas == old(sagas)[s.sagaId := s] && escrowIndex == old(escrowIndex)[s.escrowId := s.sagaId]
    {
      sagas := sagas[s.sagaId := s];
      escrowIndex := escrowIndex[s.escrowId := s.sagaId];
    }

    method PersistSaga(s: Saga)
      modifies this`sagas
      ensures sagas == old(sagas)[s.sagaId := s]
    {
      sagas := sagas[s.sagaId := s];
    }

    method Escalate(e: EscrowId, who: Initiator, at: int, f: Faults) returns (r: Result<Saga>)
      requires Valid()
      modifies this`sagas, this`escrowIndex, this`nextId, escrowService`escrows
      ensures Valid()
      ensures Stores() == Escalated(old(Stores()), e, old(nextId), who, at, f)
      ensures r.Success? ==> old(nextId) in sagas && r.value == sagas[old(nextId)] && r.value.step == JurorAssignment
      ensures !old(Admitted(Stores(), e, who)) ==> r == Failure(old(EscalationError(Stores(), e)))
      ensures old(Admitted(Stores(), e, who)) ==>
        var raises := old(escrowService.escrows[e].status) == Active;
        if (raises && f.freeze) || f.commit then r == Failure(Unavailable) else r.Success?
      ensures if old(MayOpen(Stores(), e, who))
        then IsEscalation(old(Stores()), Stores(), e, old(nextId), who, at, f)
        else Stores() == old(Stores()) && r.Failure? && IsRefusal(old(Stores()), e, r.error)
    {
      EscalationIsTold(Stores(), e, nextId, who, at, f);
      hide IsEscalation; hide IsRefusal; hide MayOpen;
      ActiveIsFrozen(Stores(), e, nextId, who, at, f.freeze);
      hide Inv; hide SettledAt;
      EscalationKeepsSound(Stores(), e, nextId, who, at, f);
      hide EscalatedStores; hide HasActive; hide MayEscalate; hide EscalationError; hide TryFreeze;
      var saga: Result<Saga> := OpenSaga(e, who);
      if saga.Failure? { return Failure(saga.error); }
      r := FreezeAndCommit(saga.value, at, f, old(Stores()));
    }

    /** The guards, then the new saga's first write, before the escrow is touched. */
    method OpenSaga(e: EscrowId, who: Initiator) returns (r: Result<Saga>)
      requires escrowService.Valid()
      modifies this`sagas, this`escrowIndex, this`nextId
      ensures r.Success? <==> old(Admitted(Stores(), e, who))
      ensures r.Failure? ==> r.error == old(EscalationError(Stores(), e))
      ensures r.Failure? ==> Stores() == old(Stores()) && nextId == old(nextId)
      ensures r.Success? ==>
        && nextId == old(nextId) + 1
        && r.value == NewSaga(old(nextId), escrowService.escrows[e], who)
        && sagas == old(sagas)[r.value.sagaId := r.value] && escrowIndex == old(escrowIndex)[e := r.value.sagaId]
    {
      var existing := FindByEscrowId(e);
      if existing.Some? && !Ended(existing.value) { return Failure(Conflict); }
      var found := escrowService.FindById(e);
      if found.None? { return Failure(NotFound); }
      var escrow := found.value;
      if escrow.status != Active && escrow.status != Disputed { return Failure(BadRequest); }
      if who.Party? && who.address != escrow.depositor && who.address != escrow.beneficiary { return Failure(Forbidden); }

      var saga := Saga(nextId, e, who, escrow.status, Escalation, [], [], None, false);
      nextId := nextId + 1;
      CreateSaga(saga);
      r := Success(saga);
    }

    /** Raises the dispute, unless the escrow was found disputed already. */
    method Freeze(saga: Saga, at: int, fault: bool) returns (own: Option<Escrow>, failed: bool)
      requires escrowService.Valid()
      modifies escrowService`escrows
      ensures escrowService.Valid()
      ensures FreezeResult(escrowService.escrows, own, failed) == TryFreeze(old(escrowService.escrows), saga, at, fault)
    {
      hide Apply;
      own, failed := None, false;
      if saga.prior != Disputed {
        if fault { return None, true; }
        var frozen := escrowService.RaiseDispute(saga.escrowId, at);
        if frozen.Success? { own := Some(frozen.value); } else { failed := true; }
      }
    }

    /** Freezes the escrow unless it is adopted already disputed, and commits or compensates. */
    method FreezeAndCommit(saga: Saga, at: int, f: Faults, ghost before: World) returns (r: Result<Saga>)
      requires escrowService.Valid()
      requires Stores() == before.(sagas := before.sagas[saga.sagaId := saga], index := before.index[saga.escrowId := saga.sagaId])
      modifies this`sagas, escrowService`escrows
      ensures escrowService.Valid() && Stores() == EscalatedStores(before, saga.escrowId, saga, at, f)
      ensures forall id :: id in sagas ==> id in old(sagas)
      ensures r.Success? ==> r.value == saga.(step := JurorAssignment) && saga.sagaId in sagas && sagas[saga.sagaId] == r.value
      ensures r.Success? <==> !TryFreeze(before.rows, saga, at, f.freeze).failed && !f.commit
      ensures r.Failure? ==> r.error == Unavailable
    {
      hide Unfrozen; hide Apply;
      assert before.sagas[saga.sagaId := saga][saga.sagaId := saga.(step := Failed)]
          == before.sagas[saga.sagaId := saga.(step := Failed)];
      assert before.sagas[saga.sagaId := saga][saga.sagaId := saga.(step := JurorAssignment)]
          == before.sagas[saga.sagaId := saga.(step := JurorAssignment)];
      hide TryFreeze;
      var own, failed := Freeze(saga, at, f.freeze);
      if failed || f.commit {
        CompensateEscalation(saga, own, f.undo);
        return Failure(Unavailable);
      }
      var committed := saga.(step := JurorAssignment);
      PersistSaga(committed);
      r := Success(committed);
    }

    /** Lifts only a dispute this saga raised and nobody has touched since, then fails the saga. */
    method CompensateEscalation(s: Saga, own: Option<Escrow>, fault: bool)
      requires escrowService.Valid()
      modifies this`sagas, escrowService`escrows
      ensures escrowService.Valid()
      ensures escrowService.escrows ==
        if fault then old(escrowService.escrows) else Unfrozen(old(escrowService.escrows), s.escrowId, own, s.prior)
      ensures sagas == old(sagas)[s.sagaId := s.(step := Failed)]
      ensures var rows, e := old(escrowService.escrows), s.escrowId;
        escrowService.escrows ==
          if !fault && own.Some? && e in rows && rows[e].status == Disputed && rows[e].disputedAt == own.value.disputedAt
          then rows[e := Bumped(rows[e].(status := s.prior, disputedAt := None))]
          else rows
    {
      var saga := s.(step := Compensating);
      if !fault && own.Some? {
        var current := escrowService.FindById(s.escrowId);
        if current.Some? && current.value.status == Disputed && current.value.disputedAt == own.value.disputedAt {
          var _ := escrowService.CorrectStatus(s.escrowId, s.prior, false, true);
        }
      }
      saga := saga.(step := Failed);
      PersistSaga(saga);
    }

    /** Repeated addresses count once; too few, an even number or a party of the escrow is refused. */
    method AssignJurors(id: SagaId, jurors: seq<Address>, fault: bool) returns (r: Result<Saga>)
      requires Valid()
      modifies this`sagas
      ensures Valid()
      ensures var w := old(Stores());
        if id in w.sagas && w.sagas[id].step == JurorAssignment && MayAssign(w.rows, w.sagas[id], jurors) then
          && r.Success? == !fault
          && Stores() == PutSaga(w, AssignedSaga(w.sagas[id], jurors, fault))
          && (fault ==> r.error == Unavailable)
        else
          Stores() == w && r == Failure(if id in w.sagas then BadRequest else NotFound)
      ensures r.Success? ==> id in sagas && r.value == sagas[id]
      ensures var w := old(Stores());
        if id in w.sagas && w.sagas[id].step == JurorAssignment && IsPanelFor(w.rows[w.sagas[id].escrowId], jurors) then
          && id in sagas && sagas == w.sagas[id := sagas[id]] && IsAssigned(w.sagas[id], sagas[id], jurors, fault)
          && r == if fault then Failure(Unavailable) else Success(sagas[id])
        else
          Stores() == w && r == Failure(if id in w.sagas then BadRequest else NotFound)
    {
      AssignmentIsTold(Stores(), id, jurors, fault);
      hide IsPanelFor; hide IsAssigned;
      AssignPlan(Stores(), id, jurors, fault);
      hide MayAssign; hide AssignedSaga; hide Inv; hide SettledAt; hide Unique;
      var at := AtStep(id, JurorAssignment);
      if at.Failure? { return at; }
      var saga := at.value;
      var panel := CheckPanel(saga, jurors);
      if panel.Failure? { return Failure(panel.error); }
      if fault {
        PersistSaga(saga.(jurors := [], step := Failed));
        return Failure(Unavailable);
      }
      saga := saga.(jurors := panel.value, step := InVoting);
      PersistSaga(saga);
      r := Success(saga);
    }

    /** The panel the listed addresses make, if it is acceptable for the saga's escrow. */
    method CheckPanel(saga: Saga, jurors: seq<Address>) returns (r: Result<seq<Address>>)
      ensures r.Success? <==> MayAssign(escrowService.escrows, saga, jurors)
      ensures r.Success? ==> r.value == Unique(jurors)
      ensures r.Failure? ==> r.error == BadRequest
    {
      hide Unique;
      var unique := WithoutRepeats(jurors);
      if |unique| < 3 { return Failure(BadRequest); }
      if |unique| % 2 == 0 { return Failure(BadRequest); }
      var escrow := escrowService.FindById(saga.escrowId);
      if escrow.Some? {
        for i := 0 to |unique|
          invariant forall k :: 0 <= k < i ==> unique[k] != escrow.value.depositor && unique[k] != escrow.value.beneficiary
        {
          if unique[i] == escrow.value.depositor || unique[i] == escrow.value.beneficiary { return Failure(BadRequest); }
        }
      }
      r := Success(unique);
    }

    static method WithoutRepeats(xs: seq<Address>) returns (r: seq<Address>)
      ensures r == Unique(xs)
    {
      r := [];
      for i := 0 to |xs|
        invariant r == Unique(xs[..i])
      {
        assert xs[..i + 1][..i] == xs[..i];
        if xs[i] !in r { r := r + [xs[i]]; }
      }
      assert xs[..|xs|] == xs;
    }

    /** Records one vote; the last one also computes the verdict and moves on to the payout. */
    method CastVote(id: SagaId, vote: Vote, caller: Option<Address>) returns (r: Result<Saga>)
      requires Valid()
      modifies this`sagas
      ensures Valid()
      ensures var w := old(Stores());
        if id in w.sagas && w.sagas[id].step == InVoting && MayVote(w.sagas[id], vote.juror)
           && (caller.None? || caller.value == vote.juror)
        then r.Success? && Stores() == PutSaga(w, WithVote(w.sagas[id], vote))
        else Stores() == w && r == Failure(VoteError(w, id, vote.juror, caller))
      ensures r.Success? ==> id in sagas && r.value == sagas[id]
      ensures var w := old(Stores());
        if id !in w.sagas then Stores() == w && r == Failure(NotFound)
        else if w.sagas[id].step != InVoting then Stores() == w && r == Failure(BadRequest)
        else if caller != None && caller != Some(vote.juror) then Stores() == w && r == Failure(Forbidden)
        else if vote.juror !in w.sagas[id].jurors then Stores() == w && r == Failure(BadRequest)
        else if exists cast :: cast in w.sagas[id].votes && cast.juror == vote.juror then Stores() == w && r == Failure(Conflict)
        else r.Success? && sagas == w.sagas[id := r.value] && IsVoted(w.sagas[id], r.value, vote)
    {
      VoteIsTold(Stores(), id, vote);
      hide IsVoted; hide Voters;
      hide Sound; hide VerdictOf;
      VotePlan(Stores(), id, vote);
      var at := AtStep(id, InVoting);
      if at.Failure? { return at; }
      var saga := at.value;
      if caller.Some? && caller.value != vote.juror { return Failure(Forbidden); }
      if vote.juror !in saga.jurors { return Failure(BadRequest); }
      var voted := HasVoted(saga.votes, vote.juror);
      if voted { return Failure(Conflict); }
      saga := saga.(votes := saga.votes + [vote]);
      if |saga.votes| == |saga.jurors| && saga.verdict.None? {
        var verdict := ComputeVerdict(saga.votes);
        saga := saga.(verdict := Some(verdict), step := Payout);
      }
      PersistSaga(saga);
      r := Success(saga);
    }

    static method HasVoted(votes: seq<Vote>, juror: Address) returns (voted: bool)
      ensures voted <==> juror in Voters(votes)
    {
      for i := 0 to |votes|
        invariant forall k :: 0 <= k < i ==> votes[k].juror != juror
      {
        if votes[i].juror == juror {
          assert Voters(votes)[i] == juror;
          return true;
        }
      }
      return false;
    }

    method ExecutePayout(id: SagaId, percentage: int, applyFault: bool, revertFault: bool) returns (r: Result<Saga>)
      requires Valid()
      modifies this`sagas, escrowService`escrows
      ensures Valid()
      ensures var w := old(Stores());
        if Owed(w, id) then
          && w.sagas[id].escrowId in w.rows
          && Stores() == PaidStores(w, w.sagas[id], percentage, applyFault, revertFault)
          && r.Success? == (!applyFault && !IsTerminal(w.rows[w.sagas[id].escrowId].status))
          && (IsTerminal(w.rows[w.sagas[id].escrowId].status) ==>
                (escrowService.escrows[w.sagas[id].escrowId].status == Disputed <==> !revertFault))
          && (r.Failure? ==> r.error == Unavailable)
        else Stores() == w && r == Failure(if id !in w.sagas then NotFound else BadRequest)
      ensures r.Success? ==> id in sagas && r.value == sagas[id] && r.value.step == Completed
      ensures var w := old(Stores());
        if id in w.sagas && w.sagas[id].step == Payout then
          && w.sagas[id].verdict.Some? && w.sagas[id].escrowId in w.rows
          && PaysOut(w, Stores(), w.sagas[id], percentage, applyFault, revertFault)
          && (r.Success? <==> !applyFault && w.rows[w.sagas[id].escrowId].status !in {Released, Cancelled})
        else Stores() == w && r == Failure(if id in w.sagas then BadRequest else NotFound)
    {
      hide PaysOut;
      hide Inv; hide SettledAt;
      OwedPlan(Stores(), id, percentage, applyFault, revertFault);
      hide PaidStores; hide Apply; hide CorrectedRow;
      var at := AtStep(id, Payout);
      if at.Failure? { return at; }
      var saga := at.value;
      if saga.verdict.None? { return Failure(BadRequest); }
      if saga.paid { return Failure(Conflict); }
      r := Settle(saga, percentage, applyFault, revertFault);
    }

    /** Pays out by the verdict; when that is refused, the escrow goes back to disputed for a manual
        review and the saga fails. */
    method Settle(saga: Saga, percentage: int, applyFault: bool, revertFault: bool) returns (r: Result<Saga>)
      requires escrowService.Valid() && saga.verdict.Some? && !saga.paid && saga.escrowId in escrowService.escrows
      modifies this`sagas, escrowService`escrows
      ensures escrowService.Valid() && Stores() == PaidStores(old(Stores()), saga, percentage, applyFault, revertFault)
      ensures r.Success? ==> saga.sagaId in sagas && sagas[saga.sagaId] == r.value && r.value.step == Completed
      ensures r.Success? == (!applyFault && !IsTerminal(old(escrowService.escrows[saga.escrowId].status)))
      ensures PaysOut(old(Stores()), Stores(), saga, percentage, applyFault, revertFault)
      ensures r.Failure? ==> r.error == Unavailable
      ensures saga.sagaId in old(sagas) ==> forall id :: id in sagas ==> id in old(sagas)
    {
      hide PaysOut; hide CorrectedRow; hide Bumped; hide IsTerminal; hide Distinct;
      PayoutSettlesByVerdict(Stores(), saga, percentage, applyFault, revertFault);
      GrantedIffOpen(escrowService.escrows, saga.escrowId, saga.verdict.value, percentage);
      hide Apply;
      var applied: Result<Escrow> := Failure(Unavailable);
      if !applyFault {
        match saga.verdict.value
        case BeneficiaryWins => applied := escrowService.Release(saga.escrowId);
        case DepositorWins => applied := escrowService.Cancel(saga.escrowId);
        case SplitFunds => applied := escrowService.Split(saga.escrowId, percentage);
      }
      if applied.Success? {
        var done := saga.(paid := true, step := Completed);
        PersistSaga(done);
        return Success(done);
      }
      if !revertFault {
        var escrow := escrowService.FindById(saga.escrowId);
        if escrow.Some? { var _ := escrowService.CorrectStatus(saga.escrowId, Disputed, true, false); }
      }
      PersistSaga(saga.(step := Failed));
      r := Failure(Unavailable);
    }
  }
}
