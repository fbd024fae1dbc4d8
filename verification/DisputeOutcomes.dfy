// What each call of the dispute service leaves and answers, field by field and by its own statuses,
// whatever the protocol's functions are called with.
module DisputeOutcomes {
  import opened Common
  import opened Escrow
  import opened Voting
  import opened Dispute
  import opened DisputePlans

  ghost predicate OnlyRow(rows: Rows, rows': Rows, e: EscrowId)
  {
    rows'.Keys == rows.Keys && forall x :: x in rows && x != e ==> rows'[x] == rows[x]
  }

  // ── Payout ────────────────────────────────────────────────────────────────────

  /** A payout is owed from this saga. */
  ghost predicate Owed(w: World, id: SagaId)
  {
    id in w.sagas && w.sagas[id].step == Payout && MayPay(w.sagas[id])
  }

  /** A win for the beneficiary releases the whole, one for the depositor gives it back, a split records its share. */
  ghost predicate SettledBy(v: Verdict, percentage: int, before: Escrow, after: Escrow)
  {
    && after == Bumped(before.(status := after.status, splitPercentage := after.splitPercentage))
    && (v == BeneficiaryWins ==> after.status == Released && after.splitPercentage == before.splitPercentage)
    && (v == DepositorWins ==> after.status == Cancelled && after.splitPercentage == before.splitPercentage)
    && (v == SplitFunds ==> after.status == Released && after.splitPercentage == Some(percentage))
  }

  /** An open escrow is settled by the verdict; one that cannot be goes back to disputed for a review. */
  ghost predicate PaysOut(w: World, w': World, s: Saga, percentage: int, applyFault: bool, revertFault: bool)
    requires s.verdict.Some? && s.escrowId in w.rows
  {
    && OnlyRow(w.rows, w'.rows, s.escrowId) && w'.index == w.index
    && var before, after := w.rows[s.escrowId], w'.rows[s.escrowId];
    if !applyFault && before.status !in {Released, Cancelled} then
      && SettledBy(s.verdict.value, percentage, before, after)
      && w'.sagas == w.sagas[s.sagaId := s.(step := Completed, paid := true)]
    else
      && after == (if revertFault then before else Bumped(before.(status := Disputed, review := true)))
      && w'.sagas == w.sagas[s.sagaId := s.(step := Failed)]
  }

  lemma OpenIsSettled(v: Verdict, percentage: int, row: Escrow)
    ensures var r := Apply(PayoutOp(v, percentage), row);
      && (r.Success? <==> row.status !in {Released, Cancelled})
      && (r.Success? ==> SettledBy(v, percentage, row, r.value))
  {
  }

  lemma PayoutSettlesByVerdict(w: World, s: Saga, percentage: int, applyFault: bool, revertFault: bool)
    requires s.verdict.Some? && s.escrowId in w.rows
    ensures PaysOut(w, PaidStores(w, s, percentage, applyFault, revertFault), s, percentage, applyFault, revertFault)
  {
    OpenIsSettled(s.verdict.value, percentage, w.rows[s.escrowId]);
    hide Apply;
    hide PayoutOp;
    hide SettledBy;
  }

  /** More votes are for `c` than for any other choice. */
  ghost predicate HasPlurality(votes: seq<Vote>, c: Choice)
  {
    forall other :: other != c ==> Count(votes, c) > Count(votes, other)
  }

  /**
   * From the votes to the money. With the jurors' strict plurality behind it the beneficiary is paid the
   * whole and the depositor gets it back; without one for either the escrow is split as asked.
   */
  lemma VotesSettleTheEscrow(w: World, id: SagaId, percentage: int, revertFault: bool)
    requires Inv(w) && Owed(w, id) && w.sagas[id].escrowId in w.rows
    requires w.rows[w.sagas[id].escrowId].status !in {Released, Cancelled}
    ensures var s := w.sagas[id]; var e, end := s.escrowId, PaidStores(w, s, percentage, false, revertFault);
      && e in end.rows && |s.votes| == |s.jurors|
      && (HasPlurality(s.votes, ForBeneficiary) ==>
            end.rows[e].status == Released && end.rows[e].splitPercentage == w.rows[e].splitPercentage)
      && (HasPlurality(s.votes, ForDepositor) ==>
            end.rows[e].status == Cancelled && end.rows[e].splitPercentage == w.rows[e].splitPercentage)
      && (!HasPlurality(s.votes, ForBeneficiary) && !HasPlurality(s.votes, ForDepositor) ==>
            end.rows[e].status == Released && end.rows[e].splitPercentage == Some(percentage))
  {
    var s := w.sagas[id];
    assert SagaVotes(w.rows, s);
    hide Inv;
    PayoutSettlesByVerdict(w, s, percentage, false, revertFault);
    WinnerHasStrictPlurality(s.votes);
    hide PaidStores;
    hide VerdictOf;
  }

  // ── Escalation ────────────────────────────────────────────────────────────────

  /** Why an escalation is not admitted, checked in this order. */
  ghost function EscalationError(w: World, e: EscrowId): Error
  {
    if HasActive(w, e) then Conflict
    else if e !in w.rows then NotFound
    else if !Disputable(w.rows[e].status) then BadRequest
    else Forbidden
  }

  /** The escrow has a saga that has neither completed nor failed. */
  ghost predicate Busy(w: World, e: EscrowId)
  {
    e in w.index && w.index[e] in w.sagas && w.sagas[w.index[e]].step !in {Completed, Failed}
  }

  /** Only the chain and the escrow's parties may escalate, and only an active or a disputed escrow that is not busy. */
  ghost predicate MayOpen(w: World, e: EscrowId, who: Initiator)
  {
    && !Busy(w, e) && e in w.rows && w.rows[e].status in {Active, Disputed}
    && (who.Party? ==> who.address in {w.rows[e].depositor, w.rows[e].beneficiary})
  }

  ghost predicate IsRefusal(w: World, e: EscrowId, error: Error)
  {
    if Busy(w, e) then error == Conflict
    else if e !in w.rows then error == NotFound
    else if w.rows[e].status !in {Active, Disputed} then error == BadRequest
    else error == Forbidden
  }

  lemma RefusalIsTold(w: World, e: EscrowId, who: Initiator)
    ensures Admitted(w, e, who) <==> MayOpen(w, e, who)
    ensures IsRefusal(w, e, EscalationError(w, e))
  {
  }

  /**
   * An admitted escalation raises the dispute on an active escrow and adopts the one of a disputed escrow as
   * it is. A fault fails the saga, and lifts again a dispute that it raised, unless that meets a fault too.
   */
  ghost predicate IsEscalation(w: World, w': World, e: EscrowId, id: SagaId, who: Initiator, at: int, f: Faults)
    requires e in w.rows
  {
    && OnlyRow(w.rows, w'.rows, e) && w'.index == w.index[e := id]
    && var before, after := w.rows[e], w'.rows[e];
    var raised := Bumped(before.(status := Disputed, disputedAt := Some(at)));
    var fails := f.commit || (before.status == Active && f.freeze);
    && w'.sagas == w.sagas[id := Saga(id, e, who, before.status, if fails then Failed else JurorAssignment, [], [], None, false)]
    && (before.status == Disputed ==> after == before)
    && (before.status == Active && !fails ==> after == raised)
    && (before.status == Active && f.freeze ==> after == before)
    && (before.status == Active && !f.freeze && f.commit ==>
          after == (if f.undo then raised else Bumped(raised.(status := Active, disputedAt := None))))
  }

  lemma EscalationInWords(w: World, e: EscrowId, id: SagaId, who: Initiator, at: int, f: Faults)
    requires Admitted(w, e, who) && w.rows[e].id == e
    ensures IsEscalation(w, Escalated(w, e, id, who, at, f), e, id, who, at, f)
  {
  }

  // ── Jurors ────────────────────────────────────────────────────────────────────

  lemma UniqueCounts(xs: seq<Address>)
    ensures |Unique(xs)| == |set x | x in xs|
  {
    SizeOfDistinct(Unique(xs));
    assert (set i | 0 <= i < |Unique(xs)| :: Unique(xs)[i]) == set x | x in xs by {
      forall x | x in xs ensures exists i :: 0 <= i < |Unique(xs)| && Unique(xs)[i] == x {
        assert x in Unique(xs);
      }
    }
  }

  /** The panel lists the addresses in the order in which they first occur: each prefix makes a prefix of it. */
  lemma {:induction false} UniqueIsInOrder(xs: seq<Address>, n: nat)
    requires n <= |xs|
    ensures Unique(xs[..n]) <= Unique(xs)
  {
    if n < |xs| {
      UniqueIsInOrder(xs[..|xs| - 1], n);
      assert xs[..|xs| - 1][..n] == xs[..n];
    } else {
      assert xs[..n] == xs;
    }
  }

  /** An odd number of at least three different addresses, neither of them a party's. */
  ghost predicate IsPanelFor(row: Escrow, jurors: seq<Address>)
  {
    var panel := set j | j in jurors;
    |panel| >= 3 && |panel| % 2 == 1 && row.depositor !in jurors && row.beneficiary !in jurors
  }

  lemma PanelInWords(rows: Rows, s: Saga, jurors: seq<Address>)
    requires s.escrowId in rows
    ensures MayAssign(rows, s, jurors) <==> IsPanelFor(rows[s.escrowId], jurors)
  {
    UniqueCounts(jurors);
  }

  /** The listed jurors are the saga's, each once, and voting opens; a fault leaves none and fails it. */
  ghost predicate IsAssigned(s: Saga, s': Saga, jurors: seq<Address>, fault: bool)
  {
    && s' == s.(jurors := s'.jurors, step := s'.step)
    && (fault ==> s'.jurors == [] && s'.step == Failed)
    && (!fault ==> Distinct(s'.jurors) && (forall j :: j in s'.jurors <==> j in jurors) && s'.step == InVoting)
  }

  lemma AssignmentInWords(s: Saga, jurors: seq<Address>, fault: bool)
    ensures IsAssigned(s, AssignedSaga(s, jurors, fault), jurors, fault)
  {
  }

  // ── Votes ─────────────────────────────────────────────────────────────────────

  /** Why a vote is refused, checked in this order. */
  ghost function VoteError(w: World, id: SagaId, juror: Address, caller: Option<Address>): Error
  {
    if id !in w.sagas then NotFound
    else if w.sagas[id].step != InVoting then BadRequest
    else if caller.Some? && caller.value != juror then Forbidden
    else if juror !in w.sagas[id].jurors then BadRequest
    else Conflict
  }

  /** The vote is added to those cast; the last juror's also decides. */
  ghost predicate IsVoted(s: Saga, s': Saga, vote: Vote)
  {
    && s' == s.(votes := s.votes + [vote], verdict := s'.verdict, step := s'.step)
    && (|s.votes| + 1 < |s.jurors| ==> s'.step == s.step && s'.verdict == s.verdict)
    && (|s.votes| + 1 == |s.jurors| && s.verdict.None? ==>
          && s'.step == Payout && s'.verdict.Some?
          && (s'.verdict == Some(BeneficiaryWins) <==> HasPlurality(s'.votes, ForBeneficiary))
          && (s'.verdict == Some(DepositorWins) <==> HasPlurality(s'.votes, ForDepositor)))
  }

  lemma VoteInWords(s: Saga, vote: Vote)
    ensures IsVoted(s, WithVote(s, vote), vote)
  {
    var votes := s.votes + [vote];
    WinnerHasStrictPlurality(votes);
    assert VerdictOf(votes) == DepositorWins <==> HasPlurality(votes, ForDepositor);
    assert VerdictOf(votes) == BeneficiaryWins <==> HasPlurality(votes, ForBeneficiary);
    hide HasPlurality;
    hide VerdictOf;
  }
}
