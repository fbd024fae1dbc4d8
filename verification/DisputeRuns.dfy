// What holds over every run of the dispute protocol, however its steps interleave.
module DisputeRuns {
  import opened Common
  import opened Voting
  import opened Dispute
  import opened DisputeFrames
  import opened DisputeSteps

  const START := World(map[], map[], map[], map[], map[], map[])

  /** `w` is where the actions lead from `w0`. */
  ghost predicate Leads(w0: World, acts: seq<Act>, w: World)
    decreases |acts|
  {
    if acts == [] then w == w0
    else
      var n := |acts| - 1;
      exists prev :: Leads(w0, acts[..n], prev) && Enabled(prev, acts[n]) && w == After(prev, acts[n])
  }

  lemma Then(w0: World, acts: seq<Act>, w: World, a: Act)
    requires Leads(w0, acts, w) && Enabled(w, a)
    ensures Leads(w0, acts + [a], After(w, a))
  {
    hide Enabled;
    hide After;
    assert (acts + [a])[..|acts|] == acts;
  }

  lemma {:induction false} LeadsOn(w0: World, acts: seq<Act>, w: World, more: seq<Act>, end: World)
    requires Leads(w0, acts, w) && Leads(w, more, end)
    ensures Leads(w0, acts + more, end)
    decreases |more|
  {
    hide Enabled;
    hide After;
    if more == [] {
      assert acts + more == acts;
    } else {
      var n := |more| - 1;
      var prev :| Leads(w, more[..n], prev) && Enabled(prev, more[n]) && end == After(prev, more[n]);
      LeadsOn(w0, acts, w, more[..n], prev);
      Then(w0, acts + more[..n], prev, more[n]);
      assert acts + more[..n] + [more[n]] == acts + more;
    }
  }

  lemma {:induction false} RunsKeepInv(w0: World, acts: seq<Act>, w: World)
    requires Inv(w0) && Leads(w0, acts, w)
    ensures Inv(w)
    decreases |acts|
  {
    if acts != [] {
      var n := |acts| - 1;
      hide Inv;
      hide Enabled;
      hide After;
      var prev :| Leads(w0, acts[..n], prev) && Enabled(prev, acts[n]) && w == After(prev, acts[n]);
      RunsKeepInv(w0, acts[..n], prev);
      StepKeepsInv(prev, acts[n]);
    }
  }

  /** Two sagas of one escrow are never both active, and the index names the one that is. */
  ghost predicate AtMostOneActive(w: World)
  {
    forall a, b :: BothActive(w, a, b) ==>
      a == b && w.sagas[a].escrowId in w.index && w.index[w.sagas[a].escrowId] == a
  }

  /** Two sagas, each of them active, about one escrow. */
  ghost predicate BothActive(w: World, a: SagaId, b: SagaId)
  {
    && a in w.sagas && b in w.sagas && !Ended(w.sagas[a]) && !Ended(w.sagas[b])
    && w.sagas[a].escrowId == w.sagas[b].escrowId
  }

  /** From the payout step on every juror has voted, and the verdict is that of the votes. */
  ghost predicate VerdictsStand(w: World)
  {
    forall id :: id in w.sagas && w.sagas[id].step in {Payout, Completed} ==> VerdictStands(w.sagas[id])
  }

  ghost predicate VerdictStands(s: Saga)
  {
    s.verdict == Some(VerdictOf(s.votes)) && forall j :: j in s.jurors ==> j in Voters(s.votes)
  }

  /**
   * Over every interleaving of reads and writes, with faults and crashes anywhere: an escrow has at
   * most one active saga, and verdicts stand on full panels.
   */
  lemma SagaSafety(acts: seq<Act>, w: World)
    requires Leads(START, acts, w)
    ensures AtMostOneActive(w) && VerdictsStand(w)
  {
    hide Leads;
    assert Inv(START);
    RunsKeepInv(START, acts, w);
    InvMeansSafe(w);
  }

  lemma InvMeansSafe(w: World)
    requires Inv(w)
    ensures AtMostOneActive(w) && VerdictsStand(w)
  {
    hide Locked;
    hide PayingOk;
    hide IntentsOk;
    forall id | id in w.sagas && w.sagas[id].step in {Payout, Completed} ensures VerdictStands(w.sagas[id]) {
      assert SagaVotes(w.rows, w.sagas[id]);
      FullPanelHasVoted(w.sagas[id].votes, w.sagas[id].jurors);
    }
  }

  // ── Ended sagas ───────────────────────────────────────────────────────────────

  lemma EndedSagaStays(w: World, a: Act, id: SagaId)
    requires Inv(w) && Enabled(w, a) && id in w.sagas && Ended(w.sagas[id])
    ensures id in After(w, a).sagas && After(w, a).sagas[id] == w.sagas[id]
  {
    if WritesSaga(a) {
      EndedSagaIsNotWritten(w, a, id);
    } else {
      PartiesAreKept(w, a);
    }
  }

  lemma EndedSagaIsNotWritten(w: World, a: Act, id: SagaId)
    requires Protocol(w) && Enabled(w, a) && WritesSaga(a) && id in w.sagas && Ended(w.sagas[id])
    ensures id in After(w, a).sagas && After(w, a).sagas[id] == w.sagas[id]
  {
    hide Enabled;
    hide After;
    if a.AssignJurors? || a.CastVote? {
      EndedSagaIsNotAdvanced(w, a, id);
    } else if a.Commit? || a.Abandon? {
      EndedSagaIsNotEscalating(w, a, id);
    } else if a.Open? {
      OpenIs(w, a.e, a.saga, a.who);
    } else {
      if a.FinishPayout? { FinishIs(w, a.saga); } else { FailIs(w, a.saga); }
      assert PayingOk(w) && Filed(w);
      hide PayHolds;
    }
    hide Protocol;
  }

  lemma EndedSagaIsNotEscalating(w: World, a: Act, id: SagaId)
    requires Protocol(w) && Enabled(w, a) && (a.Commit? || a.Abandon?) && id in w.sagas && Ended(w.sagas[id])
    ensures id in After(w, a).sagas && After(w, a).sagas[id] == w.sagas[id]
  {
    hide Enabled;
    hide After;
    if a.Commit? { CommitIs(w, a.e, a.fault); } else { AbandonIs(w, a.e); }
    assert LockHolds(w, a.e, w.escalating[a.e]);
    assert OpenedFor(w, w.escalating[a.e].saga, a.e);
    hide LockHolds;
    assert Filed(w);
    hide Protocol;
  }

  lemma EndedSagaIsNotAdvanced(w: World, a: Act, id: SagaId)
    requires Filed(w) && Enabled(w, a) && (a.AssignJurors? || a.CastVote?) && id in w.sagas && Ended(w.sagas[id])
    ensures id in After(w, a).sagas && After(w, a).sagas[id] == w.sagas[id]
  {
    hide Enabled;
    hide After;
    hide VerdictOf;
    hide Unique;
    if a.AssignJurors? { AssignIs(w, a.saga, a.jurors, a.fault); } else { CastIs(w, a.saga, a.vote); }
    hide MayAssign;
    hide MayVote;
  }

  /** The record of a failed or completed saga is never written again. */
  lemma {:induction false} EndedSagasStay(w0: World, acts: seq<Act>, w: World, id: SagaId)
    requires Inv(w0) && Leads(w0, acts, w) && id in w0.sagas && Ended(w0.sagas[id])
    ensures id in w.sagas && w.sagas[id] == w0.sagas[id]
    decreases |acts|
  {
    if acts != [] {
      var n := |acts| - 1;
      hide Inv;
      hide Enabled;
      hide After;
      var prev :| Leads(w0, acts[..n], prev) && Enabled(prev, acts[n]) && w == After(prev, acts[n]);
      EndedSagasStay(w0, acts[..n], prev, id);
      RunsKeepInv(w0, acts[..n], prev);
      EndedSagaStays(prev, acts[n], id);
    }
  }
}
