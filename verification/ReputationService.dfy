// The reputation service over its score store; its queue lets one contribution finish before the next.
module ReputationService {
  import opened Reputation

  class ReputationService {
    var store: Scores
    const decay: Decay
    ghost var queue: seq<Contribution>

    ghost predicate Valid()
      reads this
    {
      store == Queued(queue, decay)
    }

    constructor (decay: Decay)
      ensures Valid() && queue == [] && this.decay == decay
    {
      this.store := map[];
      this.decay := decay;
      this.queue := [];
    }

    method ApplyContribution(address: Address, counterparty: Address, kind: Kind, scale: real, now: Time)
      requires Valid()
      modifies this
      ensures Valid() && queue == old(queue) + [Contribution(address, counterparty, kind, scale, now)]
    {
      hide Newest;
      hide Dampened;
      var c := Contribution(address, counterparty, kind, scale, now);
      var r := EmptyRecord(now);
      if address in store { r := Decayed(store[address], now, decay); }
      var prior := if counterparty in r.counterpartyCounts then r.counterpartyCounts[counterparty] else 0;
      var contribution := Dampened(c, prior);
      r := r.(score := r.score + contribution);
      r := r.(eventCount := r.eventCount + 1);
      r := r.(counterpartyCounts := r.counterpartyCounts[counterparty := prior + 1]);
      r := r.(recentEvents := Newest([Entry(kind, counterparty, contribution, now)] + r.recentEvents));
      r := r.(lastUpdatedAt := now);
      assert r == Contributed(RecordOf(store, address), c, decay);
      assert (queue + [c])[..|queue|] == queue;
      store := store[address := r];
      queue := queue + [c];
    }

    method RecordEscrowCompleted(depositor: Address, beneficiary: Address, scale: real, now: Time)
      requires Valid()
      modifies this
      ensures Valid() && queue == old(queue) + Halves(Completed(depositor, beneficiary, scale, now))
      ensures depositor == beneficiary ==> store == old(store)
      ensures depositor != beneficiary ==> CompletionMoves(old(queue), old(store), store, depositor, beneficiary, scale, now, decay)
    {
      hide Queued; hide CompletionMoves;
      if depositor != beneficiary { CompletionMovesScores(queue, depositor, beneficiary, scale, now, decay); }
      if depositor == beneficiary { return; }
      ApplyContribution(depositor, beneficiary, EscrowCompleted, scale, now);
      ApplyContribution(beneficiary, depositor, EscrowCompleted, scale, now);
    }

    method RecordDisputeResolved(depositor: Address, beneficiary: Address, depositorOutcome: Outcome,
            beneficiaryOutcome: Outcome, scale: real, now: Time)
      requires Valid()
      modifies this
      ensures Valid()
      ensures queue == old(queue) + Halves(Resolved(depositor, beneficiary, depositorOutcome, beneficiaryOutcome, scale, now))
      ensures depositor == beneficiary ==> store == old(store)
      ensures depositor != beneficiary ==>
        DisputeMoves(old(queue), old(store), store, depositor, beneficiary, depositorOutcome, beneficiaryOutcome, scale, now, decay)
    {
      hide Queued; hide DisputeMoves; hide KindFor;
      if depositor != beneficiary {
        DisputeMovesScores(queue, depositor, beneficiary, depositorOutcome, beneficiaryOutcome, scale, now, decay);
      }
      if depositor == beneficiary { return; }
      ApplyContribution(depositor, beneficiary, KindFor(depositorOutcome), scale, now);
      ApplyContribution(beneficiary, depositor, KindFor(beneficiaryOutcome), scale, now);
    }

    /** A read: the score of the address's whole history at `now`, and nothing stored. */
    method GetScore(address: Address, now: Time) returns (r: Record)
      requires Valid() && Memoryless(decay)
      ensures r.score == AgedScore(HistoryOf(queue, address), |HistoryOf(queue, address)|, now, decay)
      ensures r.eventCount == |HistoryOf(queue, address)| && Trails(r.recentEvents, HistoryOf(queue, address))
      ensures forall b :: CountWith(r, b) == Between(queue, address, b)
      ensures Ordered(HistoryOf(queue, address), now) ==> r.score == FullScore(HistoryOf(queue, address), |HistoryOf(queue, address)|, now, decay)
    {
      hide AgedScore;
      hide FullScore;
      hide Memoryless;
      hide HistoryOf;
      hide Trails;
      RecordIsFolded(queue, address, decay);
      CountsAndTrail(queue, address, decay);
      if address in store {
        r := Decayed(store[address], now, decay);
        ScoreIsAgedHistory(queue, address, now, decay);
        if Ordered(HistoryOf(queue, address), now) { ScoreIsFullHistory(queue, address, now, decay); }
      } else {
        r := EmptyRecord(now);
        EmptyScores(now, decay);
      }
    }
  }

  lemma EmptyScores(now: Time, d: Decay)
    ensures AgedScore([], 0, now, d) == FullScore([], 0, now, d) == 0.0
  {
  }

  /** What a read record counts and keeps, decayed or not. */
  lemma CountsAndTrail(queue: seq<Contribution>, a: Address, d: Decay)
    ensures a in Queued(queue, d) ==>
      var r := Queued(queue, d)[a];
      r.eventCount == |HistoryOf(queue, a)| && Trails(r.recentEvents, HistoryOf(queue, a))
    ensures forall b :: CountIn(Queued(queue, d), a, b) == Between(queue, a, b)
    ensures a !in Queued(queue, d) ==> HistoryOf(queue, a) == [] && Trails([], [])
  {
    RecordIsFolded(queue, a, d);
    FoldedShape(HistoryOf(queue, a), d);
    NoTrail();
    if a in Queued(queue, d) {
      FoldedCounts(HistoryOf(queue, a), d);
      RecentIsNewest(HistoryOf(queue, a), d);
    }
    forall b ensures CountIn(Queued(queue, d), a, b) == Between(queue, a, b) {
      CountIsBetween(queue, a, b, d);
    }
  }
}
