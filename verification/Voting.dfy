// Juror panels and the verdict they reach.
module Voting {
  import opened Common
  import opened Escrow

  datatype Choice = ForDepositor | ForBeneficiary | ForSplit
  datatype Verdict = DepositorWins | BeneficiaryWins | SplitFunds
  datatype Vote = Vote(juror: Address, choice: Choice)

  /** How many of `votes` are for `c`. */
  ghost function Count(votes: seq<Vote>, c: Choice): nat
  {
    if votes == [] then 0
    else Count(votes[..|votes| - 1], c) + (if votes[|votes| - 1].choice == c then 1 else 0)
  }

  ghost function VerdictOf(votes: seq<Vote>): Verdict
  {
    var d, b, s := Count(votes, ForDepositor), Count(votes, ForBeneficiary), Count(votes, ForSplit);
    if d > b && d > s then DepositorWins
    else if b > d && b > s then BeneficiaryWins
    else SplitFunds
  }

  /** The tally loop. */
  method ComputeVerdict(votes: seq<Vote>) returns (verdict: Verdict)
    ensures verdict == VerdictOf(votes)
  {
    var depositor, beneficiary, split := 0, 0, 0;
    for i := 0 to |votes|
      invariant depositor == Count(votes[..i], ForDepositor)
      invariant beneficiary == Count(votes[..i], ForBeneficiary)
      invariant split == Count(votes[..i], ForSplit)
    {
      assert votes[..i + 1][..i] == votes[..i];
      match votes[i].choice
      case ForDepositor => depositor := depositor + 1;
      case ForBeneficiary => beneficiary := beneficiary + 1;
      case ForSplit => split := split + 1;
    }
    assert votes[..|votes|] == votes;
    if depositor > beneficiary && depositor > split { return DepositorWins; }
    if beneficiary > depositor && beneficiary > split { return BeneficiaryWins; }
    return SplitFunds;
  }

  ghost function Choices(votes: seq<Vote>): seq<Choice>
  {
    seq(|votes|, i requires 0 <= i < |votes| => votes[i].choice)
  }

  lemma {:induction false} CountIsMultiplicity(votes: seq<Vote>, c: Choice)
    ensures Count(votes, c) == multiset(Choices(votes))[c]
  {
    if votes != [] {
      var n := |votes| - 1;
      CountIsMultiplicity(votes[..n], c);
      assert Choices(votes) == Choices(votes[..n]) + [votes[n].choice];
    }
  }

  lemma {:induction false} EveryVoteIsCounted(votes: seq<Vote>)
    ensures Count(votes, ForDepositor) + Count(votes, ForBeneficiary) + Count(votes, ForSplit) == |votes|
  {
    if votes != [] { EveryVoteIsCounted(votes[..|votes| - 1]); }
  }

  /** The verdict depends on what was voted, not on who voted when. */
  lemma VerdictIgnoresOrder(votes: seq<Vote>, others: seq<Vote>)
    requires multiset(Choices(votes)) == multiset(Choices(others))
    ensures VerdictOf(votes) == VerdictOf(others)
  {
    CountIsMultiplicity(votes, ForDepositor); CountIsMultiplicity(others, ForDepositor);
    CountIsMultiplicity(votes, ForBeneficiary); CountIsMultiplicity(others, ForBeneficiary);
    CountIsMultiplicity(votes, ForSplit); CountIsMultiplicity(others, ForSplit);
  }

  /**
   * A party wins exactly when more jurors chose it than chose any other outcome; and since an odd
   * panel cannot tie between two outcomes alone, a missed win means every outcome drew a vote or
   * the split itself led.
   */
  lemma WinnerHasStrictPlurality(votes: seq<Vote>)
    ensures VerdictOf(votes) == DepositorWins <==>
      forall c :: c != ForDepositor ==> Count(votes, ForDepositor) > Count(votes, c)
    ensures VerdictOf(votes) == BeneficiaryWins <==>
      forall c :: c != ForBeneficiary ==> Count(votes, ForBeneficiary) > Count(votes, c)
    ensures |votes| % 2 == 1 && VerdictOf(votes) == SplitFunds ==> Count(votes, ForSplit) > 0
  {
    EveryVoteIsCounted(votes);
    assert ForBeneficiary != ForDepositor && ForSplit != ForDepositor && ForSplit != ForBeneficiary;
  }

  // ── Panels ────────────────────────────────────────────────────────────────────

  /** First occurrences, in order. */
  ghost function Unique(xs: seq<Address>): (r: seq<Address>)
    ensures Distinct(r) && (forall x :: x in r <==> x in xs) && |r| <= |xs|
  {
    if xs == [] then []
    else
      var last := xs[|xs| - 1];
      var rest := Unique(xs[..|xs| - 1]);
      assert xs == xs[..|xs| - 1] + [last];
      if last in rest then rest else rest + [last]
  }

  ghost predicate ValidPanel(panel: seq<Address>, depositor: Address, beneficiary: Address)
  {
    && Distinct(panel) && |panel| >= 3 && |panel| % 2 == 1
    && depositor !in panel && beneficiary !in panel
  }

  ghost function Voters(votes: seq<Vote>): seq<Address>
  {
    seq(|votes|, i requires 0 <= i < |votes| => votes[i].juror)
  }

  /** Votes cast so far: one per juror, panel members only. */
  ghost predicate ValidVotes(votes: seq<Vote>, panel: seq<Address>)
  {
    && (forall i, j :: 0 <= i < j < |votes| ==> votes[i].juror != votes[j].juror)
    && (forall i :: 0 <= i < |votes| ==> votes[i].juror in panel)
  }

  /** When as many votes are in as there are jurors, every juror has voted. */
  lemma FullPanelHasVoted(votes: seq<Vote>, panel: seq<Address>)
    requires ValidVotes(votes, panel) && Distinct(panel) && |votes| == |panel|
    ensures forall j :: j in panel ==> j in Voters(votes)
  {
    var voted := set i | 0 <= i < |Voters(votes)| :: Voters(votes)[i];
    var all := set i | 0 <= i < |panel| :: panel[i];
    SizeOfDistinct(Voters(votes));
    SizeOfDistinct(panel);
    forall j | j in voted ensures j in all {
      var i :| 0 <= i < |votes| && votes[i].juror == j;
    }
    SubsetOfEqualSize(voted, all);
    forall j | j in panel ensures j in Voters(votes) {
      assert j in all && j in voted;
    }
  }

  lemma {:induction false} SizeOfDistinct(xs: seq<Address>)
    requires Distinct(xs)
    ensures |set i | 0 <= i < |xs| :: xs[i]| == |xs|
  {
    var whole := set i | 0 <= i < |xs| :: xs[i];
    if xs == [] {
      assert whole == {};
    } else {
      var n := |xs| - 1;
      SizeOfDistinct(xs[..n]);
      var rest := set i | 0 <= i < |xs[..n]| :: xs[..n][i];
      assert rest == set i | 0 <= i < n :: xs[i];
      assert whole == rest + {xs[n]};
      assert xs[n] !in rest;
    }
  }

  lemma SubsetOfEqualSize(a: set<Address>, b: set<Address>)
    requires a <= b && |a| == |b|
    ensures a == b
  {
    assert |b| == |a| + |b - a|;
    assert b == a + (b - a);
  }
}
