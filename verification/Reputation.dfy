// Reputation scores: an incremental, time-decayed score per address against its full history.
module Reputation {
  import opened Common
  import opened Sums

  type Address = nat

  /** Milliseconds; decay is a function of elapsed time. */
  type Time = int
  type Decay = Time -> real

  datatype Kind = EscrowCompleted | DisputeWon | DisputeLost | DisputeSplit

  const RECENT_EVENTS_LIMIT: nat := 20

  function WeightOf(kind: Kind): real
  {
    match kind
    case EscrowCompleted => 5.0
    case DisputeWon => 2.0
    case DisputeLost => -10.0
    case DisputeSplit => -2.0
  }

  /** One contribution: `scale` is the amount's weight, a number from 0 to 10. */
  datatype Contribution = Contribution(address: Address, counterparty: Address, kind: Kind, scale: real, at: Time)

  datatype Entry = Entry(kind: Kind, counterparty: Address, contribution: real, at: Time)

  datatype Record = Record(
    score: real,
    eventCount: nat,
    counterpartyCounts: map<Address, nat>,
    recentEvents: seq<Entry>,
    lastUpdatedAt: Time)

  /** What makes decay exponential: elapsed times add up to factors multiplied. */
  ghost predicate Memoryless(d: Decay)
  {
    d(0) == 1.0 && forall a: Time, b: Time | 0 <= a && 0 <= b :: d(a + b) == d(a) * d(b)
  }

  function Elapsed(since: Time, now: Time): Time { if now <= since then 0 else now - since }

  /** A read decays a copy; time that does not advance leaves the score alone. */
  function Decayed(r: Record, now: Time, d: Decay): Record
  {
    if now - r.lastUpdatedAt <= 0 then r else r.(score := r.score * d(now - r.lastUpdatedAt))
  }

  function EmptyRecord(now: Time): Record { Record(0.0, 0, map[], [], now) }

  function CountWith(r: Record, counterparty: Address): nat
  {
    if counterparty in r.counterpartyCounts then r.counterpartyCounts[counterparty] else 0
  }

  function Dampened(c: Contribution, prior: nat): real
  {
    WeightOf(c.kind) * c.scale * (1.0 / (1 + prior) as real)
  }

  function Newest(entries: seq<Entry>): seq<Entry>
  {
    if |entries| <= RECENT_EVENTS_LIMIT then entries else entries[..RECENT_EVENTS_LIMIT]
  }

  function Contributed(existing: Option<Record>, c: Contribution, d: Decay): Record
  {
    var r := if existing.Some? then Decayed(existing.value, c.at, d) else EmptyRecord(c.at);
    var prior := CountWith(r, c.counterparty);
    var amount := Dampened(c, prior);
    Record(
      r.score + amount,
      r.eventCount + 1,
      r.counterpartyCounts[c.counterparty := prior + 1],
      Newest([Entry(c.kind, c.counterparty, amount, c.at)] + r.recentEvents),
      c.at)
  }

  type Scores = map<Address, Record>

  function RecordOf(scores: Scores, a: Address): Option<Record>
  {
    if a in scores then Some(scores[a]) else None
  }

  /** The mutation queue runs contributions one at a time. */
  function Queued(queue: seq<Contribution>, d: Decay): Scores
  {
    if queue == [] then map[]
    else
      var c := queue[|queue| - 1];
      var scores := Queued(queue[..|queue| - 1], d);
      scores[c.address := Contributed(RecordOf(scores, c.address), c, d)]
  }

  // ── The reference: an address's full history ──────────────────────────────────

  /** The contributions of one address, in queue order. */
  function HistoryOf(queue: seq<Contribution>, a: Address): seq<Contribution>
  {
    if queue == [] then []
    else HistoryOf(queue[..|queue| - 1], a) + if queue[|queue| - 1].address == a then [queue[|queue| - 1]] else []
  }

  /** How many of the contributions are with `counterparty`. */
  function Times(history: seq<Contribution>, counterparty: Address): nat
  {
    if history == [] then 0
    else Times(history[..|history| - 1], counterparty) + if history[|history| - 1].counterparty == counterparty then 1 else 0
  }

  /** What entry `i` is worth undecayed: it is the k-th with its counterparty and gets 1/k. */
  function Worth(history: seq<Contribution>, i: nat): real
    requires i < |history|
  {
    Dampened(history[i], Times(history[..i], history[i].counterparty))
  }

  /** The score the whole history is worth at time `now`. */
  function FullScore(history: seq<Contribution>, n: nat, now: Time, d: Decay): real
    requires n <= |history|
  {
    if n == 0 then 0.0
    else FullScore(history, n - 1, now, d) + Worth(history, n - 1) * d(now - history[n - 1].at)
  }

  /** Time that passed on the record's clock since entry `i`: backward jumps count as none. */
  function Aged(history: seq<Contribution>, i: nat, now: Time): (t: Time)
    requires i < |history|
    ensures 0 <= t
    ensures now - history[i].at <= t
    decreases |history| - i
  {
    if i + 1 == |history| then Elapsed(history[i].at, now)
    else Elapsed(history[i].at, history[i + 1].at) + Aged(history, i + 1, now)
  }

  function AgedScore(history: seq<Contribution>, n: nat, now: Time, d: Decay): real
    requires n <= |history|
  {
    if n == 0 then 0.0
    else AgedScore(history, n - 1, now, d) + Worth(history, n - 1) * d(Aged(history, n - 1, now))
  }

  ghost predicate Ordered(history: seq<Contribution>, now: Time)
  {
    && (forall i, j :: 0 <= i < j < |history| ==> history[i].at <= history[j].at)
    && (forall i :: 0 <= i < |history| ==> history[i].at <= now)
  }

  // ── The record of an address is its history's ─────────────────────────────────

  function Folded(history: seq<Contribution>, d: Decay): Option<Record>
  {
    if history == [] then None
    else Some(Contributed(Folded(history[..|history| - 1], d), history[|history| - 1], d))
  }

  lemma {:induction false} RecordIsFolded(queue: seq<Contribution>, a: Address, d: Decay)
    ensures RecordOf(Queued(queue, d), a) == Folded(HistoryOf(queue, a), d)
  {
    hide Contributed;
    if queue != [] {
      var n := |queue| - 1;
      RecordIsFolded(queue[..n], a, d);
      if queue[n].address == a {
        assert HistoryOf(queue, a)[..|HistoryOf(queue, a)| - 1] == HistoryOf(queue[..n], a);
      } else {
        assert HistoryOf(queue, a) == HistoryOf(queue[..n], a);
      }
    }
  }

  lemma {:induction false} FoldedCounts(history: seq<Contribution>, d: Decay)
    requires history != []
    ensures var r := Folded(history, d).value;
      && r.lastUpdatedAt == history[|history| - 1].at
      && r.eventCount == |history|
      && (forall b :: CountWith(r, b) == Times(history, b))
    ensures forall b :: b in Folded(history, d).value.counterpartyCounts <==> Times(history, b) > 0
  {
    hide Newest;
    var n := |history| - 1;
    if n > 0 {
      FoldedCounts(history[..n], d);
    }
  }

  lemma {:induction false} EventCountIsTotal(history: seq<Contribution>, d: Decay)
    requires history != []
    ensures Total(Folded(history, d).value.counterpartyCounts) == |history|
  {
    hide Total;
    hide Newest;
    var n := |history| - 1;
    var c := history[n].counterparty;
    if n == 0 {
      var none: map<Address, nat> := map[];
      TotalPut(none, c, 1);
      assert none - {c} == none;
      assert Total(map[]) == 0 by { EmptyTotal(); }
    } else {
      EventCountIsTotal(history[..n], d);
      FoldedCounts(history[..n], d);
      var was := Folded(history[..n], d).value.counterpartyCounts;
      var prior := if c in was then was[c] else 0;
      TotalPut(was, c, prior + 1);
      if c in was { TotalTakes(was, c); } else { assert was - {c} == was; }
    }
  }

  lemma EmptyTotal()
    ensures Total(map[]) == 0
  {
  }

  // ── The score ─────────────────────────────────────────────────────────────────

  lemma {:induction false} AgeGrows(history: seq<Contribution>, i: nat, c: Contribution, now: Time)
    requires i < |history|
    ensures Aged(history + [c], i, now) == Aged(history, i, c.at) + Elapsed(c.at, now)
    decreases |history| - i
  {
    if i + 1 < |history| {
      AgeGrows(history, i + 1, c, now);
    }
  }

  lemma WorthIsPrefix(history: seq<Contribution>, c: Contribution, i: nat)
    requires i < |history|
    ensures Worth(history + [c], i) == Worth(history, i)
  {
    assert (history + [c])[..i] == history[..i];
  }

  lemma DecaySplits(d: Decay, a: Time, b: Time)
    requires Memoryless(d) && 0 <= a && 0 <= b
    ensures d(a + b) == d(a) * d(b)
  {
  }

  lemma ScaleTerm(rest: real, w: real, f: real, g: real, h: real)
    requires h == f * g
    ensures (rest + w * f) * g == rest * g + w * h
  {
  }

  /** One more contribution ages every earlier term by the same factor. */
  lemma {:induction false} ScoreScales(history: seq<Contribution>, n: nat, c: Contribution, now: Time, d: Decay)
    requires Memoryless(d) && n <= |history|
    ensures AgedScore(history + [c], n, now, d) == AgedScore(history, n, c.at, d) * d(Elapsed(c.at, now))
  {
    hide Worth;
    hide Elapsed;
    hide Aged;
    hide Memoryless;
    if n > 0 {
      ScoreScales(history, n - 1, c, now, d);
      AgeGrows(history, n - 1, c, now);
      WorthIsPrefix(history, c, n - 1);
      var f, g := d(Aged(history, n - 1, c.at)), d(Elapsed(c.at, now));
      ElapsedIsNat(c.at, now);
      DecaySplits(d, Aged(history, n - 1, c.at), Elapsed(c.at, now));
      ScaleTerm(AgedScore(history, n - 1, c.at, d), Worth(history, n - 1), f, g, f * g);
    }
  }

  lemma ElapsedIsNat(since: Time, now: Time)
    ensures 0 <= Elapsed(since, now)
  {
  }

  lemma DecayedScore(r: Record, now: Time, d: Decay)
    requires d(0) == 1.0
    ensures Decayed(r, now, d).score == r.score * d(Elapsed(r.lastUpdatedAt, now))
  {
  }

  lemma DecayedCounts(r: Record, c: Contribution, d: Decay)
    ensures CountWith(Decayed(r, c.at, d), c.counterparty) == CountWith(r, c.counterparty)
  {
  }

  /** What one contribution leaves as the score of a later read. */
  lemma ContributedScore(existing: Option<Record>, c: Contribution, now: Time, d: Decay)
    requires Memoryless(d)
    ensures var r := Contributed(existing, c, d);
      Decayed(r, now, d).score ==
      ((if existing.Some? then Decayed(existing.value, c.at, d).score else 0.0)
        + Dampened(c, if existing.Some? then CountWith(existing.value, c.counterparty) else 0)) * d(Elapsed(c.at, now))
  {
    hide Dampened;
    hide Newest;
    if existing.Some? { DecayedCounts(existing.value, c, d); }
    hide Decayed;
    DecayedScore(Contributed(existing, c, d), now, d);
  }

  lemma ReadStep(history: seq<Contribution>, c: Contribution, now: Time, d: Decay)
    requires Memoryless(d)
    requires history != [] ==> Decayed(Folded(history, d).value, c.at, d).score == AgedScore(history, |history|, c.at, d)
    ensures Decayed(Contributed(Folded(history, d), c, d), now, d).score == AgedScore(history + [c], |history| + 1, now, d)
  {
    hide Contributed;
    hide Decayed;
    hide Dampened;
    hide Folded;
    hide Memoryless;
    hide AgedScore;
    var n := |history|;
    ContributedScore(Folded(history, d), c, now, d);
    FoldedShape(history, d);
    ScoreScales(history, n, c, now, d);
    if history == [] { EmptyScore(c.at, d); }
    LastTerm(history, c, now, d);
    ScaleSum(AgedScore(history, n, c.at, d), Dampened(c, Times(history, c.counterparty)), d(Elapsed(c.at, now)));
  }

  lemma EmptyScore(now: Time, d: Decay)
    ensures AgedScore([], 0, now, d) == 0.0
    ensures forall b :: Times([], b) == 0
  {
  }

  lemma LastTerm(history: seq<Contribution>, c: Contribution, now: Time, d: Decay)
    ensures AgedScore(history + [c], |history| + 1, now, d) ==
      AgedScore(history + [c], |history|, now, d) + Dampened(c, Times(history, c.counterparty)) * d(Elapsed(c.at, now))
  {
    hide Dampened;
    hide Worth;
    hide Aged;
    hide Elapsed;
    LastWorth(history, c, now);
  }

  lemma LastWorth(history: seq<Contribution>, c: Contribution, now: Time)
    ensures Worth(history + [c], |history|) == Dampened(c, Times(history, c.counterparty))
    ensures Aged(history + [c], |history|, now) == Elapsed(c.at, now)
  {
    hide Dampened;
    assert (history + [c])[..|history|] == history;
  }

  lemma ScaleSum(x: real, y: real, f: real)
    ensures (x + y) * f == x * f + y * f
  {
  }

  lemma FoldedShape(history: seq<Contribution>, d: Decay)
    ensures Folded(history, d).Some? <==> history != []
    ensures history != [] ==> forall b :: CountWith(Folded(history, d).value, b) == Times(history, b)
  {
    if history != [] { FoldedCounts(history, d); }
  }

  lemma {:induction false} FoldedScore(history: seq<Contribution>, now: Time, d: Decay)
    requires Memoryless(d) && history != []
    ensures Decayed(Folded(history, d).value, now, d).score == AgedScore(history, |history|, now, d)
  {
    hide Contributed;
    hide Decayed;
    hide AgedScore;
    var n := |history| - 1;
    if n > 0 { FoldedScore(history[..n], history[n].at, d); }
    ReadStep(history[..n], history[n], now, d);
    assert history[..n] + [history[n]] == history;
  }

  /**
   * The incremental score, read at any time after any queue of contributions, is the sum over the
   * address's full history of weight, amount weight and 1/k, each aged by the time its record's
   * clock has advanced since. No clock order is assumed.
   */
  lemma ScoreIsAgedHistory(queue: seq<Contribution>, a: Address, now: Time, d: Decay)
    requires Memoryless(d) && a in Queued(queue, d)
    ensures var history := HistoryOf(queue, a);
      Decayed(Queued(queue, d)[a], now, d).score == AgedScore(history, |history|, now, d)
  {
    RecordIsFolded(queue, a, d);
    FoldedScore(HistoryOf(queue, a), now, d);
  }

  lemma {:induction false} AgeWhenOrdered(history: seq<Contribution>, i: nat, now: Time)
    requires i < |history| && Ordered(history, now)
    ensures Aged(history, i, now) == now - history[i].at
    decreases |history| - i
  {
    if i + 1 < |history| { AgeWhenOrdered(history, i + 1, now); }
  }

  lemma {:induction false} OrderedScores(history: seq<Contribution>, n: nat, now: Time, d: Decay)
    requires n <= |history| && Ordered(history, now)
    ensures AgedScore(history, n, now, d) == FullScore(history, n, now, d)
  {
    if n > 0 {
      OrderedScores(history, n - 1, now, d);
      AgeWhenOrdered(history, n - 1, now);
    }
  }

  /** With nondecreasing times the incremental score is the full history's, each entry decayed by
      its age. */
  lemma ScoreIsFullHistory(queue: seq<Contribution>, a: Address, now: Time, d: Decay)
    requires Memoryless(d) && a in Queued(queue, d) && Ordered(HistoryOf(queue, a), now)
    ensures var history := HistoryOf(queue, a);
      Decayed(Queued(queue, d)[a], now, d).score == FullScore(history, |history|, now, d)
  {
    ScoreIsAgedHistory(queue, a, now, d);
    OrderedScores(HistoryOf(queue, a), |HistoryOf(queue, a)|, now, d);
  }

  // ── Exactly when the score is the full history's ──────────────────────────────

  /** An entry's age is exact precisely if from it on times never go back, up to now. */
  lemma {:induction false} AgeIsExactIffOrdered(history: seq<Contribution>, i: nat, now: Time)
    requires i < |history|
    ensures Aged(history, i, now) == now - history[i].at <==> Ordered(history[i..], now)
    decreases |history| - i
  {
    var h := history[i..];
    if i + 1 == |history| {
      assert h == [history[i]];
    } else {
      AgeIsExactIffOrdered(history, i + 1, now);
      var rest := history[i + 1..];
      assert h == [history[i]] + rest && rest[0] == history[i + 1];
      OrderedSplits(history[i], rest, now);
      hide Ordered;
    }
  }

  lemma OrderedSplits(c: Contribution, rest: seq<Contribution>, now: Time)
    requires rest != []
    ensures Ordered([c] + rest, now) <==> c.at <= rest[0].at && Ordered(rest, now)
  {
    var h := [c] + rest;
    if Ordered(h, now) {
      assert h[0] == c && h[1] == rest[0];
      forall i, j | 0 <= i < j < |rest| ensures rest[i].at <= rest[j].at { assert h[i + 1] == rest[i] && h[j + 1] == rest[j]; }
      forall i | 0 <= i < |rest| ensures rest[i].at <= now { assert h[i + 1] == rest[i]; }
    }
    if c.at <= rest[0].at && Ordered(rest, now) {
      forall i | 0 <= i < |h| ensures c.at <= h[i].at <= now { if i > 0 { assert h[i] == rest[i - 1]; } }
      forall i, j | 0 <= i < j < |h| ensures h[i].at <= h[j].at { if i > 0 { assert h[i] == rest[i - 1] && h[j] == rest[j - 1]; } }
    }
  }

  /** Ages are exact for all entries precisely if times never go back. */
  lemma {:induction false} AgesAreExactIffOrdered(history: seq<Contribution>, now: Time)
    ensures Ordered(history, now) <==> forall i :: 0 <= i < |history| ==> Aged(history, i, now) == now - history[i].at
  {
    if history != [] {
      AgeIsExactIffOrdered(history, 0, now);
      assert history[0..] == history;
    }
    if Ordered(history, now) {
      forall i | 0 <= i < |history| ensures Aged(history, i, now) == now - history[i].at {
        AgeWhenOrdered(history, i, now);
      }
    }
  }

  ghost predicate Decreasing(d: Decay)
  {
    forall a: Time, b: Time | 0 <= a < b :: d(b) < d(a)
  }

  /** A contribution that does not lower the score; one of weight nothing leaves it as it is. */
  predicate Earns(c: Contribution)
  {
    (c.kind == EscrowCompleted || c.kind == DisputeWon) && c.scale >= 0.0
  }

  lemma EarnsMore(history: seq<Contribution>, i: nat)
    requires i < |history| && Earns(history[i])
    ensures Worth(history, i) >= 0.0 && (Worth(history, i) > 0.0 <==> history[i].scale > 0.0)
  {
    var k := (1 + Times(history[..i], history[i].counterparty)) as real;
    var w := WeightOf(history[i].kind) * history[i].scale;
    assert w >= 0.0 && (w > 0.0 <==> history[i].scale > 0.0) && 1.0 / k > 0.0;
    if w > 0.0 { ProductIsPositive(w, 1.0 / k); } else { assert w * (1.0 / k) == 0.0; }
  }

  lemma ProductIsPositive(x: real, y: real)
    requires x > 0.0 && y > 0.0
    ensures x * y > 0.0
  {
  }

  lemma OlderCountsLess(w: real, f: real, g: real)
    requires w >= 0.0 && f <= g
    ensures w * f <= w * g && (w * f == w * g <==> f == g || w == 0.0)
  {
    if w > 0.0 && f < g { ProductIsPositive(w, g - f); }
  }

  /** What entry `i` adds to the score, and what it would with its exact age. */
  function AgedTerm(history: seq<Contribution>, i: nat, now: Time, d: Decay): real
    requires i < |history|
  {
    Worth(history, i) * d(Aged(history, i, now))
  }

  function ExactTerm(history: seq<Contribution>, i: nat, now: Time, d: Decay): real
    requires i < |history|
  {
    Worth(history, i) * d(now - history[i].at)
  }

  /** One positive term never counts for more than its age allows. */
  lemma TermIsLower(history: seq<Contribution>, i: nat, now: Time, d: Decay)
    requires i < |history| && Decreasing(d) && Earns(history[i]) && history[i].at <= now
    ensures AgedTerm(history, i, now, d) <= ExactTerm(history, i, now, d)
    ensures AgedTerm(history, i, now, d) == ExactTerm(history, i, now, d)
       <==> (history[i].scale > 0.0 ==> Aged(history, i, now) == now - history[i].at)
  {
    hide Worth;
    EarnsMore(history, i);
    var exact, aged := now - history[i].at, Aged(history, i, now);
    assert exact < aged ==> d(aged) < d(exact);
    OlderCountsLess(Worth(history, i), d(aged), d(exact));
  }

  lemma OneTermMore(history: seq<Contribution>, n: nat, now: Time, d: Decay)
    requires 0 < n <= |history|
    ensures AgedScore(history, n, now, d) == AgedScore(history, n - 1, now, d) + AgedTerm(history, n - 1, now, d)
    ensures FullScore(history, n, now, d) == FullScore(history, n - 1, now, d) + ExactTerm(history, n - 1, now, d)
  {
    hide Worth;
    hide Aged;
  }

  /** Nor does the sum of them. */
  lemma {:induction false} AgedScoreIsLower(history: seq<Contribution>, n: nat, now: Time, d: Decay)
    requires n <= |history| && Decreasing(d)
    requires forall i :: 0 <= i < |history| ==> Earns(history[i]) && history[i].at <= now
    ensures AgedScore(history, n, now, d) <= FullScore(history, n, now, d)
    ensures AgedScore(history, n, now, d) == FullScore(history, n, now, d) <==>
      forall i :: 0 <= i < n && history[i].scale > 0.0 ==> Aged(history, i, now) == now - history[i].at
  {
    hide Earns;
    if n == 0 {
      assert AgedScore(history, 0, now, d) == FullScore(history, 0, now, d);
    } else {
      AgedScoreIsLower(history, n - 1, now, d);
      TermIsLower(history, n - 1, now, d);
      OneTermMore(history, n, now, d);
      hide AgedScore;
      hide FullScore;
      hide AgedTerm;
      hide ExactTerm;
      hide Decreasing;
    }
    hide Aged;
  }

  /** From each entry that counts for something on, times never go back. */
  ghost predicate OrderedWhereItCounts(history: seq<Contribution>, now: Time)
  {
    forall i :: 0 <= i < |history| && history[i].scale > 0.0 ==> Ordered(history[i..], now)
  }

  /**
   * For an address that has only earned, read no earlier than its last contribution was made: the
   * incremental score is never above the full history's, and equals it exactly if its contributions
   * reached the queue in the order of their times, from the first one of any weight on.
   */
  lemma ScoreIsFullIffOrdered(queue: seq<Contribution>, a: Address, now: Time, d: Decay)
    requires Memoryless(d) && Decreasing(d) && a in Queued(queue, d)
    requires forall i :: 0 <= i < |HistoryOf(queue, a)| ==> Earns(HistoryOf(queue, a)[i]) && HistoryOf(queue, a)[i].at <= now
    ensures var history := HistoryOf(queue, a);
      var score := Decayed(Queued(queue, d)[a], now, d).score;
      && score <= FullScore(history, |history|, now, d)
      && (score == FullScore(history, |history|, now, d) <==> OrderedWhereItCounts(history, now))
  {
    var history := HistoryOf(queue, a);
    ScoreIsAgedHistory(queue, a, now, d);
    hide AgedScore;
    hide FullScore;
    hide Decayed;
    hide Queued;
    hide Ordered;
    AgedScoreIsLower(history, |history|, now, d);
    forall i | 0 <= i < |history| ensures Aged(history, i, now) == now - history[i].at <==> Ordered(history[i..], now) {
      AgeIsExactIffOrdered(history, i, now);
    }
  }

  /** An address's event count is the sum of its counts per counterparty, and both are its history's. */
  lemma CountsAreHistory(queue: seq<Contribution>, a: Address, b: Address, d: Decay)
    requires a in Queued(queue, d)
    ensures var r := Queued(queue, d)[a];
      && r.eventCount == |HistoryOf(queue, a)| == Total(r.counterpartyCounts)
      && CountWith(r, b) == Times(HistoryOf(queue, a), b)
  {
    RecordIsFolded(queue, a, d);
    FoldedCounts(HistoryOf(queue, a), d);
    EventCountIsTotal(HistoryOf(queue, a), d);
  }

  // ── Both sides of an escrow ───────────────────────────────────────────────────

  datatype Outcome = Won | Lost | Split

  function KindFor(o: Outcome): Kind { match o case Won => DisputeWon case Lost => DisputeLost case Split => DisputeSplit }

  datatype Op =
    | Completed(depositor: Address, beneficiary: Address, scale: real, at: Time)
    | Resolved(depositor: Address, beneficiary: Address, depositorOutcome: Outcome, beneficiaryOutcome: Outcome, scale: real, at: Time)

  /** The contributions of one call; an escrow with oneself makes none. */
  function Halves(op: Op): seq<Contribution>
  {
    if op.depositor == op.beneficiary then []
    else
      match op
      case Completed(x, y, scale, at) =>
        [Contribution(x, y, EscrowCompleted, scale, at), Contribution(y, x, EscrowCompleted, scale, at)]
      case Resolved(x, y, ox, oy, scale, at) =>
        [Contribution(x, y, KindFor(ox), scale, at), Contribution(y, x, KindFor(oy), scale, at)]
  }

  function AllHalves(ops: seq<Op>): seq<Contribution>
  {
    if ops == [] then [] else AllHalves(ops[..|ops| - 1]) + Halves(ops[|ops| - 1])
  }

  /** How often `a` contributed with `b` as its counterparty. */
  function Between(queue: seq<Contribution>, a: Address, b: Address): nat
  {
    Times(HistoryOf(queue, a), b)
  }

  /** One if the contribution is `a`'s with `b`, else none. */
  function Meets(c: Contribution, a: Address, b: Address): nat
  {
    if c.address == a && c.counterparty == b then 1 else 0
  }

  lemma {:induction false} BetweenAppend(queue: seq<Contribution>, more: seq<Contribution>, a: Address, b: Address)
    ensures Between(queue + more, a, b) == Between(queue, a, b) + Between(more, a, b)
  {
    if more == [] {
      assert queue + more == queue;
    } else {
      var n := |more| - 1;
      BetweenAppend(queue, more[..n], a, b);
      assert (queue + more)[..|queue + more| - 1] == queue + more[..n];
      BetweenStep(queue + more, a, b);
      BetweenStep(more, a, b);
    }
  }

  lemma BetweenStep(queue: seq<Contribution>, a: Address, b: Address)
    requires queue != []
    ensures var c := queue[|queue| - 1];
      Between(queue, a, b) == Between(queue[..|queue| - 1], a, b) + Meets(c, a, b)
  {
    var n := |queue| - 1;
    if queue[n].address == a {
      var h := HistoryOf(queue, a);
      assert h[..|h| - 1] == HistoryOf(queue[..n], a);
    } else {
      assert HistoryOf(queue, a) == HistoryOf(queue[..n], a);
    }
  }

  /** The order of the queue does not matter to how often two parties met. */
  lemma {:induction false} BetweenIgnoresOrder(queue: seq<Contribution>, other: seq<Contribution>, a: Address,
          b: Address)
    requires multiset(queue) == multiset(other)
    ensures Between(queue, a, b) == Between(other, a, b)
  {
    if queue == [] {
      assert |other| == |multiset(other)| == 0;
    } else {
      var n := |queue| - 1;
      var c := queue[n];
      assert c in multiset(other);
      var j :| 0 <= j < |other| && other[j] == c;
      RemovedMatches(queue, other, n, j);
      BetweenIgnoresOrder(queue[..n], other[..j] + other[j + 1..], a, b);
      BetweenStep(queue, a, b);
      BetweenOne(other, j, a, b);
    }
  }

  lemma RemovedMatches(queue: seq<Contribution>, other: seq<Contribution>, n: nat, j: nat)
    requires |queue| == n + 1 && j < |other| && queue[n] == other[j] && multiset(queue) == multiset(other)
    ensures multiset(queue[..n]) == multiset(other[..j] + other[j + 1..])
  {
    assert queue == queue[..n] + [queue[n]];
    assert other == other[..j] + [other[j]] + other[j + 1..];
    assert multiset(queue[..n]) == multiset(queue) - multiset{queue[n]};
  }

  lemma BetweenOne(other: seq<Contribution>, j: nat, a: Address, b: Address)
    requires j < |other|
    ensures Between(other, a, b) ==
      Between(other[..j] + other[j + 1..], a, b) + Meets(other[j], a, b)
  {
    var front, back := other[..j], other[j + 1..];
    assert other == (front + [other[j]]) + back;
    BetweenAppend(front + [other[j]], back, a, b);
    BetweenAppend(front, back, a, b);
    BetweenStep(front + [other[j]], a, b);
    assert (front + [other[j]])[..j] == front;
  }

  lemma HalvesAreMirrored(op: Op, a: Address, b: Address)
    ensures Between(Halves(op), a, b) == Between(Halves(op), b, a)
    ensures Between(Halves(op), a, a) == 0
  {
    hide HistoryOf;
    var h := Halves(op);
    if h != [] {
      forall x, y ensures Between(h, x, y) == Meets(h[0], x, y) + Meets(h[1], x, y) {
        BetweenStep(h, x, y);
        BetweenStep(h[..1], x, y);
        BetweenNone(x, y);
        assert h[..1][..0] == [];
      }
    } else {
      BetweenNone(a, b);
      BetweenNone(b, a);
      BetweenNone(a, a);
    }
  }

  lemma BetweenNone(a: Address, b: Address)
    ensures Between([], a, b) == 0
  {
  }

  lemma {:induction false} AllHalvesAreMirrored(ops: seq<Op>, a: Address, b: Address)
    ensures Between(AllHalves(ops), a, b) == Between(AllHalves(ops), b, a)
    ensures Between(AllHalves(ops), a, a) == 0
  {
    hide Between;
    hide Halves;
    if ops == [] {
      BetweenNone(a, b);
      BetweenNone(b, a);
      BetweenNone(a, a);
    } else {
      var n := |ops| - 1;
      AllHalvesAreMirrored(ops[..n], a, b);
      HalvesAreMirrored(ops[n], a, b);
      BetweenAppend(AllHalves(ops[..n]), Halves(ops[n]), a, b);
      BetweenAppend(AllHalves(ops[..n]), Halves(ops[n]), b, a);
      BetweenAppend(AllHalves(ops[..n]), Halves(ops[n]), a, a);
    }
  }

  function CountIn(scores: Scores, a: Address, b: Address): nat
  {
    if a in scores then CountWith(scores[a], b) else 0
  }

  lemma CountIsBetween(queue: seq<Contribution>, a: Address, b: Address, d: Decay)
    ensures CountIn(Queued(queue, d), a, b) == Between(queue, a, b)
  {
    RecordIsFolded(queue, a, d);
    if a in Queued(queue, d) { CountsAreHistory(queue, a, b, d); }
  }

  /** However the two halves of any calls were interleaved in the queue, the two parties of every
      pair have counted each other equally often, and nobody has counted themselves. */
  lemma CountsAreSymmetric(ops: seq<Op>, queue: seq<Contribution>, a: Address, b: Address, d: Decay)
    requires multiset(queue) == multiset(AllHalves(ops))
    ensures CountIn(Queued(queue, d), a, b) == CountIn(Queued(queue, d), b, a)
    ensures CountIn(Queued(queue, d), a, a) == 0
  {
    hide Queued;
    hide Between;
    CountIsBetween(queue, a, b, d);
    CountIsBetween(queue, b, a, d);
    CountIsBetween(queue, a, a, d);
    BetweenIgnoresOrder(queue, AllHalves(ops), a, b);
    BetweenIgnoresOrder(queue, AllHalves(ops), b, a);
    BetweenIgnoresOrder(queue, AllHalves(ops), a, a);
    AllHalvesAreMirrored(ops, a, b);
  }

  // ── What one call does to the scores ──────────────────────────────────────────

  /** An amount's weight after `earlier` events with the same counterparty. */
  function Share(scale: real, earlier: nat): real { scale * (1.0 / (1 + earlier) as real) }

  /** One more than `earlier` of these make the whole weight. */
  lemma SharesMakeTheWhole(scale: real, earlier: nat)
    ensures Share(scale, earlier) * (1 + earlier) as real == scale
    ensures Share(scale, 0) == scale
  {
    var n := (1 + earlier) as real;
    assert (1.0 / n) * n == 1.0;
    assert scale * (1.0 / n) * n == scale * ((1.0 / n) * n);
  }

  /** What a contribution adds to a score; `scaled` is its amount's weight after dampening. */
  ghost predicate IsWorth(kind: Kind, scaled: real, gain: real)
  {
    && (kind == EscrowCompleted ==> gain == 5.0 * scaled)
    && (kind == DisputeWon ==> gain == 2.0 * scaled)
    && (kind == DisputeLost ==> gain == -10.0 * scaled)
    && (kind == DisputeSplit ==> gain == -2.0 * scaled)
  }

  /** What a resolved dispute adds to a party's score: winning raises it, losing and splitting lower it. */
  ghost predicate IsGain(o: Outcome, scaled: real, gain: real)
  {
    && (o == Won ==> gain == 2.0 * scaled)
    && (o == Lost ==> gain == -10.0 * scaled)
    && (o == Split ==> gain == -2.0 * scaled)
  }

  /** The score an address reads at `now`. */
  function ScoreIn(scores: Scores, a: Address, now: Time, d: Decay): real
  {
    if a in scores then Decayed(scores[a], now, d).score else 0.0
  }

  lemma ContributionIsWorth(existing: Option<Record>, c: Contribution, d: Decay)
    ensures var r := Contributed(existing, c, d);
      var k := if existing.Some? then CountWith(existing.value, c.counterparty) else 0;
      var before := if existing.Some? then Decayed(existing.value, c.at, d).score else 0.0;
      && IsWorth(c.kind, Share(c.scale, k), r.score - before)
      && Decayed(r, c.at, d) == r
  {
    hide Newest;
    if existing.Some? { DecayedCounts(existing.value, c, d); }
    var k := if existing.Some? then CountWith(existing.value, c.counterparty) else 0;
    var before := if existing.Some? then Decayed(existing.value, c.at, d).score else 0.0;
    assert Contributed(existing, c, d).score == before + Dampened(c, k);
    DampenedIsWorth(c, k);
    hide Dampened;
    hide IsWorth;
  }

  lemma DampenedIsWorth(c: Contribution, k: nat)
    ensures IsWorth(c.kind, Share(c.scale, k), Dampened(c, k))
  {
    Reassociates(WeightOf(c.kind), c.scale, 1.0 / (1 + k) as real);
  }

  lemma Reassociates(x: real, y: real, z: real)
    ensures x * y * z == x * (y * z)
  {
  }

  /** The score of `a` differs by what an event of this kind is worth, dampened by the earlier ones with `b`. */
  ghost predicate Moves(before: Scores, after: Scores, kind: Kind, share: real, a: Address, at: Time, d: Decay)
  {
    a in after && IsWorth(kind, share, ScoreIn(after, a, at, d) - ScoreIn(before, a, at, d))
  }

  lemma MovesIsOwn(before: Scores, after: Scores, before': Scores, after': Scores, kind: Kind, share: real, a: Address, at: Time, d: Decay)
    requires Moves(before, after, kind, share, a, at, d)
    requires RecordOf(before', a) == RecordOf(before, a) && RecordOf(after', a) == RecordOf(after, a)
    ensures Moves(before', after', kind, share, a, at, d)
  {
    hide IsWorth;
  }

  /** One contribution changes its own address's score, and nobody else's record. */
  lemma QueuedOneMore(queue: seq<Contribution>, c: Contribution, d: Decay)
    ensures var before, after := Queued(queue, d), Queued(queue + [c], d);
      && c.address in after && after == before[c.address := after[c.address]]
      && Moves(before, after, c.kind, Share(c.scale, Between(queue, c.address, c.counterparty)), c.address, c.at, d)
  {
    assert (queue + [c])[..|queue|] == queue;
    ContributionIsWorth(RecordOf(Queued(queue, d), c.address), c, d);
    CountIsBetween(queue, c.address, c.counterparty, d);
    hide Contributed;
    hide IsWorth;
    hide Decayed;
    hide Between;
    hide Share;
  }

  lemma TwoContributions(queue: seq<Contribution>, x: Contribution, y: Contribution, d: Decay)
    requires x.address != y.address && x.counterparty == y.address && y.counterparty == x.address && x.at == y.at
    ensures var before, after := Queued(queue, d), Queued(queue + [x, y], d);
      && OnlyMoves(before, after, x.address, y.address)
      && Moves(before, after, x.kind, Share(x.scale, Between(queue, x.address, y.address)), x.address, x.at, d)
      && Moves(before, after, y.kind, Share(y.scale, Between(queue, y.address, x.address)), y.address, x.at, d)
  {
    hide Queued;
    hide Between;
    hide Share;
    hide Moves;
    QueuedOneMore(queue, x, d);
    QueuedOneMore(queue + [x], y, d);
    OtherHalfIsNotCounted(queue, x);
    assert (queue + [x]) + [y] == queue + [x, y];
    var before, mid, after := Queued(queue, d), Queued(queue + [x], d), Queued(queue + [x, y], d);
    MovesIsOwn(before, mid, before, after, x.kind, Share(x.scale, Between(queue, x.address, y.address)), x.address, x.at, d);
    MovesIsOwn(mid, after, before, after, y.kind, Share(y.scale, Between(queue, y.address, x.address)), y.address, x.at, d);
  }

  lemma OtherHalfIsNotCounted(queue: seq<Contribution>, x: Contribution)
    requires x.address != x.counterparty
    ensures Between(queue + [x], x.counterparty, x.address) == Between(queue, x.counterparty, x.address)
  {
    BetweenStep(queue + [x], x.counterparty, x.address);
    assert (queue + [x])[..|queue|] == queue;
    hide Between;
  }

  /** No record but these two has changed. */
  ghost predicate OnlyMoves(before: Scores, after: Scores, x: Address, y: Address)
  {
    after.Keys == before.Keys + {x, y} && forall a :: a in before && a !in {x, y} ==> after[a] == before[a]
  }

  lemma OutcomeIsGain(before: Scores, after: Scores, o: Outcome, scale: real, earlier: nat, a: Address, at: Time, d: Decay)
    requires Moves(before, after, KindFor(o), Share(scale, earlier), a, at, d) && (a !in before ==> earlier == 0)
    ensures IsGain(o, Share(scale, earlier), ScoreIn(after, a, at, d) - ScoreIn(before, a, at, d))
    ensures a !in before ==> IsGain(o, scale, ScoreIn(after, a, at, d))
  {
    SharesMakeTheWhole(scale, earlier);
    hide Share;
    hide Decayed;
  }

  lemma CompletionIsGain(before: Scores, after: Scores, scale: real, earlier: nat, a: Address, at: Time, d: Decay)
    requires Moves(before, after, EscrowCompleted, Share(scale, earlier), a, at, d) && (a !in before ==> earlier == 0)
    ensures ScoreIn(after, a, at, d) == ScoreIn(before, a, at, d) + 5.0 * Share(scale, earlier)
    ensures a !in before ==> ScoreIn(after, a, at, d) == 5.0 * scale
  {
    SharesMakeTheWhole(scale, earlier);
    hide Share;
    hide Decayed;
  }

  /** Who is in no record has met nobody. */
  lemma StrangersHaveNotMet(queue: seq<Contribution>, x: Address, y: Address, d: Decay)
    requires x !in Queued(queue, d)
    ensures Between(queue, x, y) == 0
  {
    CountIsBetween(queue, x, y, d);
    hide Queued;
    hide Between;
  }

  /**
   * A resolved dispute raises the winner's score by 2 times the amount's weight, and lowers the loser's by
   * 10 times and each party's by 2 times when it is split, over one more than the number of earlier events
   * between the two.
   */
  ghost predicate DisputeMoves(queue: seq<Contribution>, before: Scores, after: Scores, x: Address, y: Address,
                               ox: Outcome, oy: Outcome, scale: real, at: Time, d: Decay)
  {
    && OnlyMoves(before, after, x, y)
    && IsGain(ox, Share(scale, Between(queue, x, y)), ScoreIn(after, x, at, d) - ScoreIn(before, x, at, d))
    && IsGain(oy, Share(scale, Between(queue, y, x)), ScoreIn(after, y, at, d) - ScoreIn(before, y, at, d))
    && (x !in before ==> IsGain(ox, scale, ScoreIn(after, x, at, d)))
    && (y !in before ==> IsGain(oy, scale, ScoreIn(after, y, at, d)))
  }

  lemma DisputeMovesScores(queue: seq<Contribution>, x: Address, y: Address, ox: Outcome, oy: Outcome, scale: real, at: Time, d: Decay)
    requires x != y
    ensures DisputeMoves(queue, Queued(queue, d), Queued(queue + Halves(Resolved(x, y, ox, oy, scale, at)), d), x, y, ox, oy, scale, at, d)
  {
    hide Moves;
    hide KindFor;
    hide Queued;
    hide ScoreIn;
    hide Between;
    hide Share;
    hide IsGain;
    TwoContributions(queue, Contribution(x, y, KindFor(ox), scale, at), Contribution(y, x, KindFor(oy), scale, at), d);
    var before, after := Queued(queue, d), Queued(queue + Halves(Resolved(x, y, ox, oy, scale, at)), d);
    if x !in before { StrangersHaveNotMet(queue, x, y, d); }
    if y !in before { StrangersHaveNotMet(queue, y, x, d); }
    OutcomeIsGain(before, after, ox, scale, Between(queue, x, y), x, at, d);
    OutcomeIsGain(before, after, oy, scale, Between(queue, y, x), y, at, d);
    hide OnlyMoves;
  }

  /** A completed escrow raises both scores by 5 times the amount's weight over that number. */
  ghost predicate CompletionMoves(queue: seq<Contribution>, before: Scores, after: Scores, x: Address, y: Address,
                                  scale: real, at: Time, d: Decay)
  {
    && OnlyMoves(before, after, x, y)
    && ScoreIn(after, x, at, d) == ScoreIn(before, x, at, d) + 5.0 * Share(scale, Between(queue, x, y))
    && ScoreIn(after, y, at, d) == ScoreIn(before, y, at, d) + 5.0 * Share(scale, Between(queue, y, x))
    && (x !in before ==> ScoreIn(after, x, at, d) == 5.0 * scale)
    && (y !in before ==> ScoreIn(after, y, at, d) == 5.0 * scale)
  }

  lemma CompletionMovesScores(queue: seq<Contribution>, x: Address, y: Address, scale: real, at: Time, d: Decay)
    requires x != y
    ensures CompletionMoves(queue, Queued(queue, d), Queued(queue + Halves(Completed(x, y, scale, at)), d), x, y, scale, at, d)
  {
    hide Moves;
    hide Queued;
    hide ScoreIn;
    hide Between;
    hide Share;
    TwoContributions(queue, Contribution(x, y, EscrowCompleted, scale, at), Contribution(y, x, EscrowCompleted, scale, at), d);
    var before, after := Queued(queue, d), Queued(queue + Halves(Completed(x, y, scale, at)), d);
    if x !in before { StrangersHaveNotMet(queue, x, y, d); }
    if y !in before { StrangersHaveNotMet(queue, y, x, d); }
    CompletionIsGain(before, after, scale, Between(queue, x, y), x, at, d);
    CompletionIsGain(before, after, scale, Between(queue, y, x), y, at, d);
    hide OnlyMoves;
  }

  // ── Overlapping calls ─────────────────────────────────────────────────────────

  /**
   * Each call takes its time before it queues, and its second half queues only after its first has
   * run. Escrows of 1 with 2 at time 1 and of 2 with 3 at time 2 can therefore reach address 2 in
   * the order 2, 1: its clock is set back and the later escrow is decayed for a moment it never
   * lived through.
   */
  lemma OverlapOverDecays(d: Decay)
    requires Memoryless(d) && d(1) != 1.0
    ensures var queue := Overlapping();
      && multiset(queue) == multiset(AllHalves([Completed(1, 2, 1.0, 1), Completed(2, 3, 1.0, 2)]))
      && 2 in Queued(queue, d) && !Ordered(HistoryOf(queue, 2), 2)
    ensures var score := Decayed(Queued(Overlapping(), d)[2], 2, d).score;
      var history := HistoryOf(Overlapping(), 2);
      && score != FullScore(history, |history|, 2, d)
      && (d(1) < 1.0 ==> score < FullScore(history, |history|, 2, d))
  {
    hide Decayed;
    hide Queued;
    hide Folded;
    hide AgedScore;
    hide FullScore;
    hide Memoryless;
    hide HistoryOf;
    hide AllHalves;
    hide Ordered;
    OverlappingHistory();
    hide Overlapping;
    var queue := Overlapping();
    RecordIsFolded(queue, 2, d);
    FoldedShape(HistoryOf(queue, 2), d);
    ScoreIsAgedHistory(queue, 2, 2, d);
    SwappedScores(Contribution(2, 3, EscrowCompleted, 1.0, 2), Contribution(2, 1, EscrowCompleted, 1.0, 1), d);
  }

  /** The queue of those two calls: the second one's first half overtakes the first one's second half. */
  function Overlapping(): seq<Contribution>
  {
    var first, second := Halves(Completed(1, 2, 1.0, 1)), Halves(Completed(2, 3, 1.0, 2));
    [first[0], second[0], first[1], second[1]]
  }

  lemma OverlappingHistory()
    ensures multiset(Overlapping()) == multiset(AllHalves([Completed(1, 2, 1.0, 1), Completed(2, 3, 1.0, 2)]))
    ensures HistoryOf(Overlapping(), 2)
         == [Contribution(2, 3, EscrowCompleted, 1.0, 2), Contribution(2, 1, EscrowCompleted, 1.0, 1)]
  {
    hide AllHalves;
    hide HistoryOf;
    var x, y := Completed(1, 2, 1.0, 1), Completed(2, 3, 1.0, 2);
    TwoCalls(x, y);
    var first, second := Halves(x), Halves(y);
    assert first == [first[0], first[1]] && second == [second[0], second[1]];
    SecondOfFour(first[0], second[0], first[1], second[1]);
  }

  lemma TwoCalls(x: Op, y: Op)
    ensures AllHalves([x, y]) == Halves(x) + Halves(y)
  {
    assert [x, y][..1] == [x] && [x][..0] == [];
    assert AllHalves([x]) == AllHalves([]) + Halves(x) == Halves(x);
  }

  lemma SecondOfFour(a: Contribution, b: Contribution, c: Contribution, e: Contribution)
    requires a.address != 2 && b.address == c.address == 2 && e.address != 2
    ensures HistoryOf([a, b, c, e], 2) == [b, c]
  {
    assert [a, b, c, e][..3] == [a, b, c] && [a, b, c][..2] == [a, b] && [a, b][..1] == [a] && [a][..0] == [];
    assert HistoryOf([a], 2) == HistoryOf([], 2) == [];
    assert HistoryOf([a, b], 2) == [b];
    assert HistoryOf([a, b, c], 2) == [b, c];
  }

  lemma SwappedScores(later: Contribution, earlier: Contribution, d: Decay)
    requires later == Contribution(2, 3, EscrowCompleted, 1.0, 2)
    requires earlier == Contribution(2, 1, EscrowCompleted, 1.0, 1)
    requires Memoryless(d) && d(1) != 1.0
    ensures AgedScore([later, earlier], 2, 2, d) != FullScore([later, earlier], 2, 2, d)
    ensures !Ordered([later, earlier], 2)
    ensures d(1) < 1.0 ==> AgedScore([later, earlier], 2, 2, d) < FullScore([later, earlier], 2, 2, d)
  {
    var h := [later, earlier];
    assert Worth(h, 0) == 5.0 && Worth(h, 1) == 5.0 by {
      assert h[..0] == [] && h[..1] == [later] && [later][..0] == [];
      assert Times([later], 1) == Times([], 1) == 0;
    }
    assert Aged(h, 1, 2) == 1 && Aged(h, 0, 2) == 1;
    assert AgedScore(h, 1, 2, d) == AgedScore(h, 0, 2, d) + 5.0 * d(1);
    assert FullScore(h, 1, 2, d) == FullScore(h, 0, 2, d) + 5.0 * d(0);
  }

  // ── The audit trail ───────────────────────────────────────────────────────────

  /** The entry kept for contribution `i` of a history. */
  function EntryOf(history: seq<Contribution>, i: nat): Entry
    requires i < |history|
  {
    Entry(history[i].kind, history[i].counterparty, Worth(history, i), history[i].at)
  }

  ghost predicate Trails(recent: seq<Entry>, history: seq<Contribution>)
  {
    && |recent| == (if |history| < 20 then |history| else 20)
    && forall j :: 0 <= j < |recent| ==> recent[j] == EntryOf(history, |history| - 1 - j)
  }

  lemma TrailGrows(recent: seq<Entry>, history: seq<Contribution>, c: Contribution, e: Entry)
    requires Trails(recent, history) && e == EntryOf(history + [c], |history|)
    ensures Trails(Newest([e] + recent), history + [c])
  {
    hide Worth;
    var more := Newest([e] + recent);
    forall j | 1 <= j < |more| ensures more[j] == EntryOf(history + [c], |history| - j) {
      WorthIsPrefix(history, c, |history| - j);
      assert more[j] == recent[j - 1];
    }
  }

  /** The record keeps the newest 20 entries, newest first, each with what it added to the score. */
  lemma {:induction false} RecentIsNewest(history: seq<Contribution>, d: Decay)
    requires history != []
    ensures Trails(Folded(history, d).value.recentEvents, history)
  {
    hide Dampened;
    hide Newest;
    hide Trails;
    hide Times;
    var n := |history| - 1;
    var c := history[n];
    FoldedShape(history[..n], d);
    LastWorth(history[..n], c, c.at);
    assert history[..n] + [c] == history;
    NoTrail();
    if n > 0 { RecentIsNewest(history[..n], d); }
    var before := if n == 0 then [] else Folded(history[..n], d).value.recentEvents;
    var prior := Times(history[..n], c.counterparty);
    TrailGrows(before, history[..n], c, Entry(c.kind, c.counterparty, Dampened(c, prior), c.at));
    if n == 0 { assert history[..n] == []; EmptyScore(c.at, d); }
  }

  lemma NoTrail()
    ensures Trails([], [])
  {
  }
}
