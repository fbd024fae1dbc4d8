// A concurrent map with a bound on the calls in flight: runners share one cursor into the items.
module ConcurrentMap {
  import opened Common

  datatype Settled<+R> = Fulfilled(value: R) | Rejected(reason: string)

  /** A runner is between items, waits for its worker call on an item, or has returned. */
  datatype Runner = Idle | Working(index: nat) | Stopped

  /** `calls` lists the worker calls made so far, by item index. */
  datatype Pool<R> = Pool(cursor: nat, runners: seq<Runner>, results: seq<Option<Settled<R>>>, calls: seq<nat>)

  /** A JavaScript number, as far as the limit depends on it. */
  datatype Number = Finite(value: real) | NaN | Infinite(positive: bool)

  /** How many runners are started. */
  function RunnerCount(concurrency: Number, n: nat): (count: nat)
    ensures count <= n && (n > 0 ==> count >= 1)
    ensures concurrency == NaN || concurrency == Infinite(false) || (concurrency.Finite? && concurrency.value < 1.0) ==> count <= 1
    ensures concurrency == Infinite(true) ==> count == n
    ensures concurrency.Finite? && concurrency.value >= 1.0 && count > 0 ==>
      count as real <= concurrency.value && (count == n || concurrency.value < (count + 1) as real)
  {
    match concurrency
    case Finite(v) => if v.Floor < 1 then (if n < 1 then n else 1) else if v.Floor < n then v.Floor else n
    case NaN => if n < 1 then n else 1
    case Infinite(positive) => if positive || n < 1 then n else 1
  }

  function Start<R>(n: nat, concurrency: Number): Pool<R>
  {
    Pool(0, seq(RunnerCount(concurrency, n), _ => Idle), seq(n, _ => None), [])
  }

  /** Runner `r` runs until it next waits: it takes an item, or stores the outcome of its call. */
  function StepOf<T, R>(items: seq<T>, worker: (T, nat) -> Settled<R>, p: Pool<R>, r: nat): Pool<R>
    requires CanStep(items, p, r)
  {
    match p.runners[r]
    case Idle =>
      var index := p.cursor;
      if |items| <= index then p.(cursor := index + 1, runners := p.runners[r := Stopped])
      else p.(cursor := index + 1, runners := p.runners[r := Working(index)], calls := p.calls + [index])
    case Working(index) =>
      p.(runners := p.runners[r := Idle], results := p.results[index := Some(worker(items[index], index))])
    case Stopped => p
  }

  predicate CanStep<T, R>(items: seq<T>, p: Pool<R>, r: nat)
  {
    && r < |p.runners| && !p.runners[r].Stopped? && |p.results| == |items|
    && (p.runners[r].Working? ==> p.runners[r].index < |items|)
  }

  predicate AllStopped<R>(p: Pool<R>) { forall r :: 0 <= r < |p.runners| ==> p.runners[r].Stopped? }

  /** How many runners wait for a worker call. */
  function InFlight(runners: seq<Runner>): nat
  {
    if runners == [] then 0
    else InFlight(runners[..|runners| - 1]) + if runners[|runners| - 1].Working? then 1 else 0
  }

  function Weight(r: Runner): nat { match r case Working(_) => 2 case Idle => 1 case Stopped => 0 }

  function Weights(runners: seq<Runner>): nat
  {
    if runners == [] then 0 else Weights(runners[..|runners| - 1]) + Weight(runners[|runners| - 1])
  }

  function Taken<R>(p: Pool<R>): nat { if p.cursor < |p.results| then p.cursor else |p.results| }

  /** The steps still to be taken. */
  function StepsLeft<R>(p: Pool<R>): nat { 2 * (|p.results| - Taken(p)) + Weights(p.runners) }

  ghost predicate HeldBy(runners: seq<Runner>, r: nat, i: nat)
  {
    r < |runners| && runners[r] == Working(i)
  }

  ghost predicate Held(runners: seq<Runner>, i: nat)
  {
    exists r :: HeldBy(runners, r, i)
  }

  /** Every item before the cursor was called once, in order, and is held by one runner or settled
      with its outcome; a runner stops only when the items are used up. */
  ghost predicate Inv<T, R>(items: seq<T>, worker: (T, nat) -> Settled<R>, p: Pool<R>)
  {
    && |p.results| == |items|
    && |p.calls| == Taken(p) && (forall i :: 0 <= i < |p.calls| ==> p.calls[i] == i)
    && (forall r: nat, i: nat :: HeldBy(p.runners, r, i) ==> i < Taken(p) && p.results[i] == None)
    && (forall r: nat, s: nat, i: nat :: HeldBy(p.runners, r, i) && HeldBy(p.runners, s, i) ==> r == s)
    && (forall i :: 0 <= i < Taken(p) ==> Held(p.runners, i) || p.results[i] == Some(worker(items[i], i)))
    && (forall i :: Taken(p) <= i < |items| ==> p.results[i] == None)
    && (forall r :: 0 <= r < |p.runners| && p.runners[r].Stopped? ==> |items| <= p.cursor)
  }

  lemma StartHolds<T, R>(items: seq<T>, worker: (T, nat) -> Settled<R>, concurrency: Number)
    ensures Inv(items, worker, Start(|items|, concurrency))
  {
  }

  lemma TakeKeepsInv<T, R>(items: seq<T>, worker: (T, nat) -> Settled<R>, p: Pool<R>, r: nat)
    requires Inv(items, worker, p) && r < |p.runners| && p.runners[r].Idle?
    ensures Inv(items, worker, StepOf(items, worker, p, r))
  {
    var q := StepOf(items, worker, p, r);
    forall s, i ensures HeldBy(q.runners, s, i) <==> (s == r && p.cursor < |items| && i == p.cursor) || HeldBy(p.runners, s, i) {}
    forall i | 0 <= i < Taken(q) ensures Held(q.runners, i) || q.results[i] == Some(worker(items[i], i)) {
      if Held(p.runners, i) {
        var s :| HeldBy(p.runners, s, i);
        assert HeldBy(q.runners, s, i);
      } else if Taken(p) <= i {
        assert HeldBy(q.runners, r, i);
      }
    }
  }

  lemma SettleKeepsInv<T, R>(items: seq<T>, worker: (T, nat) -> Settled<R>, p: Pool<R>, r: nat, index: nat)
    requires Inv(items, worker, p) && HeldBy(p.runners, r, index)
    ensures index < |items| && Inv(items, worker, StepOf(items, worker, p, r))
  {
    var q := StepOf(items, worker, p, r);
    forall s, i ensures HeldBy(q.runners, s, i) <==> s != r && HeldBy(p.runners, s, i) {}
    forall i | 0 <= i < Taken(q) ensures Held(q.runners, i) || q.results[i] == Some(worker(items[i], i)) {
      if i != index && Held(p.runners, i) {
        var s :| HeldBy(p.runners, s, i);
        assert HeldBy(q.runners, s, i);
      }
    }
  }

  /** A runner that has not returned can step, and its step keeps the invariant. */
  lemma StepKeepsInv<T, R>(items: seq<T>, worker: (T, nat) -> Settled<R>, p: Pool<R>, r: nat)
    requires Inv(items, worker, p) && r < |p.runners| && !p.runners[r].Stopped?
    ensures CanStep(items, p, r)
    ensures Inv(items, worker, StepOf(items, worker, p, r))
  {
    if p.runners[r].Idle? {
      TakeKeepsInv(items, worker, p, r);
    } else {
      assert HeldBy(p.runners, r, p.runners[r].index);
      SettleKeepsInv(items, worker, p, r, p.runners[r].index);
    }
  }

  lemma {:induction false} WeightsPut(runners: seq<Runner>, r: nat, to: Runner)
    requires r < |runners|
    ensures Weights(runners[r := to]) + Weight(runners[r]) == Weights(runners) + Weight(to)
  {
    var n := |runners| - 1;
    if r < n {
      WeightsPut(runners[..n], r, to);
      assert runners[r := to][..n] == runners[..n][r := to];
    } else {
      assert runners[r := to][..n] == runners[..n];
    }
  }

  /** Every step of every runner is one of the steps left. */
  lemma EachStepCounts<T, R>(items: seq<T>, worker: (T, nat) -> Settled<R>, p: Pool<R>, r: nat)
    requires CanStep(items, p, r)
    ensures StepsLeft(StepOf(items, worker, p, r)) == StepsLeft(p) - 1
  {
    hide Weights;
    WeightsPut(p.runners, r, StepOf(items, worker, p, r).runners[r]);
  }

  lemma {:induction false} IdleWeights(runners: seq<Runner>)
    requires forall r :: 0 <= r < |runners| ==> runners[r].Idle?
    ensures Weights(runners) == |runners|
  {
    if runners != [] { IdleWeights(runners[..|runners| - 1]); }
  }

  lemma {:induction false} NoWeightMeansStopped(runners: seq<Runner>)
    ensures Weights(runners) == 0 <==> forall r :: 0 <= r < |runners| ==> runners[r].Stopped?
  {
    if runners != [] {
      var n := |runners| - 1;
      NoWeightMeansStopped(runners[..n]);
      assert forall r :: 0 <= r < n ==> runners[..n][r] == runners[r];
    }
  }

  /** The pool after the runners named by `schedule` have stepped, if each could when its turn came. */
  function Played<T, R>(items: seq<T>, worker: (T, nat) -> Settled<R>, p: Pool<R>, schedule: seq<nat>): Option<Pool<R>>
  {
    if schedule == [] then Some(p)
    else
      var n := |schedule| - 1;
      var mid := Played(items, worker, p, schedule[..n]);
      if mid.Some? && CanStep(items, mid.value, schedule[n]) then Some(StepOf(items, worker, mid.value, schedule[n])) else None
  }

  lemma {:induction false} RunsKeepInv<T, R>(items: seq<T>, worker: (T, nat) -> Settled<R>, p: Pool<R>,
          schedule: seq<nat>, q: Pool<R>)
    requires Inv(items, worker, p) && Played(items, worker, p, schedule) == Some(q)
    ensures Inv(items, worker, q) && |q.runners| == |p.runners| && StepsLeft(q) == StepsLeft(p) - |schedule|
  {
    hide Inv;
    hide StepsLeft;
    if schedule != [] {
      var n := |schedule| - 1;
      var mid := Played(items, worker, p, schedule[..n]).value;
      RunsKeepInv(items, worker, p, schedule[..n], mid);
      StepKeepsInv(items, worker, mid, schedule[n]);
      EachStepCounts(items, worker, mid, schedule[n]);
    }
  }

  /**
   * For every interleaving of the runners: at no time are more calls in flight than there are
   * runners, no item is called twice, and the map returns after exactly two steps an item and one a
   * runner, neither sooner nor later.
   */
  lemma EveryRunIsBounded<T, R>(items: seq<T>, worker: (T, nat) -> Settled<R>, concurrency: Number,
          schedule: seq<nat>, q: Pool<R>)
    requires Played(items, worker, Start(|items|, concurrency), schedule) == Some(q)
    ensures InFlight(q.runners) <= RunnerCount(concurrency, |items|) <= |items|
    ensures concurrency.Finite? && concurrency.value >= 1.0 ==> InFlight(q.runners) as real <= concurrency.value
    ensures InFlight(q.runners) == |set r | 0 <= r < |q.runners| && q.runners[r].Working?|
    ensures forall i, j :: 0 <= i < j < |q.calls| ==> q.calls[i] != q.calls[j]
    ensures |schedule| <= 2 * |items| + RunnerCount(concurrency, |items|)
    ensures AllStopped(q) <==> |schedule| == 2 * |items| + RunnerCount(concurrency, |items|)
  {
    hide Inv;
    hide InFlight;
    hide Played;
    var p: Pool<R> := Start(|items|, concurrency);
    StartHolds(items, worker, concurrency);
    RunsKeepInv(items, worker, p, schedule, q);
    IdleWeights(p.runners);
    InFlightBounded(q.runners);
    InFlightIsCount(q.runners);
    DoneWhenNoStepsLeft(items, worker, q);
  }

  lemma DoneWhenNoStepsLeft<T, R>(items: seq<T>, worker: (T, nat) -> Settled<R>, q: Pool<R>)
    requires Inv(items, worker, q) && (items == [] || q.runners != [])
    ensures AllStopped(q) <==> StepsLeft(q) == 0
    ensures forall i, j :: 0 <= i < j < |q.calls| ==> q.calls[i] != q.calls[j]
  {
    NoWeightMeansStopped(q.runners);
    if items != [] && AllStopped(q) { assert q.runners[0].Stopped?; }
    if StepsLeft(q) == 0 { assert Weights(q.runners) == 0; }
  }

  lemma {:induction false} InFlightIsCount(runners: seq<Runner>)
    ensures InFlight(runners) == |set r | 0 <= r < |runners| && runners[r].Working?|
  {
    var all := set r | 0 <= r < |runners| && runners[r].Working?;
    if runners == [] {
      assert all == {};
    } else {
      var n := |runners| - 1;
      InFlightIsCount(runners[..n]);
      var rest := set r | 0 <= r < |runners[..n]| && runners[..n][r].Working?;
      assert all == if runners[n].Working? then rest + {n} else rest;
    }
  }

  lemma {:induction false} InFlightBounded(runners: seq<Runner>)
    ensures InFlight(runners) <= |runners|
  {
    if runners != [] { InFlightBounded(runners[..|runners| - 1]); }
  }

  /** Once every runner has returned, each item was called exactly once and its slot holds its own
      outcome, rejected or not. */
  lemma ReturnsEveryOutcome<T, R>(items: seq<T>, worker: (T, nat) -> Settled<R>, concurrency: Number,
          schedule: seq<nat>, q: Pool<R>)
    requires Played(items, worker, Start(|items|, concurrency), schedule) == Some(q) && AllStopped(q)
    ensures |q.results| == |items| && forall i :: 0 <= i < |items| ==> q.results[i] == Some(worker(items[i], i))
    ensures |q.calls| == |items| && forall i :: 0 <= i < |items| ==> q.calls[i] == i
  {
    hide Played;
    StartHolds(items, worker, concurrency);
    RunsKeepInv(items, worker, Start(|items|, concurrency), schedule, q);
    StoppedIsDone(items, worker, q);
  }

  lemma StoppedIsDone<T, R>(items: seq<T>, worker: (T, nat) -> Settled<R>, q: Pool<R>)
    requires Inv(items, worker, q) && AllStopped(q) && (items == [] || q.runners != [])
    ensures forall i :: 0 <= i < |items| ==> q.results[i] == Some(worker(items[i], i))
    ensures |q.calls| == |items| && forall i :: 0 <= i < |items| ==> q.calls[i] == i
  {
    if items != [] { assert q.runners[0].Stopped?; }
    forall i | 0 <= i < |items| ensures q.results[i] == Some(worker(items[i], i)) {
      assert q.runners[0].Stopped?;
      assert !Held(q.runners, i);
    }
  }

  /** The runners in an arbitrary interleaving, sharing the results array. */
  method MapWithConcurrency<T, R>(items: seq<T>, concurrency: Number, worker: (T, nat) -> Settled<R>)
    returns (results: array<Option<Settled<R>>>)
    ensures fresh(results) && results.Length == |items|
    ensures forall i :: 0 <= i < |items| ==> results[i] == Some(worker(items[i], i))
  {
    hide Inv;
    hide StepsLeft;
    results := new Option<Settled<R>>[|items|](_ => None);
    var p: Pool<R> := Start(|items|, concurrency);
    StartHolds(items, worker, concurrency);
    assert results[..] == p.results;
    while !AllStopped(p)
      invariant Inv(items, worker, p) && results[..] == p.results && |p.runners| == RunnerCount(concurrency, |items|)
      decreases StepsLeft(p)
    {
      var r: nat :| r < |p.runners| && !p.runners[r].Stopped?;
      StepKeepsInv(items, worker, p, r);
      EachStepCounts(items, worker, p, r);
      if p.runners[r].Working? {
        var index := p.runners[r].index;
        results[index] := Some(worker(items[index], index));
      }
      p := StepOf(items, worker, p, r);
    }
    StoppedIsDone(items, worker, p);
  }

  /** How many of the outcomes are rejections. */
  method CountRejected<R>(results: seq<Settled<R>>) returns (n: nat)
    ensures n == |set i | 0 <= i < |results| && results[i].Rejected?|
  {
    n := 0;
    var i := 0;
    while i < |results|
      invariant i <= |results| && n == |set j | 0 <= j < i && results[j].Rejected?|
    {
      var before := set j | 0 <= j < i && results[j].Rejected?;
      var after := set j | 0 <= j < i + 1 && results[j].Rejected?;
      assert after == if results[i].Rejected? then before + {i} else before;
      if results[i].Rejected? { n := n + 1; }
      i := i + 1;
    }
  }
}
