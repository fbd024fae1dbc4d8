// One migration run: expand, backfill and contract, and the rollback of whatever was attempted.
module Migration {
  import opened Common

  type RunId = nat
  type Name = nat

  datatype Phase = Expand | Backfill | Contract | Rollback

  datatype Status = Pending | Expanding | Backfilling | Contracting | Completed | RollingBack | RolledBack | Failed

  predicate InProgress(s: Status): (b: bool)
    ensures b <==> s in {Pending, Expanding, Backfilling, Contracting, RollingBack}
  { s != Completed && s != RolledBack && s != Failed }

  /** A phase's record; `completed` and `failed` say which of its end times are set. */
  datatype StepRecord = StepRecord(phase: Phase, completed: bool, failed: bool)

  datatype Run = Run(
    name: Name,
    status: Status,
    currentPhase: Option<Phase>,
    stepHistory: seq<StepRecord>,
    totalRows: nat,
    processedRows: nat,
    failedRows: nat)

  /** What one call of the migration's backfill does. */
  datatype Batch = Throws | Took(processed: nat, failed: nat, done: bool)

  /** How the migration's own actions turn out. `batches` lists the backfill calls in turn; a call past
      its end throws. */
  datatype Plan = Plan(
    expandFails: bool,
    pending: Option<nat>,
    batches: seq<Batch>,
    contractFails: bool,
    rollbackContractFails: bool,
    rollbackExpandFails: bool)

  /** The calls made of a migration's own actions. */
  datatype Call = CallExpand | CallCountPending | CallBackfill(n: nat) | CallContract | CallRollbackContract | CallRollbackExpand

  // ── Step history ──────────────────────────────────────────────────────────────

  /** The index of the last record of `phase`. */
  function LastRecord(history: seq<StepRecord>, phase: Phase): Option<nat>
  {
    if history == [] then None
    else if history[|history| - 1].phase == phase then Some(|history| - 1)
    else LastRecord(history[..|history| - 1], phase)
  }

  lemma {:induction false} LastRecordIsLast(history: seq<StepRecord>, phase: Phase)
    ensures var i := LastRecord(history, phase);
      && (i.Some? ==> i.value < |history| && history[i.value].phase == phase)
      && (forall j :: 0 <= j < |history| && history[j].phase == phase ==> i.Some? && j <= i.value)
  {
    if history != [] {
      var n := |history| - 1;
      LastRecordIsLast(history[..n], phase);
      assert forall j :: 0 <= j < n ==> history[..n][j] == history[j];
    }
  }

  predicate Has(history: seq<StepRecord>, phase: Phase)
  {
    exists i :: 0 <= i < |history| && history[i].phase == phase
  }

  /** Every record is closed in exactly one way. */
  predicate Closed(history: seq<StepRecord>)
  {
    forall i :: 0 <= i < |history| ==> history[i].completed != history[i].failed
  }

  /** The records before the last are closed; the last is open and of the current phase. */
  predicate OpenAtEnd(run: Run, phase: Phase)
  {
    && run.stepHistory != [] && run.currentPhase == Some(phase)
    && run.stepHistory[|run.stepHistory| - 1] == StepRecord(phase, false, false)
    && Closed(run.stepHistory[..|run.stepHistory| - 1])
  }

  // ── The calls a run makes ─────────────────────────────────────────────────────

  /** The backfill calls from the `n`-th on, and whether the last of them reported done. */
  function BackfillCalls(batches: seq<Batch>, n: nat): (seq<Call>, bool)
    decreases |batches| - n
  {
    if |batches| <= n || batches[n].Throws? then ([CallBackfill(n)], false)
    else if batches[n].done then ([CallBackfill(n)], true)
    else
      var (calls, ok) := BackfillCalls(batches, n + 1);
      ([CallBackfill(n)] + calls, ok)
  }

  function ForwardCalls(p: Plan): (seq<Call>, bool)
  {
    if p.expandFails then ([CallExpand], false)
    else if p.pending.None? then ([CallExpand, CallCountPending], false)
    else
      var (calls, ok) := if p.pending.value == 0 then ([], true) else BackfillCalls(p.batches, 0);
      if ok then ([CallExpand, CallCountPending] + calls + [CallContract], !p.contractFails)
      else ([CallExpand, CallCountPending] + calls, false)
  }

  /** The compensating calls, and whether all of them worked. */
  function RollbackCalls(p: Plan, contractAttempted: bool, expandAttempted: bool): (seq<Call>, bool)
  {
    var first := if contractAttempted then [CallRollbackContract] else [];
    if contractAttempted && p.rollbackContractFails then (first, false)
    else if expandAttempted then (first + [CallRollbackExpand], !p.rollbackExpandFails)
    else (first, true)
  }

  function AllCalls(p: Plan): seq<Call>
  {
    var (calls, ok) := ForwardCalls(p);
    if ok then calls else calls + RollbackCalls(p, CallContract in calls, true).0
  }

  function FinalStatus(p: Plan): Status
  {
    var (calls, ok) := ForwardCalls(p);
    if ok then Completed
    else if RollbackCalls(p, CallContract in calls, true).1 then RolledBack
    else Failed
  }

  // ── What the calls guarantee ──────────────────────────────────────────────────

  /** The backfill reports done in its `n`-th call, and each call before it took its batch. */
  predicate DoneAt(batches: seq<Batch>, n: nat)
  {
    && n < |batches| && batches[n].Took? && batches[n].done
    && forall i :: 0 <= i < n ==> batches[i].Took? && !batches[i].done
  }

  lemma {:induction false} BackfillEnds(batches: seq<Batch>, n: nat)
    requires n <= |batches| && forall i :: 0 <= i < n ==> batches[i].Took? && !batches[i].done
    ensures var (calls, ok) := BackfillCalls(batches, n);
      && |calls| >= 1
      && (forall i :: 0 <= i < |calls| ==> calls[i] == CallBackfill(n + i))
      && (ok <==> DoneAt(batches, n + |calls| - 1))
      && (!ok ==> |batches| <= n + |calls| - 1 || batches[n + |calls| - 1].Throws?)
      && (forall i :: 0 <= i < n + |calls| - 1 ==> i < |batches| && batches[i].Took? && !batches[i].done)
    decreases |batches| - n
  {
    if n < |batches| && batches[n].Took? && !batches[n].done {
      BackfillEnds(batches, n + 1);
    } else {
      assert |BackfillCalls(batches, n).0| == 1;
    }
  }

  /** There was nothing to backfill, or the backfill reported done. */
  ghost predicate Filled(p: Plan)
  {
    !p.expandFails && p.pending.Some? && (p.pending.value == 0 || exists n: nat :: DoneAt(p.batches, n))
  }

  lemma ContractIsCalledIffFilled(p: Plan)
    ensures CallContract in ForwardCalls(p).0 <==> Filled(p)
  {
    BackfillEnds(p.batches, 0);
    var fills := BackfillCalls(p.batches, 0).0;
    if exists n: nat :: DoneAt(p.batches, n) {
      var n: nat :| DoneAt(p.batches, n);
      assert |fills| - 1 <= n;
    }
    hide BackfillCalls;
  }

  // ── The rows a run counts ─────────────────────────────────────────────────────

  lemma CallsAreBounded(batches: seq<Batch>)
    ensures var (calls, ok) := BackfillCalls(batches, 0);
      1 <= |calls| && (if ok then |calls| <= |batches| else |calls| - 1 <= |batches|)
  {
    BackfillEnds(batches, 0);
    var n := |BackfillCalls(batches, 0).0| - 1;
    if n > 0 { assert n - 1 < |batches| && batches[n - 1].Took?; }
  }

  /** How many of the backfill's calls took their batch. */
  function Taken(p: Plan): (n: nat)
    ensures n <= |p.batches|
  {
    CallsAreBounded(p.batches);
    if p.expandFails || p.pending.None? || p.pending.value == 0 then 0
    else
      var (calls, ok) := BackfillCalls(p.batches, 0);
      if ok then |calls| else |calls| - 1
  }

  function ProcessedIn(batches: seq<Batch>, n: nat): nat
    requires n <= |batches|
  {
    if n == 0 then 0 else ProcessedIn(batches, n - 1) + if batches[n - 1].Took? then batches[n - 1].processed else 0
  }

  function FailedIn(batches: seq<Batch>, n: nat): nat
    requires n <= |batches|
  {
    if n == 0 then 0 else FailedIn(batches, n - 1) + if batches[n - 1].Took? then batches[n - 1].failed else 0
  }

  /** Batches are taken up to the first that reports done, throws, or is not there. */
  lemma TakenIsExact(p: Plan)
    ensures var n := Taken(p);
      && (forall i :: 0 <= i < n ==> p.batches[i].Took? && (p.batches[i].done ==> i == n - 1))
      && (!p.expandFails && p.pending.Some? && p.pending.value > 0 ==>
            (n > 0 && p.batches[n - 1].done) || n == |p.batches| || p.batches[n].Throws?)
      && (p.expandFails || p.pending.None? || p.pending.value == 0 ==> n == 0)
  {
    BackfillEnds(p.batches, 0);
  }

  // ── The record a run leaves ───────────────────────────────────────────────────

  /** The run with the rows of the first `n` batches counted. */
  function Counted(run: Run, batches: seq<Batch>, n: nat): Run
    requires n <= |batches|
  {
    run.(processedRows := run.processedRows + ProcessedIn(batches, n), failedRows := run.failedRows + FailedIn(batches, n))
  }

  lemma CountedOneMore(run: Run, batches: seq<Batch>, n: nat)
    requires n < |batches| && batches[n].Took?
    ensures var was := Counted(run, batches, n);
      Counted(run, batches, n + 1)
        == was.(processedRows := was.processedRows + batches[n].processed, failedRows := was.failedRows + batches[n].failed)
  {
  }

  /** A rolled back run keeps its counts; its last record is marked failed unless it had ended before, and the
      rollback's own record says how that went. */
  ghost predicate IsRolledBack(before: Run, run: Run, manual: bool)
  {
    var n := |before.stepHistory|;
    && (manual || n > 0)
    && run == before.(status := run.status, currentPhase := Some(Rollback), stepHistory := run.stepHistory)
    && run.stepHistory ==
         (if manual then before.stepHistory
          else before.stepHistory[..n - 1] + [StepRecord(before.stepHistory[n - 1].phase, before.stepHistory[n - 1].completed, true)])
         + [StepRecord(Rollback, run.status == RolledBack, run.status != RolledBack)]
  }

  /** What a run's record says at its end: the rows counted, and each phase attempted with how it went. */
  ghost predicate IsFinal(p: Plan, run: Run)
  {
    && run.totalRows == (if !p.expandFails && p.pending.Some? then p.pending.value else 0)
    && run.processedRows == ProcessedIn(p.batches, Taken(p)) && run.failedRows == FailedIn(p.batches, Taken(p))
    && run.currentPhase == Some(if run.status == Completed then Contract else Rollback)
    && run.stepHistory ==
         if run.status == Completed then
           [StepRecord(Expand, true, false), StepRecord(Backfill, true, false), StepRecord(Contract, true, false)]
         else
           (if p.expandFails then [StepRecord(Expand, false, true)]
            else if !Filled(p) then [StepRecord(Expand, true, false), StepRecord(Backfill, false, true)]
            else [StepRecord(Expand, true, false), StepRecord(Backfill, true, false), StepRecord(Contract, false, true)])
           + [StepRecord(Rollback, run.status == RolledBack, run.status == Failed)]
  }

  /** The same before a run that failed is rolled back, or one that did not is ended. */
  ghost predicate IsForward(p: Plan, run: Run, ok: bool)
  {
    && run.totalRows == (if !p.expandFails && p.pending.Some? then p.pending.value else 0)
    && run.processedRows == ProcessedIn(p.batches, Taken(p)) && run.failedRows == FailedIn(p.batches, Taken(p))
    && (p.expandFails ==>
          run.status == Expanding && run.currentPhase == Some(Expand) && run.stepHistory == [StepRecord(Expand, false, false)])
    && (!p.expandFails && !Filled(p) ==>
          && run.status == Backfilling && run.currentPhase == Some(Backfill)
          && run.stepHistory == [StepRecord(Expand, true, false), StepRecord(Backfill, false, false)])
    && (Filled(p) ==>
          && run.status == Contracting && run.currentPhase == Some(Contract)
          && run.stepHistory == [StepRecord(Expand, true, false), StepRecord(Backfill, true, false), StepRecord(Contract, ok, false)])
  }

  /** A position in the calls made. */
  predicate CalledAt(p: Plan, i: nat, c: Call) { i < |AllCalls(p)| && AllCalls(p)[i] == c }

  lemma ForwardShape(p: Plan)
    ensures var (calls, ok) := ForwardCalls(p);
      && |calls| >= 1 && calls[0] == CallExpand
      && (forall i :: 0 <= i < |calls| ==> !calls[i].CallRollbackContract? && !calls[i].CallRollbackExpand?)
      && (forall i :: 0 <= i < |calls| && calls[i] == CallContract ==> i == |calls| - 1)
      && (ok ==> calls[|calls| - 1] == CallContract)
  {
    BackfillEnds(p.batches, 0);
  }

  /** `contract` is called only when there was nothing to backfill or the backfill has reported done,
      and then the backfill's calls, one a batch up to that one, came before it. */
  lemma ContractFollowsBackfill(p: Plan, i: nat)
    requires CalledAt(p, i, CallContract)
    ensures !p.expandFails && p.pending.Some?
    ensures if p.pending.value == 0 then i == 2
            else i >= 3 && DoneAt(p.batches, i - 3) && forall k: nat :: k <= i - 3 ==> CalledAt(p, k + 2, CallBackfill(k))
  {
    ForwardShape(p);
    var (calls, ok) := ForwardCalls(p);
    assert i == |calls| - 1;
    if p.pending.value != 0 {
      BackfillEnds(p.batches, 0);
      var (fills, done) := BackfillCalls(p.batches, 0);
      assert calls == [CallExpand, CallCountPending] + fills + [CallContract];
    }
  }

  /** What was attempted is undone in the opposite order: `rollbackContract` exactly if `contract` was
      called and the run failed, then `rollbackExpand`, last, unless the first of them threw. */
  lemma RollbackMirrorsAttempts(p: Plan)
    ensures var (calls, ok) := ForwardCalls(p);
      && (CallRollbackContract in AllCalls(p) <==> !ok && CallContract in calls)
      && (CallRollbackExpand in AllCalls(p) <==> !ok && !(CallContract in calls && p.rollbackContractFails))
      && (forall i: nat, j: nat :: CalledAt(p, i, CallContract) && CalledAt(p, j, CallRollbackContract) ==> i < j)
      && (forall i: nat, j: nat :: CalledAt(p, i, CallRollbackContract) && CalledAt(p, j, CallRollbackExpand) ==> i < j)
      && (forall i: nat :: CalledAt(p, i, CallRollbackExpand) ==> i == |AllCalls(p)| - 1)
  {
    ForwardShape(p);
    var (calls, ok) := ForwardCalls(p);
    if !ok {
      var (undo, undone) := RollbackCalls(p, CallContract in calls, true);
      assert AllCalls(p) == calls + undo;
    }
  }

  /** A run ends completed exactly if no action threw; otherwise rolled back, or failed exactly if a
      compensating action threw. */
  lemma FinalStatusIsExact(p: Plan)
    ensures !InProgress(FinalStatus(p))
    ensures FinalStatus(p) == Completed <==>
      !p.expandFails && p.pending.Some? && (p.pending.value == 0 || exists n: nat :: DoneAt(p.batches, n)) && !p.contractFails
    ensures FinalStatus(p) == Failed <==>
      FinalStatus(p) != Completed && ((CallContract in AllCalls(p) && p.rollbackContractFails) || (CallRollbackExpand in AllCalls(p) && p.rollbackExpandFails))
  {
    ForwardShape(p);
    RollbackMirrorsAttempts(p);
    BackfillEnds(p.batches, 0);
    if exists n: nat :: DoneAt(p.batches, n) {
      var n: nat :| DoneAt(p.batches, n);
      var (fills, done) := BackfillCalls(p.batches, 0);
      assert |fills| - 1 <= n;
    }
  }

  lemma ForwardThenRolledBack(p: Plan, forward: Run, run: Run)
    requires IsForward(p, forward, false) && IsRolledBack(forward, run, false) && run.status in {RolledBack, Failed}
    ensures IsFinal(p, run)
  {
    hide Taken;
    hide Filled;
  }

  lemma ForwardThenCompleted(p: Plan, forward: Run)
    requires IsForward(p, forward, true) && Filled(p)
    ensures IsFinal(p, forward.(status := Completed))
  {
    hide Taken;
  }
}
