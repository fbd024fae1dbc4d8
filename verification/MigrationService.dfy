// The migration runner over its state store.
module MigrationService {
  import opened Common
  import opened Migration

  function RecordPhaseStart(run: Run, phase: Phase): Run
  {
    run.(currentPhase := Some(phase), stepHistory := run.stepHistory + [StepRecord(phase, false, false)])
  }

  function RecordPhaseComplete(run: Run, phase: Phase): Run
  {
    var i := LastRecord(run.stepHistory, phase);
    LastRecordIsLast(run.stepHistory, phase);
    if i.None? then run
    else run.(stepHistory := run.stepHistory[i.value := run.stepHistory[i.value].(completed := true)])
  }

  function RecordPhaseFailed(run: Run): Run
  {
    if run.currentPhase.None? then run
    else
      var i := LastRecord(run.stepHistory, run.currentPhase.value);
      LastRecordIsLast(run.stepHistory, run.currentPhase.value);
      if i.None? then run
      else run.(stepHistory := run.stepHistory[i.value := run.stepHistory[i.value].(failed := true)])
  }

  /** Starting a phase after closed ones leaves one open record, the last. */
  lemma StartOpens(run: Run, phase: Phase)
    requires Closed(run.stepHistory)
    ensures OpenAtEnd(RecordPhaseStart(run, phase), phase)
    ensures forall p :: Has(RecordPhaseStart(run, phase).stepHistory, p) <==> Has(run.stepHistory, p) || p == phase
  {
    var history := RecordPhaseStart(run, phase).stepHistory;
    var n := |run.stepHistory|;
    assert history[..n] == run.stepHistory;
    forall p ensures Has(history, p) <==> Has(run.stepHistory, p) || p == phase {
      if Has(run.stepHistory, p) {
        var i :| 0 <= i < n && run.stepHistory[i].phase == p;
        assert history[i].phase == p;
      }
      if p == phase { assert history[n].phase == p; }
    }
  }

  /** Completing or failing the open phase closes the history. */
  lemma EndCloses(run: Run, phase: Phase)
    requires OpenAtEnd(run, phase)
    ensures Closed(RecordPhaseComplete(run, phase).stepHistory) && Closed(RecordPhaseFailed(run).stepHistory)
    ensures forall p :: Has(RecordPhaseComplete(run, phase).stepHistory, p) <==> Has(run.stepHistory, p)
    ensures forall p :: Has(RecordPhaseFailed(run).stepHistory, p) <==> Has(run.stepHistory, p)
  {
    var h := run.stepHistory;
    var n := |h| - 1;
    assert LastRecord(h, phase) == Some(n);
    var c, f := RecordPhaseComplete(run, phase).stepHistory, RecordPhaseFailed(run).stepHistory;
    assert c == h[n := StepRecord(phase, true, false)] && f == h[n := StepRecord(phase, false, true)];
    forall i | 0 <= i < n ensures h[i].completed != h[i].failed { assert h[..n][i] == h[i]; }
    SamePhases(h, c);
    SamePhases(h, f);
  }

  lemma SamePhases(h: seq<StepRecord>, k: seq<StepRecord>)
    requires |h| == |k| && forall i :: 0 <= i < |h| ==> h[i].phase == k[i].phase
    ensures forall p :: Has(h, p) <==> Has(k, p)
  {
    forall p ensures Has(h, p) <==> Has(k, p) {
      if Has(h, p) { var i :| 0 <= i < |h| && h[i].phase == p; assert k[i].phase == p; }
      if Has(k, p) { var i :| 0 <= i < |k| && k[i].phase == p; assert h[i].phase == p; }
    }
  }

  /** A run between phases, or within one that has failed; `contract` says whether that one was begun. */
  ghost predicate Stage(run: Run, contract: bool, failed: bool)
  {
    && (if failed then run.currentPhase.Some? && OpenAtEnd(run, run.currentPhase.value) else Closed(run.stepHistory))
    && (Has(run.stepHistory, Contract) <==> contract)
    && Has(run.stepHistory, Expand)
  }

  lemma StageSays(run: Run, contract: bool, failed: bool)
    requires Stage(run, contract, failed)
    ensures failed ==> run.currentPhase.Some? && OpenAtEnd(run, run.currentPhase.value)
    ensures !failed ==> Closed(run.stepHistory)
    ensures Has(run.stepHistory, Expand) && (Has(run.stepHistory, Contract) <==> contract)
  {
  }

  lemma EndsAreFinal()
    ensures !InProgress(Completed) && !InProgress(RolledBack) && !InProgress(Failed)
  {
  }

  /** Entering a phase from a closed history, and leaving it, in the words of `Stage`. */
  lemma PhaseEntered(run: Run, status: Status, phase: Phase)
    requires Closed(run.stepHistory) && phase != Rollback
    requires phase == Expand ==> run.stepHistory == []
    requires phase != Expand ==> Stage(run, false, false)
    ensures var now := RecordPhaseStart(run.(status := status), phase);
      OpenAtEnd(now, phase) && Stage(now, phase == Contract, true)
  {
    StartOpens(run.(status := status), phase);
  }

  lemma PhaseLeft(run: Run, phase: Phase, contract: bool)
    requires OpenAtEnd(run, phase) && Stage(run, contract, true)
    ensures Stage(RecordPhaseComplete(run, phase), contract, false)
  {
    EndCloses(run, phase);
  }

  /** Neither the status nor the row counts are part of the history. */
  lemma RowsAside(run: Run, now: Run)
    requires now.stepHistory == run.stepHistory && now.currentPhase == run.currentPhase
    ensures OpenAtEnd(now, Backfill) <==> OpenAtEnd(run, Backfill)
    ensures Stage(now, false, true) <==> Stage(run, false, true)
  {
  }

  /** Ending the phase that was begun last closes its record, and no other. */
  lemma LastIsClosed(run: Run, history: seq<StepRecord>, phase: Phase)
    requires run.stepHistory == history + [StepRecord(phase, false, false)]
    ensures RecordPhaseComplete(run, phase) == run.(stepHistory := history + [StepRecord(phase, true, false)])
    ensures run.currentPhase == Some(phase) ==> RecordPhaseFailed(run) == run.(stepHistory := history + [StepRecord(phase, false, true)])
  {
  }

  lemma NoneCounted(run: Run, batches: seq<Batch>)
    ensures Counted(run, batches, 0) == run
  {
  }

  /** Only the record that is open is the last one. */
  lemma OpenIsLast(run: Run, phase: Phase)
    requires OpenAtEnd(run, phase)
    ensures var n := |run.stepHistory|;
      n > 0 && run.currentPhase == Some(phase) && run.stepHistory == run.stepHistory[..n - 1] + [StepRecord(phase, false, false)]
  {
  }

  lemma FillsOnly(p: Plan)
    ensures CallContract !in FillCalls(p).0
  {
    BackfillEnds(p.batches, 0);
  }

  lemma FillsTaken(p: Plan)
    requires !p.expandFails
    ensures Taken(p) == if p.pending.None? || p.pending.value == 0 then 0 else |FillCalls(p).0| - (if FillCalls(p).1 then 1 else 2)
  {
  }

  /** The calls of a backfill, with none when there is nothing pending. */
  function FillCalls(p: Plan): (seq<Call>, bool)
  {
    if p.pending.None? then ([CallCountPending], false)
    else if p.pending.value == 0 then ([CallCountPending], true)
    else ([CallCountPending] + BackfillCalls(p.batches, 0).0, BackfillCalls(p.batches, 0).1)
  }

  lemma ForwardInPhases(p: Plan)
    ensures ForwardCalls(p) ==
      if p.expandFails then ([CallExpand], false)
      else if FillCalls(p).1 then ([CallExpand] + FillCalls(p).0 + [CallContract], !p.contractFails)
      else ([CallExpand] + FillCalls(p).0, false)
  {
    hide BackfillCalls;
    if !p.expandFails && p.pending.Some? {
      if p.pending.value == 0 {
        assert [CallExpand, CallCountPending] + [] + [CallContract] == [CallExpand] + [CallCountPending] + [CallContract];
      } else {
        var calls := BackfillCalls(p.batches, 0).0;
        assert [CallExpand, CallCountPending] + calls == [CallExpand] + ([CallCountPending] + calls);
      }
    } else if !p.expandFails {
      assert [CallExpand, CallCountPending] == [CallExpand] + [CallCountPending];
    }
  }

  class MigrationRunnerService {
    var runs: map<RunId, Run>
    var active: map<Name, RunId>
    ghost var calls: seq<Call>

    /** Finished runs have closed histories. */
    ghost predicate Valid()
      reads this
    {
      forall id :: id in runs && !InProgress(runs[id].status) ==> Closed(runs[id].stepHistory)
    }

    constructor ()
      ensures Valid() && runs == map[] && active == map[] && calls == []
    {
      runs, active, calls := map[], map[], [];
    }

    method Save(id: RunId, run: Run)
      modifies this`runs
      ensures runs == old(runs)[id := run]
    {
      runs := runs[id := run];
    }

    /** Takes the name's slot and stores the run, or names the run that has it. */
    method ClaimAndCreate(id: RunId, run: Run) returns (claimed: bool, activeRunId: Option<RunId>)
      modifies this`runs, this`active
      ensures claimed == (run.name !in old(active))
      ensures claimed ==> active == old(active)[run.name := id] && runs == old(runs)[id := run]
      ensures !claimed ==> active == old(active) && runs == old(runs) && activeRunId == Some(active[run.name])
    {
      if run.name in active { return false, Some(active[run.name]); }
      active := active[run.name := id];
      runs := runs[id := run];
      return true, None;
    }

    method RunExpand(id: RunId, p: Plan, before: Run) returns (run: Run, ok: bool)
      requires before.stepHistory == []
      modifies this`runs
      ensures runs == old(runs)[id := run] && run.name == before.name
      ensures ok == !p.expandFails && Stage(run, false, !ok)
      ensures run == before.(status := Expanding, currentPhase := Some(Expand), stepHistory := [StepRecord(Expand, ok, false)])
    {
      assert Closed(before.stepHistory);
      hide OpenAtEnd;
      hide Stage;
      hide Closed;
      hide Has;
      PhaseEntered(before, Expanding, Expand);
      run := RecordPhaseStart(before.(status := Expanding), Expand);
      Save(id, run);
      LastIsClosed(run, [], Expand);
      if p.expandFails { return run, false; }
      PhaseLeft(run, Expand, false);
      run := RecordPhaseComplete(run, Expand);
      Save(id, run);
      ok := true;
    }

    method RunBackfill(id: RunId, p: Plan, before: Run) returns (run: Run, ok: bool, ghost made: seq<Call>)
      requires Stage(before, false, false) && id in runs
      modifies this`runs
      ensures id in runs && runs == old(runs)[id := runs[id]] && run.name == before.name
      ensures (made, ok) == FillCalls(p) && Stage(run, false, !ok)
      ensures var took := if p.pending.None? || p.pending.value == 0 then 0 else |made| - (if ok then 1 else 2);
        && 0 <= took <= |p.batches|
        && run == Counted(before, p.batches, took).(
             status := Backfilling, currentPhase := Some(Backfill),
             stepHistory := before.stepHistory + [StepRecord(Backfill, ok, false)],
             totalRows := if p.pending.Some? then p.pending.value else before.totalRows)
    {
      hide BackfillCalls;
      PhaseEntered(before, Backfilling, Backfill);
      run := RecordPhaseStart(before.(status := Backfilling), Backfill);
      made := [CallCountPending];
      if p.pending.None? { return run, false, made; }
      run := run.(totalRows := p.pending.value);
      hide OpenAtEnd;
      hide Stage;
      assert OpenAtEnd(run, Backfill) && Stage(run, false, true) by { RowsAside(RecordPhaseStart(before.(status := Backfilling), Backfill), run); }
      Save(id, run);
      if run.totalRows != 0 {
        ghost var fills;
        run, ok, fills := RunBatches(id, p, run);
        made := made + fills;
        if !ok { return; }
      }
      LastIsClosed(run, before.stepHistory, Backfill);
      PhaseLeft(run, Backfill, false);
      run := RecordPhaseComplete(run, Backfill);
      Save(id, run);
      ok := true;
    }

    /** The backfill loop. */
    method RunBatches(id: RunId, p: Plan, before: Run) returns (run: Run, done: bool, ghost made: seq<Call>)
      requires OpenAtEnd(before, Backfill) && Stage(before, false, true) && id in runs
      modifies this`runs
      ensures id in runs && runs == old(runs)[id := runs[id]] && run.name == before.name
      ensures (made, done) == BackfillCalls(p.batches, 0)
      ensures OpenAtEnd(run, Backfill) && Stage(run, false, true)
      ensures var took := if done then |made| else |made| - 1;
        && 0 <= took <= |p.batches|
        && run == Counted(before, p.batches, took)
    {
      hide OpenAtEnd;
      hide Stage;
      hide Counted;
      assert Counted(before, p.batches, 0) == before by { NoneCounted(before, p.batches); }
      run, done, made := before, false, [];
      assert made + BackfillCalls(p.batches, 0).0 == BackfillCalls(p.batches, 0).0;
      var n := 0;
      while !done
        invariant n <= |p.batches| && id in runs && runs == old(runs)[id := runs[id]] && run.name == before.name
        invariant OpenAtEnd(run, Backfill) && Stage(run, false, true)
        invariant |made| == n
        invariant run == Counted(before, p.batches, n)
        invariant !done ==> (made + BackfillCalls(p.batches, n).0, BackfillCalls(p.batches, n).1) == BackfillCalls(p.batches, 0)
        invariant done ==> (made, true) == BackfillCalls(p.batches, 0)
        decreases |p.batches| - n, !done
      {
        if n == |p.batches| || p.batches[n].Throws? { return run, false, made + [CallBackfill(n)]; }
        var b := p.batches[n];
        ghost var was, rest := made, BackfillCalls(p.batches, n + 1).0;
        assert !b.done ==> (was + [CallBackfill(n)]) + rest == was + ([CallBackfill(n)] + rest);
        made := made + [CallBackfill(n)];
        CountedOneMore(before, p.batches, n);
        RowsAside(run, run.(processedRows := run.processedRows + b.processed, failedRows := run.failedRows + b.failed));
        run := run.(processedRows := run.processedRows + b.processed, failedRows := run.failedRows + b.failed);
        Save(id, run);
        done := b.done;
        n := n + 1;
      }
    }

    method RunContract(id: RunId, p: Plan, before: Run) returns (run: Run, ok: bool)
      requires Stage(before, false, false)
      modifies this`runs
      ensures runs == old(runs)[id := run] && run.name == before.name
      ensures ok == !p.contractFails && Stage(run, true, !ok)
      ensures run == before.(status := Contracting, currentPhase := Some(Contract),
                             stepHistory := before.stepHistory + [StepRecord(Contract, ok, false)])
    {
      PhaseEntered(before, Contracting, Contract);
      hide OpenAtEnd;
      run := RecordPhaseStart(before.(status := Contracting), Contract);
      Save(id, run);
      LastIsClosed(run, before.stepHistory, Contract);
      if p.contractFails { return run, false; }
      PhaseLeft(run, Contract, true);
      run := RecordPhaseComplete(run, Contract);
      Save(id, run);
      ok := true;
    }

    /** The three phases in order, up to the first that fails. */
    method RunForward(id: RunId, p: Plan, before: Run) returns (run: Run, ok: bool)
      requires before.stepHistory == [] && before.totalRows == before.processedRows == before.failedRows == 0
      modifies this`runs, this`calls
      ensures run.name == before.name && id in runs && runs == old(runs)[id := runs[id]]
      ensures calls == old(calls) + ForwardCalls(p).0 && ok == ForwardCalls(p).1
      ensures Stage(run, CallContract in ForwardCalls(p).0, !ok) && IsForward(p, run, ok) && (ok ==> Filled(p))
    {
      hide Stage;
      ForwardInPhases(p);
      ForwardShape(p);
      ContractIsCalledIffFilled(p);
      if !p.expandFails { FillsTaken(p); }
      hide ForwardCalls; hide Taken; hide Filled;
      run, ok := RunExpand(id, p, before);
      if !ok {
        calls := calls + [CallExpand];
        return;
      }
      ghost var made;
      run, ok, made := RunBackfill(id, p, run);
      FillsOnly(p);
      if !ok {
        calls := calls + ([CallExpand] + made);
        return;
      }
      run, ok := RunContract(id, p, run);
      calls := calls + ([CallExpand] + made + [CallContract]);
    }

    /** Undoes what the run's history says was attempted, and frees its name's slot. */
    method Compensate(id: RunId, p: Plan, before: Run, manual: bool) returns (run: Run)
      requires if manual then Closed(before.stepHistory) else before.currentPhase.Some? && OpenAtEnd(before, before.currentPhase.value)
      modifies this
      ensures var (undo, undone) := RollbackCalls(p, Has(before.stepHistory, Contract), Has(before.stepHistory, Expand));
        && calls == old(calls) + undo
        && run.status == if undone then RolledBack else Failed
      ensures run.name == before.name && Closed(run.stepHistory)
      ensures active == old(active) - {run.name} && runs == old(runs)[id := run]
      ensures IsRolledBack(before, run, manual)
    {
      hide OpenAtEnd;
      hide Closed;
      hide Has;
      run := before;
      if !manual {
        EndCloses(run, run.currentPhase.value);
        OpenIsLast(run, run.currentPhase.value);
        LastIsClosed(run, run.stepHistory[..|run.stepHistory| - 1], run.currentPhase.value);
        run := RecordPhaseFailed(run);
      }
      ghost var history := run.stepHistory;
      run := run.(status := RollingBack);
      var contractAttempted, expandAttempted := Has(run.stepHistory, Contract), Has(run.stepHistory, Expand);
      StartOpens(run, Rollback);
      run := RecordPhaseStart(run, Rollback);
      Save(id, run);
      var ok := true;
      if contractAttempted {
        calls := calls + [CallRollbackContract];
        ok := !p.rollbackContractFails;
      }
      if ok && expandAttempted {
        calls := calls + [CallRollbackExpand];
        ok := !p.rollbackExpandFails;
      }
      EndCloses(run, Rollback);
      LastIsClosed(run, history, Rollback);
      if ok {
        run := RecordPhaseComplete(run, Rollback);
        run := run.(status := RolledBack);
      } else {
        run := RecordPhaseFailed(run);
        run := run.(status := Failed);
      }
      active := active - {run.name};
      Save(id, run);
    }

    /** The name's slot is held by a run whose record is in progress. */
    predicate Busy(name: Name)
      reads this
    {
      name in active && active[name] in runs && InProgress(runs[active[name]].status)
    }

    /** Takes the slot for a new run, also from a marker that has gone stale. */
    method Begin(id: RunId, run: Run) returns (begun: bool)
      requires id !in runs
      modifies this`runs, this`active
      ensures begun == !old(Busy(run.name))
      ensures !begun ==> runs == old(runs) && active == old(active)
      ensures begun ==> runs == old(runs)[id := run] && active == old(active)[run.name := id]
    {
      var claimed, activeRunId := ClaimAndCreate(id, run);
      if claimed { return true; }
      if activeRunId.Some? && activeRunId.value in runs && InProgress(runs[activeRunId.value].status) { return false; }
      active := active[run.name := id];
      Save(id, run);
      begun := true;
    }

    /** One run of a migration that no other call interrupts: what it calls, how it ends, and that its
        slot is free again. */
    method RunMigration(id: RunId, name: Name, p: Plan) returns (r: Result<Run>)
      requires Valid() && id !in runs
      modifies this
      ensures Valid()
      ensures old(Busy(name)) ==> r == Failure(Conflict) && runs == old(runs) && active == old(active) && calls == old(calls)
      ensures !old(Busy(name)) ==>
        && calls == old(calls) + AllCalls(p) && active == old(active) - {name}
        && id in runs && runs == old(runs)[id := runs[id]] && runs[id].name == name && runs[id].status == FinalStatus(p)
        && r == (if FinalStatus(p) == Completed then Success(runs[id]) else Failure(Unavailable))
        && IsFinal(p, runs[id])
    {
      hide OpenAtEnd;
      hide Closed;
      hide Has;
      hide Stage;
      hide InProgress;
      hide ForwardCalls;
      hide RollbackCalls;
      hide IsForward; hide IsRolledBack; hide IsFinal; hide Filled; hide LastRecord;
      assert !InProgress(Completed) && !InProgress(RolledBack) && !InProgress(Failed) by { EndsAreFinal(); }
      var run := Run(name, Pending, None, [], 0, 0, 0);
      var begun := Begin(id, run);
      if !begun { return Failure(Conflict); }
      var ok;
      run, ok := RunForward(id, p, run);
      if ok {
        assert Closed(run.stepHistory) by { StageSays(run, CallContract in ForwardCalls(p).0, false); }
        ForwardThenCompleted(p, run);
        run := run.(status := Completed);
        Save(id, run);
        active := active - {name};
        return Success(run);
      }
      StageSays(run, CallContract in ForwardCalls(p).0, true);
      ghost var forward := run;
      run := Compensate(id, p, run, false);
      ForwardThenRolledBack(p, forward, run);
      r := Failure(Unavailable);
    }

    /** Undoes a finished run; `p` says how its compensating actions turn out. */
    method RollbackRun(id: RunId, p: Plan) returns (r: Result<Run>)
      requires Valid()
      modifies this
      ensures Valid()
      ensures id !in old(runs) ==> r == Failure(NotFound)
      ensures id in old(runs) && InProgress(old(runs)[id].status) ==> r == Failure(Conflict)
      ensures id in old(runs) && old(runs)[id].status in {Pending, Expanding, Backfilling, Contracting, RollingBack} ==>
        r == Failure(Conflict)
      ensures id in old(runs) && old(runs)[id].status == RolledBack ==> r == Failure(BadRequest)
      ensures r.Failure? && r.error != Unavailable ==> runs == old(runs) && active == old(active) && calls == old(calls)
      ensures id in old(runs) && old(runs)[id].status in {Completed, Failed} ==>
        var was := old(runs)[id];
        var (undo, undone) := RollbackCalls(p, Has(was.stepHistory, Contract), Has(was.stepHistory, Expand));
        && calls == old(calls) + undo && active == old(active) - {was.name}
        && id in runs && runs == old(runs)[id := runs[id]] && runs[id].status == (if undone then RolledBack else Failed)
        && r == (if undone then Success(runs[id]) else Failure(Unavailable))
        && runs[id] == was.(status := runs[id].status, currentPhase := Some(Rollback),
                            stepHistory := was.stepHistory + [StepRecord(Rollback, undone, !undone)])
    {
      if id !in runs { return Failure(NotFound); }
      var run := runs[id];
      if InProgress(run.status) { return Failure(Conflict); }
      if run.status == RolledBack { return Failure(BadRequest); }
      run := Compensate(id, p, run, true);
      r := if run.status == RolledBack then Success(run) else Failure(Unavailable);
    }
  }
}
