// Two events that name one escrow in different groups: exactly when the order in which their runners
// step does not show.
module EventConflicts {
  import opened Common
  import Escrow
  import opened EventHandling
  import opened EventSchedules

  /** Whichever schedule finishes the batch, rows and log come out the same. */
  ghost predicate Deterministic(gs: seq<seq<Event>>, s: State, sagas: bool)
  {
    forall p, q :: AllFinished(gs, Played(gs, s, p, sagas)) && AllFinished(gs, Played(gs, s, q, sagas)) ==>
      Played(gs, s, p, sagas).s == Played(gs, s, q, sagas).s
  }

  /** Two new events of different groups that work on the same row. */
  ghost predicate Shares(e: Event, f: Event, s: State, c: Escrow.ContractId)
  {
    IdOf(e) != IdOf(f) && IdOf(e) !in s.log && IdOf(f) !in s.log && Touch(e) == Some(c) && Touch(f) == Some(c)
  }

  /** A dispute would be raised on, or with sagas adopted from, an escrow in this status. */
  predicate Raisable(status: Escrow.Status, sagas: bool)
  {
    status == Escrow.Active || (sagas && status == Escrow.Disputed)
  }

  /** The row is there and a dispute of it is not fulfilled already. */
  predicate Undisputed(row: Row, sagas: bool) { !(sagas && row.disputing) }

  /**
   * The events get in each other's way, in one of these orders: what `e` does changes what `f` finds. On an
   * escrow that is not there, a creation lets a funding or release through, and two creations draw different
   * rows. On one that is, a funding ends the status that fundings, releases and disputes of a pending escrow
   * depend on, a release settles it for other releases and for disputes, and a dispute is one for only one.
   */
  predicate Clashes(row: Option<Row>, e: Event, f: Event, c: Escrow.ContractId, sagas: bool)
  {
    match row
    case None =>
      && e.kind == EscrowCreated
      && (f.kind == EscrowFunded || f.kind == EscrowReleased || (f.kind == EscrowCreated && NewRow(e, c, None) != NewRow(f, c, None)))
    case Some(r) =>
      var status := r.escrow.status;
      || (e.kind == EscrowFunded && status == Escrow.Pending
          && (f.kind == EscrowFunded || f.kind == EscrowReleased || (f.kind == EscrowDisputed && Undisputed(r, sagas))))
      || (e.kind == EscrowReleased && f.kind == EscrowReleased && !Escrow.IsTerminal(status))
      || ((e.kind == EscrowReleased || e.kind == EscrowDisputed) && f.kind == EscrowDisputed
          && Undisputed(r, sagas) && Raisable(status, sagas))
  }

  predicate Harmless(row: Option<Row>, e: Event, f: Event, c: Escrow.ContractId, sagas: bool)
  {
    !Clashes(row, e, f, c, sagas) && !Clashes(row, f, e, c, sagas)
  }

  // ── One event works, the other is idle ────────────────────────────────────────

  /** Handler `e`, run from `row` with nothing else on it, is at `m` with the row as `x`. */
  predicate Comes(row: Option<Row>, e: Event, c: Escrow.ContractId, m: Mid, x: Option<Row>, sagas: bool)
  {
    match m
    case Start => x == row
    case Creating => x == row && Begun(row, e, sagas) == Next(m)
    case Writing(_) => x == row && Begun(row, e, sagas) == Next(m)
    case Screened => x == row && Begun(row, e, sagas) == Next(m)
    case Opened => Begun(row, e, sagas) == Next(Screened) && Stride(row, e, c, Screened, sagas) == (x, Next(m))
    case Freezing(_) => ComesToFreeze(row, e, c, m, x, sagas)
    case Failing => false
  }

  predicate ComesToFreeze(row: Option<Row>, e: Event, c: Escrow.ContractId, m: Mid, x: Option<Row>, sagas: bool)
  {
    && Begun(row, e, sagas) == Next(Screened) && Stride(row, e, c, Screened, sagas) == (x, Next(Opened))
    && Stride(x, e, c, Opened, sagas) == (x, Next(m))
  }

  lemma ComesOn(row: Option<Row>, e: Event, c: Escrow.ContractId, m: Mid, x: Option<Row>, sagas: bool)
    requires Comes(row, e, c, m, x, sagas)
    ensures var (now, p) := Stride(x, e, c, m, sagas);
      if p.Next? then Comes(row, e, c, p.mid, now, sagas) else (now, p.ok) == Handle(row, e, c, sagas)
    ensures Complete(x, e, c, m, sagas) == Handle(row, e, c, sagas)
  {
    CompletesSo(row, e, c, m, x, sagas);
    var (now, p) := Stride(x, e, c, m, sagas);
    assert p.Done? ==> Complete(x, e, c, m, sagas) == (now, p.ok);
    hide Complete;
  }

  lemma CompletesSo(row: Option<Row>, e: Event, c: Escrow.ContractId, m: Mid, x: Option<Row>, sagas: bool)
    requires Comes(row, e, c, m, x, sagas)
    ensures Complete(x, e, c, m, sagas) == Handle(row, e, c, sagas)
  {
    if !m.Start? {
      var (now, p) := Stride(row, e, c, Start, sagas);
      assert Handle(row, e, c, sagas) == Complete(now, e, c, p.mid, sagas);
      if m.Opened? || m.Freezing? {
        var begun := Stride(row, e, c, Screened, sagas).0;
        assert Complete(row, e, c, Screened, sagas) == Complete(begun, e, c, Opened, sagas);
        if m.Freezing? { assert Complete(begun, e, c, Opened, sagas) == Complete(x, e, c, m, sagas); }
      }
    }
  }

  /** A row that `e` alone leaves there at some time. */
  predicate Along(row: Option<Row>, e: Event, c: Escrow.ContractId, x: Option<Row>, sagas: bool)
  {
    x == row || x == Handle(row, e, c, sagas).0 || Comes(row, e, c, Opened, x, sagas)
  }

  lemma ComesAlong(row: Option<Row>, e: Event, c: Escrow.ContractId, m: Mid, x: Option<Row>, sagas: bool)
    requires Comes(row, e, c, m, x, sagas)
    ensures Along(row, e, c, x, sagas)
  {
    hide Handle;
    hide Stride;
  }

  /** `f` does nothing on this row, and reports `ok`, at once or, `late`, when it has the escalation's lock. */
  predicate IdleOn(x: Option<Row>, f: Event, c: Escrow.ContractId, ok: bool, late: bool, sagas: bool)
  {
    && (Begun(x, f, sagas) == Done(ok) || (late && Begun(x, f, sagas) == Next(Screened)))
    && (late ==> Stride(x, f, c, Screened, sagas) == (x, Done(ok)))
  }

  /** `f` is idle on whatever `e` leaves there. */
  ghost predicate Idle(row: Option<Row>, e: Event, f: Event, c: Escrow.ContractId, ok: bool, late: bool, sagas: bool)
  {
    forall x :: Along(row, e, c, x, sagas) ==> IdleOn(x, f, c, ok, late, sagas)
  }

  predicate WorkerAt(row: Option<Row>, e: Event, c: Escrow.ContractId, s: State, at: Cursor, sagas: bool)
  {
    var x := RowAt(s.rows, c);
    if at.n == 1 then
      at == Cursor(1, Ready) && x == Handle(row, e, c, sagas).0 && LogAt(s, IdOf(e)) == Some(Handle(row, e, c, sagas).1)
    else
      && at.n == 0 && IdOf(e) !in s.log
      && match at.phase {
           case Midway(t, m) => t == c && !m.Start? && Comes(row, e, c, m, x, sagas)
           case Wrote(ok) => (x, ok) == Handle(row, e, c, sagas)
           case _ => x == row
         }
  }

  predicate IdlerAt(f: Event, c: Escrow.ContractId, ok: bool, late: bool, s: State, at: Cursor)
  {
    if at.n == 1 then at == Cursor(1, Ready) && LogAt(s, IdOf(f)) == Some(ok)
    else
      && at.n == 0 && IdOf(f) !in s.log
      && match at.phase {
           case Midway(t, m) => t == c && late && m.Screened?
           case Wrote(done) => done == ok
           case _ => true
         }
  }

  ghost predicate Undisturbed(e: Event, f: Event, s: State, now: State, c: Escrow.ContractId)
  {
    && (forall x :: x != c ==> RowAt(now.rows, x) == RowAt(s.rows, x))
    && (forall id :: id != IdOf(e) && id != IdOf(f) ==> LogAt(now, id) == LogAt(s, id))
  }

  ghost predicate Working(e: Event, f: Event, s: State, c: Escrow.ContractId, ok: bool, late: bool, sagas: bool, b: Batch)
  {
    var row := RowAt(s.rows, c);
    && |b.at| == 2 && Undisturbed(e, f, s, b.s, c)
    && WorkerAt(row, e, c, b.s, b.at[0], sagas) && IdlerAt(f, c, ok, late, b.s, b.at[1])
  }

  lemma StruckIs(s: State, e: Event, c: Escrow.ContractId, m: Mid, sagas: bool)
    ensures var (s', d) := Struck(s, e, c, m, 0, sagas);
      var (now, p) := Stride(RowAt(s.rows, c), e, c, m, sagas);
      && RowAt(s'.rows, c) == now && s'.log == s.log && d == Cursor(0, if p.Done? then Wrote(p.ok) else Midway(c, p.mid))
      && forall x :: x != c ==> RowAt(s'.rows, x) == RowAt(s.rows, x)
  {
    hide Stride;
  }

  /** A step of `e` touches nothing but its own record and row `c`. */
  ghost predicate OnlyOwn(e: Event, s: State, now: State, c: Escrow.ContractId)
  {
    && (forall x :: x != c ==> RowAt(now.rows, x) == RowAt(s.rows, x))
    && (forall id :: id != IdOf(e) ==> LogAt(now, id) == LogAt(s, id))
  }

  lemma AdvanceIsOwn(e: Event, s: State, at: Cursor, c: Escrow.ContractId, sagas: bool)
    requires at.n == 0 && Touch(e) == Some(c) && (at.phase.Midway? ==> at.phase.c == c)
    ensures OnlyOwn(e, s, Advance(s, [e], at, sagas).0, c)
  {
    hide Stride;
  }

  lemma WorkerStruck(row: Option<Row>, e: Event, c: Escrow.ContractId, s: State, m: Mid, sagas: bool)
    requires IdOf(e) !in s.log && Comes(row, e, c, m, RowAt(s.rows, c), sagas)
    ensures var (s', d) := Struck(s, e, c, m, 0, sagas); WorkerAt(row, e, c, s', d, sagas)
  {
    StruckIs(s, e, c, m, sagas);
    ComesOn(row, e, c, m, RowAt(s.rows, c), sagas);
    assert Stride(RowAt(s.rows, c), e, c, m, sagas).1.Next? ==> !Stride(RowAt(s.rows, c), e, c, m, sagas).1.mid.Start?;
    hide Handle;
    hide Stride;
    hide Struck;
    hide Comes;
  }

  lemma WorkerAdvances(row: Option<Row>, e: Event, c: Escrow.ContractId, s: State, at: Cursor, sagas: bool)
    requires Touch(e) == Some(c) && at.n == 0 && WorkerAt(row, e, c, s, at, sagas)
    ensures var (s', d) := Advance(s, [e], at, sagas); WorkerAt(row, e, c, s', d, sagas)
  {
    hide Handle;
    hide Stride;
    hide Struck;
    if at.phase.Checked? {
      WorkerStruck(row, e, c, s, Start, sagas);
    } else if at.phase.Midway? {
      WorkerStruck(row, e, c, s, at.phase.mid, sagas);
    }
    hide Comes;
  }

  lemma WorkerGoesOn(e: Event, f: Event, s: State, c: Escrow.ContractId, ok: bool, late: bool, sagas: bool, b: Batch)
    requires Shares(e, f, s, c) && Working(e, f, s, c, ok, late, sagas, b) && b.at[0].n == 0
    ensures var (s', d) := Advance(b.s, [e], b.at[0], sagas); Working(e, f, s, c, ok, late, sagas, Batch(s', [d, b.at[1]]))
  {
    WorkerAdvances(RowAt(s.rows, c), e, c, b.s, b.at[0], sagas);
    AdvanceIsOwn(e, b.s, b.at[0], c, sagas);
    hide Advance;
    hide WorkerAt;
    assert LogAt(Advance(b.s, [e], b.at[0], sagas).0, IdOf(f)) == LogAt(b.s, IdOf(f));
  }

  lemma IdlerStruck(f: Event, c: Escrow.ContractId, ok: bool, late: bool, s: State, m: Mid, sagas: bool)
    requires IdOf(f) !in s.log && IdleOn(RowAt(s.rows, c), f, c, ok, late, sagas) && (m.Start? || (late && m.Screened?))
    ensures var (s', d) := Struck(s, f, c, m, 0, sagas);
      IdlerAt(f, c, ok, late, s', d) && RowAt(s'.rows, c) == RowAt(s.rows, c)
  {
    StruckIs(s, f, c, m, sagas);
    hide Struck;
  }

  lemma IdlerAdvances(f: Event, c: Escrow.ContractId, ok: bool, late: bool, s: State, at: Cursor, sagas: bool)
    requires Touch(f) == Some(c) && at.n == 0 && IdlerAt(f, c, ok, late, s, at)
    requires IdleOn(RowAt(s.rows, c), f, c, ok, late, sagas)
    ensures var (s', d) := Advance(s, [f], at, sagas);
      IdlerAt(f, c, ok, late, s', d) && RowAt(s'.rows, c) == RowAt(s.rows, c)
  {
    hide Struck;
    if at.phase.Checked? {
      IdlerStruck(f, c, ok, late, s, Start, sagas);
    } else if at.phase.Midway? {
      IdlerStruck(f, c, ok, late, s, Screened, sagas);
    }
    hide IdleOn;
  }

  lemma IdlerGoesOn(e: Event, f: Event, s: State, c: Escrow.ContractId, ok: bool, late: bool, sagas: bool, b: Batch)
    requires Shares(e, f, s, c) && Working(e, f, s, c, ok, late, sagas, b) && b.at[1].n == 0
    requires Idle(RowAt(s.rows, c), e, f, c, ok, late, sagas)
    ensures var (s', d) := Advance(b.s, [f], b.at[1], sagas); Working(e, f, s, c, ok, late, sagas, Batch(s', [b.at[0], d]))
  {
    WorkerIsAlong(e, f, s, c, ok, late, sagas, b);
    assert IdleOn(RowAt(b.s.rows, c), f, c, ok, late, sagas);
    hide IdleOn;
    IdlerAdvances(f, c, ok, late, b.s, b.at[1], sagas);
    AdvanceIsOwn(f, b.s, b.at[1], c, sagas);
    hide Advance;
    hide Idle;
    hide IdlerAt;
    hide Handle;
    hide Comes;
    assert LogAt(Advance(b.s, [f], b.at[1], sagas).0, IdOf(e)) == LogAt(b.s, IdOf(e));
  }

  lemma WorkerIsAlong(e: Event, f: Event, s: State, c: Escrow.ContractId, ok: bool, late: bool, sagas: bool, b: Batch)
    requires Working(e, f, s, c, ok, late, sagas, b)
    ensures Along(RowAt(s.rows, c), e, c, RowAt(b.s.rows, c), sagas)
  {
    if b.at[0].n == 0 && b.at[0].phase.Midway? {
      ComesAlong(RowAt(s.rows, c), e, c, b.at[0].phase.mid, RowAt(b.s.rows, c), sagas);
    }
    hide Comes;
    hide Handle;
  }

  lemma StepKeepsWorking(e: Event, f: Event, s: State, c: Escrow.ContractId, ok: bool, late: bool, sagas: bool, b: Batch, k: nat)
    requires Shares(e, f, s, c) && Working(e, f, s, c, ok, late, sagas, b)
    requires Idle(RowAt(s.rows, c), e, f, c, ok, late, sagas)
    ensures Working(e, f, s, c, ok, late, sagas, StepOf([[e], [f]], b, k, sagas))
  {
    var now := StepOf([[e], [f]], b, k, sagas);
    if CanStep([[e], [f]], b, k) {
      hide Advance;
      if k == 0 {
        WorkerGoesOn(e, f, s, c, ok, late, sagas, b);
        assert now.at == [now.at[0], b.at[1]];
      } else {
        IdlerGoesOn(e, f, s, c, ok, late, sagas, b);
        assert now.at == [b.at[0], now.at[1]];
      }
      hide Working;
    }
  }

  lemma {:induction false} PlayedKeepsWorking(e: Event, f: Event, s: State, c: Escrow.ContractId, ok: bool, late: bool,
          sagas: bool, schedule: seq<nat>)
    requires Shares(e, f, s, c) && Idle(RowAt(s.rows, c), e, f, c, ok, late, sagas)
    ensures Working(e, f, s, c, ok, late, sagas, Played([[e], [f]], s, schedule, sagas))
  {
    hide StepOf;
    hide Idle;
    hide Handle;
    if schedule != [] {
      hide Working;
      var n := |schedule| - 1;
      PlayedKeepsWorking(e, f, s, c, ok, late, sagas, schedule[..n]);
      StepKeepsWorking(e, f, s, c, ok, late, sagas, Played([[e], [f]], s, schedule[..n], sagas), schedule[n]);
    }
  }

  lemma IdleIsDeterministic(e: Event, f: Event, s: State, c: Escrow.ContractId, ok: bool, late: bool, sagas: bool)
    requires Shares(e, f, s, c) && Idle(RowAt(s.rows, c), e, f, c, ok, late, sagas)
    ensures Deterministic([[e], [f]], s, sagas)
  {
    hide Idle;
    var gs := [[e], [f]];
    forall p, q | AllFinished(gs, Played(gs, s, p, sagas)) && AllFinished(gs, Played(gs, s, q, sagas))
      ensures Played(gs, s, p, sagas).s == Played(gs, s, q, sagas).s
    {
      PlayedKeepsWorking(e, f, s, c, ok, late, sagas, p);
      PlayedKeepsWorking(e, f, s, c, ok, late, sagas, q);
      hide Played;
      BothDone(e, f, s, c, ok, late, sagas, Played(gs, s, p, sagas), Played(gs, s, q, sagas));
    }
  }

  lemma BothDone(e: Event, f: Event, s: State, c: Escrow.ContractId, ok: bool, late: bool, sagas: bool, a: Batch, b: Batch)
    requires Working(e, f, s, c, ok, late, sagas, a) && AllFinished([[e], [f]], a)
    requires Working(e, f, s, c, ok, late, sagas, b) && AllFinished([[e], [f]], b)
    ensures a.s == b.s
  {
    hide Handle;
    hide Comes;
    assert [[e], [f]][0] == [e] && [[e], [f]][1] == [f];
    assert Finished([e], a.at[0]) && Finished([f], a.at[1]) && Finished([e], b.at[0]) && Finished([f], b.at[1]);
    forall x ensures RowAt(a.s.rows, x) == RowAt(b.s.rows, x) {}
    forall id ensures LogAt(a.s, id) == LogAt(b.s, id) {}
    SameEverywhere(a.s, b.s);
  }

  // ── Two creations of one row ──────────────────────────────────────────────────

  predicate CreatorAt(e: Event, c: Escrow.ContractId, s: State, at: Cursor, sagas: bool)
  {
    var made := RowAt(s.rows, c) == Some(NewRow(e, c, None));
    if at.n == 1 then at == Cursor(1, Ready) && made && LogAt(s, IdOf(e)) == Some(true)
    else
      && at.n == 0 && IdOf(e) !in s.log && (RowAt(s.rows, c).None? || made)
      && match at.phase {
           case Midway(t, m) => t == c && m.Creating?
           case Wrote(ok) => ok && made
           case _ => true
         }
  }

  ghost predicate BothCreate(e: Event, f: Event, s: State, c: Escrow.ContractId, sagas: bool, b: Batch)
  {
    |b.at| == 2 && Undisturbed(e, f, s, b.s, c) && CreatorAt(e, c, b.s, b.at[0], sagas) && CreatorAt(f, c, b.s, b.at[1], sagas)
  }

  ghost predicate SameCreation(e: Event, f: Event, s: State, c: Escrow.ContractId)
  {
    && Shares(e, f, s, c) && e.kind == EscrowCreated && f.kind == EscrowCreated && c !in s.rows
    && NewRow(e, c, None) == NewRow(f, c, None)
  }

  lemma CreatorStruck(e: Event, c: Escrow.ContractId, s: State, m: Mid, sagas: bool)
    requires e.kind == EscrowCreated && IdOf(e) !in s.log && (m.Start? || m.Creating?)
    requires RowAt(s.rows, c).None? || RowAt(s.rows, c) == Some(NewRow(e, c, None))
    ensures var (s', d) := Struck(s, e, c, m, 0, sagas);
      CreatorAt(e, c, s', d, sagas) && s'.log == s.log
      && (RowAt(s'.rows, c) == RowAt(s.rows, c) || RowAt(s'.rows, c) == Some(NewRow(e, c, None)))
  {
    StruckIs(s, e, c, m, sagas);
    hide Struck;
  }

  lemma CreatorAdvances(e: Event, c: Escrow.ContractId, s: State, at: Cursor, sagas: bool)
    requires e.kind == EscrowCreated && Touch(e) == Some(c) && at.n == 0 && CreatorAt(e, c, s, at, sagas)
    ensures var (s', d) := Advance(s, [e], at, sagas);
      CreatorAt(e, c, s', d, sagas)
      && (RowAt(s'.rows, c) == RowAt(s.rows, c) || RowAt(s'.rows, c) == Some(NewRow(e, c, None)))
  {
    hide Struck;
    if at.phase.Checked? {
      CreatorStruck(e, c, s, Start, sagas);
    } else if at.phase.Midway? {
      CreatorStruck(e, c, s, at.phase.mid, sagas);
    }
    hide NewRow;
  }

  lemma CreatorGoesOn(e: Event, f: Event, s: State, c: Escrow.ContractId, sagas: bool, b: Batch, k: nat)
    requires SameCreation(e, f, s, c) && BothCreate(e, f, s, c, sagas, b)
    ensures BothCreate(e, f, s, c, sagas, StepOf([[e], [f]], b, k, sagas))
  {
    if CanStep([[e], [f]], b, k) {
      var g, other := if k == 0 then e else f, if k == 0 then f else e;
      assert [[e], [f]][k] == [g];
      CreatorAdvances(g, c, b.s, b.at[k], sagas);
      AdvanceIsOwn(g, b.s, b.at[k], c, sagas);
      hide Advance;
      hide NewRow;
      hide Waits;
      assert LogAt(Advance(b.s, [g], b.at[k], sagas).0, IdOf(other)) == LogAt(b.s, IdOf(other));
    }
  }

  lemma {:induction false} PlayedKeepsCreating(e: Event, f: Event, s: State, c: Escrow.ContractId, sagas: bool, schedule: seq<nat>)
    requires SameCreation(e, f, s, c)
    ensures BothCreate(e, f, s, c, sagas, Played([[e], [f]], s, schedule, sagas))
  {
    hide StepOf;
    if schedule != [] {
      hide BothCreate;
      hide SameCreation;
      var n := |schedule| - 1;
      PlayedKeepsCreating(e, f, s, c, sagas, schedule[..n]);
      CreatorGoesOn(e, f, s, c, sagas, Played([[e], [f]], s, schedule[..n], sagas), schedule[n]);
    }
  }

  lemma SameCreationIsDeterministic(e: Event, f: Event, s: State, c: Escrow.ContractId, sagas: bool)
    requires SameCreation(e, f, s, c)
    ensures Deterministic([[e], [f]], s, sagas)
  {
    var gs := [[e], [f]];
    forall p, q | AllFinished(gs, Played(gs, s, p, sagas)) && AllFinished(gs, Played(gs, s, q, sagas))
      ensures Played(gs, s, p, sagas).s == Played(gs, s, q, sagas).s
    {
      PlayedKeepsCreating(e, f, s, c, sagas, p);
      PlayedKeepsCreating(e, f, s, c, sagas, q);
      hide Played;
      BothCreated(e, f, s, c, sagas, Played(gs, s, p, sagas), Played(gs, s, q, sagas));
    }
  }

  lemma BothCreated(e: Event, f: Event, s: State, c: Escrow.ContractId, sagas: bool, a: Batch, b: Batch)
    requires BothCreate(e, f, s, c, sagas, a) && AllFinished([[e], [f]], a)
    requires BothCreate(e, f, s, c, sagas, b) && AllFinished([[e], [f]], b)
    ensures a.s == b.s
  {
    assert [[e], [f]][0] == [e] && [[e], [f]][1] == [f];
    assert Finished([e], a.at[0]) && Finished([f], a.at[1]) && Finished([e], b.at[0]) && Finished([f], b.at[1]);
    forall x ensures RowAt(a.s.rows, x) == RowAt(b.s.rows, x) {}
    forall id ensures LogAt(a.s, id) == LogAt(b.s, id) {}
    SameEverywhere(a.s, b.s);
  }

  // ── The two groups may be exchanged ───────────────────────────────────────────

  function Flipped(k: nat): nat { if k == 0 then 1 else if k == 1 then 0 else k }

  function FlippedAll(schedule: seq<nat>): seq<nat>
  {
    if schedule == [] then [] else FlippedAll(schedule[..|schedule| - 1]) + [Flipped(schedule[|schedule| - 1])]
  }

  function Mirrored(b: Batch): Batch
    requires |b.at| == 2
  {
    Batch(b.s, [b.at[1], b.at[0]])
  }

  lemma StepMirrors(e: Event, f: Event, b: Batch, k: nat, sagas: bool)
    requires |b.at| == 2
    ensures StepOf([[f], [e]], Mirrored(b), Flipped(k), sagas) == Mirrored(StepOf([[e], [f]], b, k, sagas))
  {
    hide Advance;
    if k < 2 { WaitsMirrors(b, k); }
    hide Waits;
  }

  lemma WaitsMirrors(b: Batch, k: nat)
    requires |b.at| == 2 && k < 2
    ensures Waits(Mirrored(b), Flipped(k)) <==> Waits(b, k)
  {
    var m := Mirrored(b);
    assert m.at[Flipped(k)] == b.at[k] && m.at[k] == b.at[Flipped(k)];
  }

  lemma {:induction false} PlayedMirrors(e: Event, f: Event, s: State, schedule: seq<nat>, sagas: bool)
    ensures Played([[f], [e]], s, FlippedAll(schedule), sagas) == Mirrored(Played([[e], [f]], s, schedule, sagas))
  {
    hide StepOf;
    if schedule != [] {
      var n := |schedule| - 1;
      PlayedMirrors(e, f, s, schedule[..n], sagas);
      StepMirrors(e, f, Played([[e], [f]], s, schedule[..n], sagas), schedule[n], sagas);
      var flipped := FlippedAll(schedule);
      assert flipped[..|flipped| - 1] == FlippedAll(schedule[..n]);
    }
  }

  lemma DeterministicMirrors(e: Event, f: Event, s: State, sagas: bool)
    requires Deterministic([[f], [e]], s, sagas)
    ensures Deterministic([[e], [f]], s, sagas)
  {
    var gs, hs := [[e], [f]], [[f], [e]];
    forall p, q | AllFinished(gs, Played(gs, s, p, sagas)) && AllFinished(gs, Played(gs, s, q, sagas))
      ensures Played(gs, s, p, sagas).s == Played(gs, s, q, sagas).s
    {
      PlayedMirrors(e, f, s, p, sagas);
      PlayedMirrors(e, f, s, q, sagas);
      hide Played;
      FinishedMirrors(e, f, Played(gs, s, p, sagas));
      FinishedMirrors(e, f, Played(gs, s, q, sagas));
    }
  }

  lemma FinishedMirrors(e: Event, f: Event, b: Batch)
    requires |b.at| == 2 && AllFinished([[e], [f]], b)
    ensures AllFinished([[f], [e]], Mirrored(b))
  {
    assert [[e], [f]][0] == [e] && [[e], [f]][1] == [f];
    assert Finished([e], b.at[0]) && Finished([f], b.at[1]);
  }

  // ── Harmless pairs ────────────────────────────────────────────────────────────

  lemma AlongIs(row: Option<Row>, e: Event, c: Escrow.ContractId, x: Option<Row>, sagas: bool)
    requires Along(row, e, c, x, sagas)
    ensures x == row || x == Handle(row, e, c, sagas).0
      || (sagas && e.kind == EscrowDisputed && row.Some? && !row.value.disputing && row.value.escrow.status == Escrow.Active
          && x == Marked(row.value, true))
  {
    hide Handle;
  }

  /** On an escrow that is there, whoever does not clash with the worker is idle. */
  lemma IdleOnSome(row: Option<Row>, e: Event, f: Event, c: Escrow.ContractId, x: Option<Row>, sagas: bool)
    requires row.Some? && Harmless(row, e, f, c, sagas) && Along(row, e, c, x, sagas)
    requires Touch(e) == Some(c) && Touch(f) == Some(c)
    requires f.kind == EscrowCreated || !Handle(row, f, c, sagas).1 || (sagas && f.kind == EscrowDisputed && row.value.disputing)
    ensures IdleOn(x, f, c, Handle(row, f, c, sagas).1, sagas && f.kind == EscrowDisputed && !row.value.disputing, sagas)
  {
    HandlerOutcome(row, e, c, sagas);
    HandlerOutcome(row, f, c, sagas);
    AlongIs(row, e, c, x, sagas);
    hide Handle;
    hide Along;
  }

  lemma IdleOnNone(e: Event, f: Event, c: Escrow.ContractId, x: Option<Row>, sagas: bool)
    requires Harmless(None, e, f, c, sagas) && Along(None, e, c, x, sagas) && f.kind != EscrowCreated
    requires Touch(e) == Some(c) && Touch(f) == Some(c)
    ensures IdleOn(x, f, c, false, sagas && f.kind == EscrowDisputed, sagas)
  {
    HandlerOutcome(None, e, c, sagas);
    AlongIs(None, e, c, x, sagas);
    hide Handle;
    hide Along;
  }

  /** `f` changes nothing on the row it finds, whatever it reports. */
  predicate Passive(row: Option<Row>, f: Event, c: Escrow.ContractId, sagas: bool)
  {
    match row
    case None => f.kind != EscrowCreated
    case Some(r) => f.kind == EscrowCreated || !Handle(row, f, c, sagas).1 || (sagas && f.kind == EscrowDisputed && r.disputing)
  }

  lemma OneIsPassive(row: Option<Row>, e: Event, f: Event, c: Escrow.ContractId, sagas: bool)
    requires Touch(e) == Some(c) && Touch(f) == Some(c) && Harmless(row, e, f, c, sagas)
    ensures Passive(row, e, c, sagas) || Passive(row, f, c, sagas)
      || (row.None? && e.kind == EscrowCreated && f.kind == EscrowCreated && NewRow(e, c, None) == NewRow(f, c, None))
  {
    HandlerOutcome(row, e, c, sagas);
    HandlerOutcome(row, f, c, sagas);
    hide Handle;
  }

  lemma PassiveIsDeterministic(e: Event, f: Event, s: State, c: Escrow.ContractId, sagas: bool)
    requires Shares(e, f, s, c) && Harmless(RowAt(s.rows, c), e, f, c, sagas) && Passive(RowAt(s.rows, c), f, c, sagas)
    ensures Deterministic([[e], [f]], s, sagas)
  {
    var row := RowAt(s.rows, c);
    var ok := row.Some? && Handle(row, f, c, sagas).1;
    var late := sagas && f.kind == EscrowDisputed && (row.None? || !row.value.disputing);
    hide Handle;
    hide Along;
    hide IdleOn;
    forall x | Along(row, e, c, x, sagas) ensures IdleOn(x, f, c, ok, late, sagas) {
      if row.None? { IdleOnNone(e, f, c, x, sagas); } else { IdleOnSome(row, e, f, c, x, sagas); }
    }
    hide Deterministic;
    IdleIsDeterministic(e, f, s, c, ok, late, sagas);
  }

  lemma HarmlessIsDeterministic(e: Event, f: Event, s: State, c: Escrow.ContractId, sagas: bool)
    requires Shares(e, f, s, c) && Harmless(RowAt(s.rows, c), e, f, c, sagas)
    ensures Deterministic([[e], [f]], s, sagas)
  {
    OneIsPassive(RowAt(s.rows, c), e, f, c, sagas);
    hide Deterministic;
    hide Passive;
    if Passive(RowAt(s.rows, c), f, c, sagas) {
      PassiveIsDeterministic(e, f, s, c, sagas);
    } else if Passive(RowAt(s.rows, c), e, c, sagas) {
      PassiveIsDeterministic(f, e, s, c, sagas);
      DeterministicMirrors(e, f, s, sagas);
    } else {
      SameCreationIsDeterministic(e, f, s, c, sagas);
    }
  }

  // ── And no others ─────────────────────────────────────────────────────────────

  /** Run one after the other, each event is handled on what the earlier one left. */
  lemma AfterBoth(e: Event, f: Event, s: State, c: Escrow.ContractId, sagas: bool)
    requires Shares(e, f, s, c)
    ensures var row := RowAt(s.rows, c);
      var now := Process(Process(s, e, sagas), f, sagas);
      && RowAt(now.rows, c) == Handle(Handle(row, e, c, sagas).0, f, c, sagas).0
      && LogAt(now, IdOf(e)) == Some(Handle(row, e, c, sagas).1)
      && LogAt(now, IdOf(f)) == Some(Handle(Handle(row, e, c, sagas).0, f, c, sagas).1)
  {
    hide Complete;
  }

  /** A clash shows between the two orders, unless both are disputes that go through the saga. */
  lemma ClashingOrdersDiffer(e: Event, f: Event, s: State, c: Escrow.ContractId, sagas: bool)
    requires Shares(e, f, s, c) && Clashes(RowAt(s.rows, c), e, f, c, sagas)
    requires !(sagas && e.kind == EscrowDisputed && f.kind == EscrowDisputed)
    ensures Process(Process(s, e, sagas), f, sagas) != Process(Process(s, f, sagas), e, sagas)
  {
    var row := RowAt(s.rows, c);
    AfterBoth(e, f, s, c, sagas);
    AfterBoth(f, e, s, c, sagas);
    HandlerOutcome(row, e, c, sagas);
    HandlerOutcome(row, f, c, sagas);
    HandlerOutcome(Handle(row, e, c, sagas).0, f, c, sagas);
    HandlerOutcome(Handle(row, f, c, sagas).0, e, c, sagas);
    hide Process;
    hide Handle;
  }

  /** Both disputes look for a saga before either opens one; then the first runs to its end. */
  function Overlapping(): seq<nat> { ([0, 0, 1, 1] + Only(0, MAX_STEPS)) + Only(1, MAX_STEPS) }

  /** In two steps a dispute that finds no saga comes to wait for the escalation's lock. */
  lemma Screens(gs: seq<seq<Event>>, e: Event, s: State, c: Escrow.ContractId, schedule: seq<nat>, k: nat, at: seq<Cursor>)
    requires k < |gs| && gs[k] == [e] && e.kind == EscrowDisputed && Touch(e) == Some(c) && IdOf(e) !in s.log
    requires c in s.rows && !s.rows[c].disputing && |at| == |gs| && at[k] == Cursor(0, Ready)
    requires Played(gs, s, schedule, true) == Batch(s, at)
    ensures Played(gs, s, schedule + [k] + [k], true) == Batch(s, at[k := Cursor(0, Midway(c, Screened))])
  {
    PlayedOneMore(gs, s, schedule, k, true);
    PlayedOneMore(gs, s, schedule + [k], k, true);
    hide Played;
    assert StepOf(gs, Batch(s, at), k, true) == Batch(s, at[k := Cursor(0, Checked)]);
    assert PutRow(s.rows, c, Some(s.rows[c])) == s.rows;
    assert at[k := Cursor(0, Checked)][k := Cursor(0, Midway(c, Screened))] == at[k := Cursor(0, Midway(c, Screened))];
  }

  lemma BothScreened(e: Event, f: Event, s: State, c: Escrow.ContractId)
    requires Shares(e, f, s, c) && e.kind == EscrowDisputed && f.kind == EscrowDisputed
    requires c in s.rows && !s.rows[c].disputing
    ensures Played([[e], [f]], s, [0, 0, 1, 1], true)
         == Batch(s, [Cursor(0, Midway(c, Screened)), Cursor(0, Midway(c, Screened))])
  {
    var gs := [[e], [f]];
    assert Played(gs, s, [], true) == Batch(s, [Cursor(0, Ready), Cursor(0, Ready)]);
    hide Played;
    Screens(gs, e, s, c, [], 0, [Cursor(0, Ready), Cursor(0, Ready)]);
    assert [] + [0] + [0] == [0, 0];
    Screens(gs, f, s, c, [0, 0], 1, [Cursor(0, Midway(c, Screened)), Cursor(0, Ready)]);
    assert [0, 0] + [1] + [1] == [0, 0, 1, 1];
  }

  /** The second one, which saw no saga, meets the first one's under the lock and fails. */
  lemma OverlappingDisputesDiffer(e: Event, f: Event, s: State, c: Escrow.ContractId)
    requires Shares(e, f, s, c) && e.kind == EscrowDisputed && f.kind == EscrowDisputed
    requires Clashes(RowAt(s.rows, c), e, f, c, true)
    ensures var b := Played([[e], [f]], s, Overlapping(), true);
      AllFinished([[e], [f]], b) && LogAt(b.s, IdOf(f)) == Some(false)
    ensures LogAt(Process(Process(s, e, true), f, true), IdOf(f)) == Some(true)
  {
    var gs := [[e], [f]];
    AfterBoth(e, f, s, c, true);
    HandlerOutcome(RowAt(s.rows, c), e, c, true);
    HandlerOutcome(Handle(RowAt(s.rows, c), e, c, true).0, f, c, true);
    BothScreened(e, f, s, c);
    hide Played;
    hide Process;
    hide Only;
    ComesOn(RowAt(s.rows, c), e, c, Screened, RowAt(s.rows, c), true);
    hide Handle;
    AloneFinishes(gs, s, [0, 0, 1, 1], 0, true);
    hide Ahead;
    SecondFails(gs, e, f, s, c);
  }

  lemma SecondFails(gs: seq<seq<Event>>, e: Event, f: Event, s: State, c: Escrow.ContractId)
    requires gs == [[e], [f]] && Shares(e, f, s, c) && c in s.rows
    requires Handle(RowAt(s.rows, c), e, c, true).0.Some? && Handle(RowAt(s.rows, c), e, c, true).0.value.disputing
    requires Complete(RowAt(s.rows, c), e, c, Screened, true) == Handle(RowAt(s.rows, c), e, c, true)
    requires Played(gs, s, [0, 0, 1, 1] + Only(0, MAX_STEPS), true)
          == Batch(Ahead(s, [e], Cursor(0, Midway(c, Screened)), true), [Cursor(1, Ready), Cursor(0, Midway(c, Screened))])
    ensures var b := Played(gs, s, Overlapping(), true); AllFinished(gs, b) && LogAt(b.s, IdOf(f)) == Some(false)
  {
    hide Played;
    hide Only;
    hide Handle;
    var first := [0, 0, 1, 1] + Only(0, MAX_STEPS);
    var b := Played(gs, s, first, true);
    assert RowAt(b.s.rows, c) == Handle(RowAt(s.rows, c), e, c, true).0;
    AloneFinishes(gs, s, first, 1, true);
    assert Complete(RowAt(b.s.rows, c), f, c, Screened, true).1 == false;
    hide Complete;
  }

  lemma ClashIsNotDeterministic(e: Event, f: Event, s: State, c: Escrow.ContractId, sagas: bool)
    requires Shares(e, f, s, c) && Clashes(RowAt(s.rows, c), e, f, c, sagas)
    ensures !Deterministic([[e], [f]], s, sagas)
  {
    var gs := [[e], [f]];
    BothHandled(gs, s, 0, 1, sagas);
    if sagas && e.kind == EscrowDisputed && f.kind == EscrowDisputed {
      OverlappingDisputesDiffer(e, f, s, c);
      hide Played;
      hide Process;
      assert Played(gs, s, InTurn(0, 1), sagas).s != Played(gs, s, Overlapping(), sagas).s;
    } else {
      BothHandled(gs, s, 1, 0, sagas);
      ClashingOrdersDiffer(e, f, s, c, sagas);
      hide Played;
      hide Process;
      assert Played(gs, s, InTurn(0, 1), sagas).s != Played(gs, s, InTurn(1, 0), sagas).s;
    }
  }

  /**
   * Whatever two events share a row across groups, the schedule does not show exactly if their kinds and
   * what is there do not clash; otherwise two schedules that finish end with different rows or records.
   */
  lemma DeterministicIffHarmless(e: Event, f: Event, s: State, c: Escrow.ContractId, sagas: bool)
    requires Shares(e, f, s, c)
    ensures Deterministic([[e], [f]], s, sagas) <==> Harmless(RowAt(s.rows, c), e, f, c, sagas)
  {
    hide Deterministic;
    hide Clashes;
    if Harmless(RowAt(s.rows, c), e, f, c, sagas) {
      HarmlessIsDeterministic(e, f, s, c, sagas);
    } else if Clashes(RowAt(s.rows, c), e, f, c, sagas) {
      ClashIsNotDeterministic(e, f, s, c, sagas);
    } else {
      ClashIsNotDeterministic(f, e, s, c, sagas);
      if Deterministic([[e], [f]], s, sagas) { DeterministicMirrors(f, e, s, sagas); }
    }
  }

  /** Two events that would both change the row clash, unless they create the very same row, drawing the
      same random id. */
  lemma HarmlessWritersAreAlike(row: Option<Row>, e: Event, f: Event, c: Escrow.ContractId, sagas: bool)
    requires Handle(row, e, c, sagas).0 != row && Handle(row, f, c, sagas).0 != row
    ensures Harmless(row, e, f, c, sagas) <==>
      e.kind == EscrowCreated && f.kind == EscrowCreated && NewRow(e, c, None) == NewRow(f, c, None)
  {
    HandlerOutcome(row, e, c, sagas);
    HandlerOutcome(row, f, c, sagas);
    hide Handle;
  }
}
