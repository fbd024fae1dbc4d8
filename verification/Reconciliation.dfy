// Reconciling escrow rows with the chain: one sweep of seen and repairs, and what a second finds.
module Reconciliation {
  import opened Common
  import opened Escrow

  /** What the chain holds for a contract escrow id. */
  datatype ChainRecord = ChainRecord(depositor: Address, beneficiary: Address, amount: int, status: Status)

  /** One chain read: it failed, its data did not validate, there is no record, or here it is. */
  datatype Read = Failed | Invalid | Absent | Found(record: ChainRecord)

  datatype Target = Target(c: ContractId, escrow: Option<Escrow>)

  datatype DriftType = StatusMismatch | AmountMismatch | MissingInDb | MissingOnChain | InvalidChainData

  datatype Drift = Drift(c: ContractId, kind: DriftType, repaired: bool)

  datatype Db = Db(rows: Rows, next: EscrowId)

  ghost predicate WellFormed(db: Db)
  {
    forall id :: id in db.rows ==> db.rows[id].id == id < db.next
  }

  /** `all` lists every row once. */
  ghost predicate Lists(all: seq<Escrow>, rows: Rows)
  {
    && (forall i, j :: 0 <= i < j < |all| ==> all[i].id != all[j].id)
    && (forall i :: 0 <= i < |all| ==> all[i].id in rows && rows[all[i].id] == all[i])
    && (forall id :: id in rows ==> rows[id] in all)
  }

  function Linked(all: seq<Escrow>): seq<Target>
  {
    if all == [] then []
    else
      var e := all[|all| - 1];
      Linked(all[..|all| - 1]) + if e.contractId.Some? then [Target(e.contractId.value, Some(e))] else []
  }

  predicate Known(all: seq<Escrow>, c: ContractId)
  {
    exists i :: 0 <= i < |all| && all[i].contractId == Some(c)
  }

  function Unknown(extras: seq<ContractId>, all: seq<Escrow>): seq<Target>
  {
    if extras == [] then []
    else
      var c := extras[|extras| - 1];
      Unknown(extras[..|extras| - 1], all) + if Known(all, c) then [] else [Target(c, None)]
  }

  /** The linked rows, then the ids the caller names that no row is linked to. */
  function Targets(all: seq<Escrow>, extras: seq<ContractId>): seq<Target>
  {
    Linked(all) + Unknown(extras, all)
  }

  // ── The sweep ─────────────────────────────────────────────────────────────────

  function Differs(e: Escrow, r: ChainRecord): bool { r.status != e.status || r.amount != e.amount }

  function Backfilled(id: EscrowId, c: ContractId, r: ChainRecord): Escrow
  {
    Escrow(id, r.depositor, r.beneficiary, r.amount, r.status, Some(c), None, None, false, None)
  }

  /** A row with the chain's own parties, amount and status, linked to its id, and nothing else. */
  ghost predicate IsBackfill(e: Escrow, id: EscrowId, c: ContractId, r: ChainRecord)
  {
    && e.id == id && e.contractId == Some(c) && e.version == None
    && e.depositor == r.depositor && e.beneficiary == r.beneficiary && e.amount == r.amount && e.status == r.status
    && e.disputedAt == None && e.splitPercentage == None && !e.review
  }

  function Repaired(rows: Rows, e: Escrow, r: ChainRecord): Result<Escrow>
  {
    TryPatch(rows, e.id, Patch(Some(r.status), Some(r.amount)), e.version)
  }

  function SweepOne(db: Db, t: Target, read: Read): Db
  {
    if !read.Found? then db
    else if t.escrow.None? then Db(db.rows[db.next := Backfilled(db.next, t.c, read.record)], db.next + 1)
    else if Differs(t.escrow.value, read.record) && Repaired(db.rows, t.escrow.value, read.record).Success?
    then db.(rows := db.rows[t.escrow.value.id := Repaired(db.rows, t.escrow.value, read.record).value])
    else db
  }

  /** A listed row is brought to the chain's status and amount, unless it is not the listed one any more. */
  ghost predicate IsRepaired(rows: Rows, rows': Rows, e: Escrow, r: ChainRecord, repaired: bool)
  {
    && (repaired <==> e.id in rows && (e.version == None || rows[e.id].version == e.version))
    && (!repaired ==> rows' == rows)
    && (repaired ==> rows' == rows[e.id := Bumped(rows[e.id].(status := r.status, amount := r.amount))])
  }

  lemma RepairInWords(rows: Rows, e: Escrow, r: ChainRecord)
    ensures var done := Repaired(rows, e, r);
      IsRepaired(rows, if done.Success? then rows[e.id := done.value] else rows, e, r, done.Success?)
  {
  }

  /** What one target comes to: what is written for it, and what is reported. */
  ghost predicate IsReconciled(db: Db, db': Db, t: Target, read: Read, drifts: seq<Drift>)
  {
    match read
    case Failed => db' == db && drifts == []
    case Invalid => db' == db && drifts == [Drift(t.c, InvalidChainData, false)]
    case Absent => db' == db && drifts == (if t.escrow.Some? then [Drift(t.c, MissingOnChain, false)] else [])
    case Found(r) =>
      match t.escrow
      case None =>
        && db'.next == db.next + 1 && db.next in db'.rows && IsBackfill(db'.rows[db.next], db.next, t.c, r)
        && db'.rows == db.rows[db.next := db'.rows[db.next]]
        && drifts == [Drift(t.c, MissingInDb, true)]
      case Some(e) =>
        if r.status == e.status && r.amount == e.amount then db' == db && drifts == []
        else
          && db'.next == db.next
          && exists repaired :: IsRepaired(db.rows, db'.rows, e, r, repaired) && ReportsDrift(t.c, e, r, drifts, repaired)
  }

  /** A differing status and a differing amount are reported each, with what became of their one repair. */
  ghost predicate ReportsDrift(c: ContractId, e: Escrow, r: ChainRecord, drifts: seq<Drift>, repaired: bool)
  {
    && (r.status != e.status && r.amount != e.amount ==>
          drifts == [Drift(c, StatusMismatch, repaired), Drift(c, AmountMismatch, repaired)])
    && (r.status != e.status && r.amount == e.amount ==> drifts == [Drift(c, StatusMismatch, repaired)])
    && (r.status == e.status && r.amount != e.amount ==> drifts == [Drift(c, AmountMismatch, repaired)])
  }

  /** What a target's read is reported as; `repaired` says whether its repair went through. */
  function DriftsOf(t: Target, read: Read, repaired: bool): seq<Drift>
  {
    match read
    case Failed => []
    case Invalid => [Drift(t.c, InvalidChainData, false)]
    case Absent => if t.escrow.Some? then [Drift(t.c, MissingOnChain, false)] else []
    case Found(r) =>
      if t.escrow.None? then [Drift(t.c, MissingInDb, true)]
      else
        (if r.status != t.escrow.value.status then [Drift(t.c, StatusMismatch, repaired)] else [])
        + (if r.amount != t.escrow.value.amount then [Drift(t.c, AmountMismatch, repaired)] else [])
  }

  function RepairWorks(db: Db, t: Target, read: Read): bool
  {
    read.Found? && t.escrow.Some? && Repaired(db.rows, t.escrow.value, read.record).Success?
  }

  lemma TargetInWords(db: Db, t: Target, read: Read)
    ensures IsReconciled(db, SweepOne(db, t, read), t, read, DriftsOf(t, read, RepairWorks(db, t, read)))
  {
    if read.Found? && t.escrow.Some? {
      var e, r := t.escrow.value, read.record;
      RepairInWords(db.rows, e, r);
      hide Repaired;
      hide IsRepaired;
      assert ReportsDrift(t.c, e, r, DriftsOf(t, read, RepairWorks(db, t, read)), RepairWorks(db, t, read)) || (r.status == e.status && r.amount == e.amount);
    }
  }

  function Swept(db: Db, targets: seq<Target>, seen: seq<Read>, n: nat): Db
    requires n <= |targets| == |seen|
  {
    if n == 0 then db else SweepOne(Swept(db, targets, seen, n - 1), targets[n - 1], seen[n - 1])
  }

  function DriftsUpTo(db: Db, targets: seq<Target>, seen: seq<Read>, n: nat): seq<Drift>
    requires n <= |targets| == |seen|
  {
    if n == 0 then []
    else
      DriftsUpTo(db, targets, seen, n - 1)
      + DriftsOf(targets[n - 1], seen[n - 1], RepairWorks(Swept(db, targets, seen, n - 1), targets[n - 1], seen[n - 1]))
  }

  // ── What a sweep does to each row ─────────────────────────────────────────────

  /** The targets of one run: rows as the database has them, each at most once, and unlinked ids. */
  ghost predicate Aimed(db: Db, targets: seq<Target>)
  {
    && (forall i :: 0 <= i < |targets| && targets[i].escrow.Some? ==>
          targets[i].escrow.value.id in db.rows && db.rows[targets[i].escrow.value.id] == targets[i].escrow.value)
    && (forall i, j :: 0 <= i < j < |targets| && targets[i].escrow.Some? && targets[j].escrow.Some? ==>
          targets[i].escrow.value.id != targets[j].escrow.value.id)
  }

  ghost predicate TargetsRow(targets: seq<Target>, i: nat, id: EscrowId)
  {
    i < |targets| && targets[i].escrow.Some? && targets[i].escrow.value.id == id
  }

  /** A row after its own target has been dealt with. */
  function Settled(e: Escrow, read: Read): Escrow
  {
    if read.Found? && (read.record.status != e.status || read.record.amount != e.amount)
    then Bumped(e.(status := read.record.status, amount := read.record.amount))
    else e
  }

  /** What the first `n` targets make of row `e`. */
  ghost function Due(e: Escrow, targets: seq<Target>, seen: seq<Read>, n: nat): Escrow
    requires n <= |targets| == |seen|
  {
    if n == 0 then e
    else if TargetsRow(targets, n - 1, e.id) then Settled(Due(e, targets, seen, n - 1), seen[n - 1])
    else Due(e, targets, seen, n - 1)
  }

  ghost predicate OldRows(db: Db, now: Db, targets: seq<Target>, seen: seq<Read>, n: nat)
    requires n <= |targets| == |seen|
  {
    forall id :: id in db.rows ==> id in now.rows && now.rows[id] == Due(db.rows[id], targets, seen, n)
  }

  /** Row `id` is what target `i` was backfilled with. */
  ghost predicate Backfills(db: Db, now: Db, targets: seq<Target>, seen: seq<Read>, i: nat, id: EscrowId)
    requires |targets| == |seen|
  {
    && i < |targets| && targets[i].escrow.None? && seen[i].Found?
    && id !in db.rows && id in now.rows && IsBackfill(now.rows[id], id, targets[i].c, seen[i].record)
  }

  ghost predicate HasOrigin(db: Db, now: Db, targets: seq<Target>, seen: seq<Read>, n: nat, id: EscrowId)
    requires n <= |targets| == |seen|
  {
    exists i: nat :: i < n && Backfills(db, now, targets, seen, i, id)
  }

  ghost predicate GotRow(db: Db, now: Db, targets: seq<Target>, seen: seq<Read>, i: nat)
    requires |targets| == |seen|
  {
    exists id: EscrowId :: Backfills(db, now, targets, seen, i, id)
  }

  /** The rows that were not there before are the backfilled ones, and none is missing. */
  ghost predicate NewRows(db: Db, now: Db, targets: seq<Target>, seen: seq<Read>, n: nat)
    requires n <= |targets| == |seen|
  {
    && (forall id :: id in now.rows && id !in db.rows ==> HasOrigin(db, now, targets, seen, n, id))
    && (forall i: nat :: i < n && targets[i].escrow.None? && seen[i].Found? ==> GotRow(db, now, targets, seen, i))
  }

  ghost predicate Sized(db: Db, now: Db)
  {
    WellFormed(now) && db.next <= now.next
  }

  lemma {:induction false} DueKeepsId(e: Escrow, targets: seq<Target>, seen: seq<Read>, n: nat)
    requires n <= |targets| == |seen|
    ensures Due(e, targets, seen, n).id == e.id && Due(e, targets, seen, n).contractId == e.contractId
  {
    if n > 0 { DueKeepsId(e, targets, seen, n - 1); }
  }

  /** A row is left alone until its own target comes. */
  lemma {:induction false} DueBefore(e: Escrow, targets: seq<Target>, seen: seq<Read>, n: nat)
    requires n <= |targets| == |seen| && forall i: nat :: i < n ==> !TargetsRow(targets, i, e.id)
    ensures Due(e, targets, seen, n) == e
  {
    hide TargetsRow;
    if n > 0 { DueBefore(e, targets, seen, n - 1); }
  }

  lemma {:induction false} DueAfter(e: Escrow, targets: seq<Target>, seen: seq<Read>, i: nat, n: nat)
    requires i < n <= |targets| == |seen| && TargetsRow(targets, i, e.id)
    requires forall j: nat :: j < n && j != i ==> !TargetsRow(targets, j, e.id)
    ensures Due(e, targets, seen, n) == Settled(e, seen[i])
  {
    hide TargetsRow;
    if i + 1 < n { DueAfter(e, targets, seen, i, n - 1); } else { DueBefore(e, targets, seen, i); }
  }

  /** Every row of the database is the target of at most one read. */
  lemma OneTarget(db: Db, targets: seq<Target>, i: nat, j: nat, id: EscrowId)
    requires Aimed(db, targets) && TargetsRow(targets, i, id) && TargetsRow(targets, j, id)
    ensures i == j
  {
  }

  lemma SweepLinkedRow(db: Db, was: Db, targets: seq<Target>, seen: seq<Read>, n: nat)
    requires n < |targets| == |seen| && Aimed(db, targets) && OldRows(db, was, targets, seen, n)
    requires targets[n].escrow.Some? && seen[n].Found?
    ensures var e := targets[n].escrow.value;
      && e.id in db.rows && e.id in was.rows && db.rows[e.id] == was.rows[e.id] == e
      && SweepOne(was, targets[n], seen[n]) == was.(rows := was.rows[e.id := Settled(e, seen[n])])
  {
    var e := targets[n].escrow.value;
    forall i: nat | i < n ensures !TargetsRow(targets, i, e.id) {
      if TargetsRow(targets, i, e.id) { OneTarget(db, targets, i, n, e.id); }
    }
    DueBefore(e, targets, seen, n);
    assert was.rows[e.id := e] == was.rows;
  }

  lemma OldRowsStep(db: Db, was: Db, targets: seq<Target>, seen: seq<Read>, n: nat)
    requires n < |targets| == |seen| && WellFormed(db) && Sized(db, was) && Aimed(db, targets)
    requires OldRows(db, was, targets, seen, n)
    ensures OldRows(db, SweepOne(was, targets[n], seen[n]), targets, seen, n + 1)
  {
    var now := SweepOne(was, targets[n], seen[n]);
    if targets[n].escrow.Some? && seen[n].Found? { SweepLinkedRow(db, was, targets, seen, n); }
    hide Aimed;
    forall id | id in db.rows ensures id in now.rows && now.rows[id] == Due(db.rows[id], targets, seen, n + 1) {
      assert was.rows[id] == Due(db.rows[id], targets, seen, n);
    }
  }

  lemma SizedStep(db: Db, was: Db, targets: seq<Target>, seen: seq<Read>, n: nat)
    requires n < |targets| == |seen| && Sized(db, was) && Aimed(db, targets) && OldRows(db, was, targets, seen, n)
    ensures Sized(db, SweepOne(was, targets[n], seen[n]))
  {
    if targets[n].escrow.Some? && seen[n].Found? { SweepLinkedRow(db, was, targets, seen, n); }
    hide Aimed;
    hide OldRows;
  }

  /** Backfilled rows stay as they are for the rest of the sweep. */
  lemma BackfillsStay(db: Db, was: Db, now: Db, targets: seq<Target>, seen: seq<Read>, n: nat)
    requires n < |targets| == |seen| && NewRows(db, was, targets, seen, n)
    requires forall id :: id in was.rows && id !in db.rows ==> id in now.rows && now.rows[id] == was.rows[id]
    ensures forall id :: id in was.rows && id !in db.rows ==> HasOrigin(db, now, targets, seen, n + 1, id)
    ensures forall i: nat :: i < n && targets[i].escrow.None? && seen[i].Found? ==> GotRow(db, now, targets, seen, i)
  {
    forall id | id in was.rows && id !in db.rows ensures HasOrigin(db, now, targets, seen, n + 1, id) {
      assert HasOrigin(db, was, targets, seen, n, id);
      var i: nat :| i < n && Backfills(db, was, targets, seen, i, id);
      assert Backfills(db, now, targets, seen, i, id);
    }
    forall i: nat | i < n && targets[i].escrow.None? && seen[i].Found? ensures GotRow(db, now, targets, seen, i) {
      assert GotRow(db, was, targets, seen, i);
      var id: EscrowId :| Backfills(db, was, targets, seen, i, id);
      assert Backfills(db, now, targets, seen, i, id);
    }
  }

  /** Which rows one target may add or touch. */
  lemma StepEffect(db: Db, was: Db, targets: seq<Target>, seen: seq<Read>, n: nat)
    requires n < |targets| == |seen| && WellFormed(db) && Sized(db, was) && Aimed(db, targets)
    requires OldRows(db, was, targets, seen, n)
    ensures var now := SweepOne(was, targets[n], seen[n]);
      && (forall id :: id in was.rows && id !in db.rows ==> id in now.rows && now.rows[id] == was.rows[id])
      && (forall id :: id in now.rows && id !in was.rows ==> Backfills(db, now, targets, seen, n, id))
      && (targets[n].escrow.None? && seen[n].Found? ==> Backfills(db, now, targets, seen, n, was.next))
  {
    if targets[n].escrow.Some? && seen[n].Found? {
      SweepLinkedRow(db, was, targets, seen, n);
    }
  }

  lemma NewRowsStep(db: Db, was: Db, now: Db, targets: seq<Target>, seen: seq<Read>, n: nat)
    requires n < |targets| == |seen| && NewRows(db, was, targets, seen, n)
    requires forall id :: id in was.rows && id !in db.rows ==> id in now.rows && now.rows[id] == was.rows[id]
    requires forall id :: id in now.rows && id !in was.rows ==> Backfills(db, now, targets, seen, n, id)
    requires targets[n].escrow.None? && seen[n].Found? ==> Backfills(db, now, targets, seen, n, was.next)
    ensures NewRows(db, now, targets, seen, n + 1)
  {
    BackfillsStay(db, was, now, targets, seen, n);
    hide NewRows;
    hide Backfills;
    forall id | id in now.rows && id !in db.rows ensures HasOrigin(db, now, targets, seen, n + 1, id) {
      if id !in was.rows { assert Backfills(db, now, targets, seen, n, id); }
    }
    if targets[n].escrow.None? && seen[n].Found? {
      assert Backfills(db, now, targets, seen, n, was.next);
      assert GotRow(db, now, targets, seen, n);
    }
    NewRowsAre(db, now, targets, seen, n + 1);
  }

  lemma NewRowsAre(db: Db, now: Db, targets: seq<Target>, seen: seq<Read>, n: nat)
    requires n <= |targets| == |seen|
    requires forall id :: id in now.rows && id !in db.rows ==> HasOrigin(db, now, targets, seen, n, id)
    requires forall i: nat :: i < n && targets[i].escrow.None? && seen[i].Found? ==> GotRow(db, now, targets, seen, i)
    ensures NewRows(db, now, targets, seen, n)
  {
  }

  lemma SweepStep(db: Db, was: Db, targets: seq<Target>, seen: seq<Read>, n: nat)
    requires n < |targets| == |seen| && WellFormed(db) && Aimed(db, targets)
    requires Sized(db, was) && OldRows(db, was, targets, seen, n) && NewRows(db, was, targets, seen, n)
    ensures var now := SweepOne(was, targets[n], seen[n]);
      Sized(db, now) && OldRows(db, now, targets, seen, n + 1) && NewRows(db, now, targets, seen, n + 1)
  {
    hide Aimed;
    hide OldRows;
    hide NewRows;
    hide SweepOne;
    hide Sized;
    hide Backfills;
    OldRowsStep(db, was, targets, seen, n);
    SizedStep(db, was, targets, seen, n);
    StepEffect(db, was, targets, seen, n);
    NewRowsStep(db, was, SweepOne(was, targets[n], seen[n]), targets, seen, n);
  }

  lemma SweepBase(db: Db, targets: seq<Target>, seen: seq<Read>)
    requires |targets| == |seen| && WellFormed(db)
    ensures Sized(db, db) && OldRows(db, db, targets, seen, 0) && NewRows(db, db, targets, seen, 0)
  {
  }

  /** After a sweep every old row is as its own target demands, and the new rows are the backfilled ones. */
  lemma {:induction false} SweepIsRight(db: Db, targets: seq<Target>, seen: seq<Read>, n: nat)
    requires n <= |targets| == |seen| && WellFormed(db) && Aimed(db, targets)
    ensures Sized(db, Swept(db, targets, seen, n))
    ensures OldRows(db, Swept(db, targets, seen, n), targets, seen, n)
    ensures NewRows(db, Swept(db, targets, seen, n), targets, seen, n)
  {
    hide Aimed;
    hide OldRows;
    hide NewRows;
    hide SweepOne;
    hide Sized;
    hide WellFormed;
    if n == 0 {
      SweepBase(db, targets, seen);
    } else {
      SweepIsRight(db, targets, seen, n - 1);
      SweepStep(db, Swept(db, targets, seen, n - 1), targets, seen, n - 1);
    }
  }

  // ── Targets come from the listing ─────────────────────────────────────────────

  lemma {:induction false} LinkedMembers(all: seq<Escrow>)
    ensures forall i :: 0 <= i < |Linked(all)| ==>
      Linked(all)[i].escrow.Some? && Linked(all)[i].escrow.value in all && Linked(all)[i].escrow.value.contractId == Some(Linked(all)[i].c)
    ensures forall e :: e in all && e.contractId.Some? ==> Target(e.contractId.value, Some(e)) in Linked(all)
  {
    if all != [] {
      var n := |all| - 1;
      LinkedMembers(all[..n]);
      assert all == all[..n] + [all[n]];
    }
  }

  ghost predicate DistinctRows(all: seq<Escrow>)
  {
    forall i, j :: 0 <= i < j < |all| ==> all[i].id != all[j].id
  }

  ghost predicate DistinctLinked(targets: seq<Target>)
  {
    forall i, j :: 0 <= i < j < |targets| && targets[i].escrow.Some? && targets[j].escrow.Some? ==>
      targets[i].escrow.value.id != targets[j].escrow.value.id
  }

  lemma {:induction false} LinkedAreDistinct(all: seq<Escrow>)
    requires DistinctRows(all)
    ensures DistinctLinked(Linked(all))
  {
    if all != [] {
      var n := |all| - 1;
      assert DistinctRows(all[..n]);
      LinkedAreDistinct(all[..n]);
      LinkedMembers(all[..n]);
    }
  }

  lemma {:induction false} UnknownMembers(extras: seq<ContractId>, all: seq<Escrow>)
    ensures forall i :: 0 <= i < |Unknown(extras, all)| ==>
      Unknown(extras, all)[i].escrow.None? && Unknown(extras, all)[i].c in extras && !Known(all, Unknown(extras, all)[i].c)
    ensures forall c :: c in extras && !Known(all, c) ==> Target(c, None) in Unknown(extras, all)
  {
    if extras != [] {
      var n := |extras| - 1;
      UnknownMembers(extras[..n], all);
      assert extras == extras[..n] + [extras[n]];
    }
  }

  lemma TargetsAreAimed(db: Db, all: seq<Escrow>, extras: seq<ContractId>)
    requires Lists(all, db.rows)
    ensures Aimed(db, Targets(all, extras))
  {
    hide Linked;
    hide Unknown;
    LinkedMembers(all);
    UnknownMembers(extras, all);
    assert DistinctRows(all);
    LinkedAreDistinct(all);
  }

  // ── A second run ──────────────────────────────────────────────────────────────

  /** Reads that did not fail all saw the same chain. */
  ghost predicate Faithful(targets: seq<Target>, seen: seq<Read>, chain: map<ContractId, Read>)
  {
    && |targets| == |seen|
    && forall i :: 0 <= i < |targets| ==> seen[i] == Failed || (targets[i].c in chain && seen[i] == chain[targets[i].c])
  }

  predicate Repairable(d: DriftType) { d == StatusMismatch || d == AmountMismatch || d == MissingInDb }

  /** The target of a run whose read of contract id `c` failed. */
  ghost predicate FailedOn(targets: seq<Target>, seen: seq<Read>, c: ContractId)
    requires |targets| == |seen|
  {
    exists i :: 0 <= i < |targets| && targets[i].c == c && seen[i] == Failed
  }

  /** One run over a listing of the rows. */
  function RunOf(db: Db, all: seq<Escrow>, extras: seq<ContractId>, seen: seq<Read>): Db
    requires |seen| == |Targets(all, extras)|
  {
    Swept(db, Targets(all, extras), seen, |seen|)
  }

  /** A row as a run leaves it agrees with the chain, unless its read failed or found no record. */
  lemma RowAgrees(db: Db, all: seq<Escrow>, extras: seq<ContractId>, seen: seq<Read>, chain: map<ContractId, Read>,
          id: EscrowId)
    requires WellFormed(db) && Lists(all, db.rows) && Faithful(Targets(all, extras), seen, chain)
    requires id in RunOf(db, all, extras, seen).rows
    ensures var e := RunOf(db, all, extras, seen).rows[id];
      e.contractId.Some? && e.contractId.value in chain && chain[e.contractId.value].Found? && Differs(e, chain[e.contractId.value].record)
      ==> FailedOn(Targets(all, extras), seen, e.contractId.value)
  {
    var targets, now := Targets(all, extras), RunOf(db, all, extras, seen);
    TargetsAreAimed(db, all, extras);
    SweepIsRight(db, targets, seen, |seen|);
    if id in db.rows {
      DueKeepsId(db.rows[id], targets, seen, |seen|);
      if db.rows[id].contractId.Some? { OldRowAgrees(db, all, extras, seen, chain, id); }
    } else {
      NewRowAgrees(db, now, targets, seen, chain, id);
    }
  }

  lemma NewRowAgrees(db: Db, now: Db, targets: seq<Target>, seen: seq<Read>, chain: map<ContractId, Read>, id: EscrowId)
    requires Faithful(targets, seen, chain) && NewRows(db, now, targets, seen, |seen|) && id in now.rows
    requires id !in db.rows
    ensures var e := now.rows[id];
      e.contractId.Some? && e.contractId.value in chain && chain[e.contractId.value].Found? && !Differs(e, chain[e.contractId.value].record)
  {
    assert HasOrigin(db, now, targets, seen, |seen|, id);
    var i: nat :| i < |seen| && Backfills(db, now, targets, seen, i, id);
  }

  lemma TargetOfRow(db: Db, all: seq<Escrow>, extras: seq<ContractId>, id: EscrowId) returns (i: nat)
    requires WellFormed(db) && Lists(all, db.rows) && id in db.rows && db.rows[id].contractId.Some?
    ensures i < |Targets(all, extras)| && TargetsRow(Targets(all, extras), i, id)
    ensures Targets(all, extras)[i] == Target(db.rows[id].contractId.value, Some(db.rows[id]))
  {
    hide Linked;
    hide Unknown;
    LinkedMembers(all);
    var t := Target(db.rows[id].contractId.value, Some(db.rows[id]));
    assert t in Linked(all);
    i :| 0 <= i < |Linked(all)| && Linked(all)[i] == t;
  }

  /** What a whole run makes of a linked row that was there before. */
  lemma OldRowSettled(db: Db, all: seq<Escrow>, extras: seq<ContractId>, seen: seq<Read>, id: EscrowId) returns (i: nat)
    requires WellFormed(db) && Lists(all, db.rows) && |seen| == |Targets(all, extras)|
    requires id in db.rows && db.rows[id].contractId.Some?
    ensures i < |seen| && Targets(all, extras)[i] == Target(db.rows[id].contractId.value, Some(db.rows[id]))
    ensures id in RunOf(db, all, extras, seen).rows
    ensures RunOf(db, all, extras, seen).rows[id] == Settled(db.rows[id], seen[i])
  {
    hide Targets;
    hide Settled;
    var targets := Targets(all, extras);
    TargetsAreAimed(db, all, extras);
    SweepIsRight(db, targets, seen, |seen|);
    i := TargetOfRow(db, all, extras, id);
    forall j: nat | j < |seen| && j != i ensures !TargetsRow(targets, j, id) {
      if TargetsRow(targets, j, id) { OneTarget(db, targets, i, j, id); }
    }
    DueAfter(db.rows[id], targets, seen, i, |seen|);
  }

  lemma OldRowAgrees(db: Db, all: seq<Escrow>, extras: seq<ContractId>, seen: seq<Read>,
          chain: map<ContractId, Read>, id: EscrowId)
    requires WellFormed(db) && Lists(all, db.rows) && Faithful(Targets(all, extras), seen, chain)
    requires id in db.rows && db.rows[id].contractId.Some?
    ensures id in RunOf(db, all, extras, seen).rows
    ensures var e := RunOf(db, all, extras, seen).rows[id];
      e.contractId.Some? && e.contractId.value in chain && chain[e.contractId.value].Found? && Differs(e, chain[e.contractId.value].record)
      ==> FailedOn(Targets(all, extras), seen, e.contractId.value)
  {
    hide RunOf;
    hide Targets;
    var i := OldRowSettled(db, all, extras, seen, id);
  }

  /** A run changes a row only when the row's own read found a record that differs from it. */
  lemma OnlyFoundRowsChange(db: Db, all: seq<Escrow>, extras: seq<ContractId>, seen: seq<Read>, id: EscrowId)
    requires WellFormed(db) && Lists(all, db.rows) && |seen| == |Targets(all, extras)| && id in db.rows
    ensures id in RunOf(db, all, extras, seen).rows
    ensures RunOf(db, all, extras, seen).rows[id] != db.rows[id] ==>
      exists i: nat :: TargetsRow(Targets(all, extras), i, id) && seen[i].Found? && Differs(db.rows[id], seen[i].record)
  {
    var targets := Targets(all, extras);
    if db.rows[id].contractId.Some? {
      var i := OldRowSettled(db, all, extras, seen, id);
      assert TargetsRow(targets, i, id);
    } else {
      hide Targets;
      TargetsAreAimed(db, all, extras);
      SweepIsRight(db, targets, seen, |seen|);
      UnlinkedHasNoTarget(db, all, extras, id);
      DueBefore(db.rows[id], targets, seen, |seen|);
    }
  }

  lemma UnlinkedHasNoTarget(db: Db, all: seq<Escrow>, extras: seq<ContractId>, id: EscrowId)
    requires WellFormed(db) && Lists(all, db.rows) && id in db.rows && db.rows[id].contractId.None?
    ensures forall i: nat :: !TargetsRow(Targets(all, extras), i, id)
  {
    hide Linked;
    hide Unknown;
    LinkedMembers(all);
    UnknownMembers(extras, all);
    forall i: nat ensures !TargetsRow(Targets(all, extras), i, id) {
      if i < |Linked(all)| {
        var e := Linked(all)[i].escrow.value;
        var j :| 0 <= j < |all| && all[j] == e;
        assert db.rows[e.id] == e;
      }
    }
  }

  /** A contract id some row was linked to before the run is linked after it. */
  lemma KnownStays(db: Db, all: seq<Escrow>, extras: seq<ContractId>, seen: seq<Read>, later: seq<Escrow>,
          c: ContractId)
    requires WellFormed(db) && Lists(all, db.rows) && |seen| == |Targets(all, extras)|
    requires Lists(later, RunOf(db, all, extras, seen).rows) && Known(all, c)
    ensures Known(later, c)
  {
    hide Targets;
    var i :| 0 <= i < |all| && all[i].contractId == Some(c);
    var now := RunOf(db, all, extras, seen);
    TargetsAreAimed(db, all, extras);
    SweepIsRight(db, Targets(all, extras), seen, |seen|);
    DueKeepsId(all[i], Targets(all, extras), seen, |seen|);
    var e := now.rows[all[i].id];
    assert e in later;
    var j :| 0 <= j < |later| && later[j] == e;
  }

  /** An id the caller named is linked after the run, unless its read failed or found nothing. */
  lemma NamedIsLinked(db: Db, all: seq<Escrow>, extras: seq<ContractId>, seen: seq<Read>,
          chain: map<ContractId, Read>, later: seq<Escrow>, c: ContractId)
    requires WellFormed(db) && Lists(all, db.rows) && Faithful(Targets(all, extras), seen, chain)
    requires Lists(later, RunOf(db, all, extras, seen).rows)
    requires c in extras && c in chain && chain[c].Found?
    ensures Known(later, c) || FailedOn(Targets(all, extras), seen, c)
  {
    if Known(all, c) {
      KnownStays(db, all, extras, seen, later, c);
    } else {
      var i := TargetOfExtra(all, extras, c);
      if seen[i] != Failed { BackfilledIsListed(db, all, extras, seen, later, i); }
    }
  }

  lemma TargetOfExtra(all: seq<Escrow>, extras: seq<ContractId>, c: ContractId) returns (i: nat)
    requires c in extras && !Known(all, c)
    ensures i < |Targets(all, extras)| && Targets(all, extras)[i] == Target(c, None)
  {
    hide Linked;
    hide Unknown;
    UnknownMembers(extras, all);
    var t := Target(c, None);
    assert t in Unknown(extras, all);
    var j :| 0 <= j < |Unknown(extras, all)| && Unknown(extras, all)[j] == t;
    i := |Linked(all)| + j;
  }

  lemma BackfilledIsListed(db: Db, all: seq<Escrow>, extras: seq<ContractId>, seen: seq<Read>, later: seq<Escrow>,
          i: nat)
    requires WellFormed(db) && Lists(all, db.rows) && |seen| == |Targets(all, extras)|
    requires Lists(later, RunOf(db, all, extras, seen).rows)
    requires i < |seen| && Targets(all, extras)[i].escrow.None? && seen[i].Found?
    ensures Known(later, Targets(all, extras)[i].c)
  {
    hide Targets;
    var targets, now := Targets(all, extras), RunOf(db, all, extras, seen);
    TargetsAreAimed(db, all, extras);
    SweepIsRight(db, targets, seen, |seen|);
    assert GotRow(db, now, targets, seen, i);
    var id: EscrowId :| Backfills(db, now, targets, seen, i, id);
    assert now.rows[id] in later;
    var j :| 0 <= j < |later| && later[j] == now.rows[id];
  }

  /** What the second run's target `i` may still have to repair. */
  lemma SecondTargetIsQuiet(db: Db, all: seq<Escrow>, extras: seq<ContractId>, seen: seq<Read>,
          chain: map<ContractId, Read>, later: seq<Escrow>, again: seq<Read>, i: nat)
    requires WellFormed(db) && Lists(all, db.rows) && Faithful(Targets(all, extras), seen, chain)
    requires Lists(later, RunOf(db, all, extras, seen).rows) && Faithful(Targets(later, extras), again, chain)
    requires i < |again| && again[i].Found?
    ensures var t := Targets(later, extras)[i];
      (t.escrow.Some? ==> Differs(t.escrow.value, again[i].record)) ==> FailedOn(Targets(all, extras), seen, t.c)
  {
    hide RunOf;
    hide Targets;
    hide FailedOn;
    hide Differs;
    var now := RunOf(db, all, extras, seen);
    var t := Targets(later, extras)[i];
    SecondTarget(later, extras, i);
    if t.escrow.Some? {
      RowAgrees(db, all, extras, seen, chain, t.escrow.value.id);
    } else {
      NamedIsLinked(db, all, extras, seen, chain, later, t.c);
    }
  }

  lemma SecondTarget(later: seq<Escrow>, extras: seq<ContractId>, i: nat)
    requires i < |Targets(later, extras)|
    ensures var t := Targets(later, extras)[i];
      if t.escrow.Some? then t.escrow.value in later && t.escrow.value.contractId == Some(t.c)
      else t.c in extras && !Known(later, t.c)
  {
    hide Linked;
    hide Unknown;
    LinkedMembers(later);
    UnknownMembers(extras, later);
  }

  lemma {:induction false} DriftHasTarget(db: Db, targets: seq<Target>, seen: seq<Read>, n: nat, d: Drift)
    returns (i: nat)
    requires n <= |targets| == |seen| && d in DriftsUpTo(db, targets, seen, n)
    ensures i < n && (d in DriftsOf(targets[i], seen[i], true) || d in DriftsOf(targets[i], seen[i], false))
  {
    hide DriftsOf;
    if d in DriftsUpTo(db, targets, seen, n - 1) {
      i := DriftHasTarget(db, targets, seen, n - 1, d);
    } else {
      i := n - 1;
    }
  }

  /**
   * Convergence: a second run against the same chain reports a status, amount or missing-in-DB
   * drift only for ids whose read failed in the first run.
   */
  lemma {:induction false} SecondRunIsQuiet(db: Db, all: seq<Escrow>, extras: seq<ContractId>, seen: seq<Read>,
          chain: map<ContractId, Read>, later: seq<Escrow>, again: seq<Read>, d: Drift)
    requires WellFormed(db) && Lists(all, db.rows) && Faithful(Targets(all, extras), seen, chain)
    requires Lists(later, RunOf(db, all, extras, seen).rows) && Faithful(Targets(later, extras), again, chain)
    requires d in DriftsUpTo(RunOf(db, all, extras, seen), Targets(later, extras), again, |again|) && Repairable(d.kind)
    ensures FailedOn(Targets(all, extras), seen, d.c)
  {
    hide RunOf;
    hide Targets;
    hide FailedOn;
    var i := DriftHasTarget(RunOf(db, all, extras, seen), Targets(later, extras), again, |again|, d);
    SecondTargetIsQuiet(db, all, extras, seen, chain, later, again, i);
  }

  lemma {:induction false} QuietSweep(db: Db, targets: seq<Target>, seen: seq<Read>, n: nat)
    requires n <= |targets| == |seen|
    requires forall i :: 0 <= i < n && seen[i].Found? ==> targets[i].escrow.Some? && !Differs(targets[i].escrow.value, seen[i].record)
    ensures Swept(db, targets, seen, n) == db
  {
    if n > 0 { QuietSweep(db, targets, seen, n - 1); }
  }

  /** Idempotence: after a run in which no read failed, a second run writes nothing. */
  lemma SecondRunWritesNothing(db: Db, all: seq<Escrow>, extras: seq<ContractId>, seen: seq<Read>,
          chain: map<ContractId, Read>, later: seq<Escrow>, again: seq<Read>)
    requires WellFormed(db) && Lists(all, db.rows) && Faithful(Targets(all, extras), seen, chain)
    requires Lists(later, RunOf(db, all, extras, seen).rows) && Faithful(Targets(later, extras), again, chain)
    requires forall i :: 0 <= i < |seen| ==> seen[i] != Failed
    ensures RunOf(RunOf(db, all, extras, seen), later, extras, again) == RunOf(db, all, extras, seen)
  {
    hide Targets;
    hide Differs;
    var targets := Targets(later, extras);
    forall i | 0 <= i < |again| && again[i].Found?
      ensures targets[i].escrow.Some? && !Differs(targets[i].escrow.value, again[i].record)
    {
      SecondTargetIsQuiet(db, all, extras, seen, chain, later, again, i);
    }
    QuietSweep(RunOf(db, all, extras, seen), targets, again, |again|);
  }

  // ── One row per contract id ───────────────────────────────────────────────────

  ghost predicate OneRowEach(rows: Rows)
  {
    forall x, y :: x in rows && y in rows && x != y && rows[x].contractId.Some? ==> rows[x].contractId != rows[y].contractId
  }

  /** Target `i` has no row and its read found a record, so that it is backfilled. */
  predicate WillBackfill(targets: seq<Target>, seen: seq<Read>, i: nat)
    requires |targets| == |seen|
  {
    i < |targets| && targets[i].escrow.None? && seen[i].Found?
  }

  /** No two such targets are for the same contract id. */
  ghost predicate NoneFoundTwice(targets: seq<Target>, seen: seq<Read>)
    requires |targets| == |seen|
  {
    forall i: nat, j: nat :: i < j && WillBackfill(targets, seen, i) && WillBackfill(targets, seen, j) ==> targets[i].c != targets[j].c
  }

  predicate FoundBefore(targets: seq<Target>, seen: seq<Read>, n: nat, c: ContractId)
    requires n <= |targets| == |seen|
  {
    exists i: nat :: i < n && WillBackfill(targets, seen, i) && targets[i].c == c
  }

  ghost predicate LinksKnown(now: Db, all: seq<Escrow>, targets: seq<Target>, seen: seq<Read>, n: nat)
    requires n <= |targets| == |seen|
  {
    forall id :: id in now.rows && now.rows[id].contractId.Some? ==>
      Known(all, now.rows[id].contractId.value) || FoundBefore(targets, seen, n, now.rows[id].contractId.value)
  }

  lemma {:induction false} UnknownIsDistinct(extras: seq<ContractId>, all: seq<Escrow>)
    requires Distinct(extras)
    ensures forall i, j :: 0 <= i < j < |Unknown(extras, all)| ==> Unknown(extras, all)[i].c != Unknown(extras, all)[j].c
  {
    if extras != [] {
      var n := |extras| - 1;
      assert Distinct(extras[..n]);
      UnknownIsDistinct(extras[..n], all);
      UnknownMembers(extras[..n], all);
    }
  }

  lemma DistinctIsFoundOnce(all: seq<Escrow>, extras: seq<ContractId>, seen: seq<Read>)
    requires Distinct(extras) && |Targets(all, extras)| == |seen|
    ensures NoneFoundTwice(Targets(all, extras), seen)
  {
    hide Linked;
    hide Unknown;
    LinkedMembers(all);
    UnknownMembers(extras, all);
    UnknownIsDistinct(extras, all);
  }

  lemma UnlistedIsUnknown(all: seq<Escrow>, extras: seq<ContractId>, n: nat)
    requires n < |Targets(all, extras)| && Targets(all, extras)[n].escrow.None?
    ensures !Known(all, Targets(all, extras)[n].c)
  {
    hide Linked;
    hide Unknown;
    LinkedMembers(all);
    UnknownMembers(extras, all);
  }

  lemma LinkStep(db: Db, was: Db, all: seq<Escrow>, extras: seq<ContractId>, seen: seq<Read>, n: nat)
    requires n < |Targets(all, extras)| == |seen| && NoneFoundTwice(Targets(all, extras), seen)
    requires WellFormed(was) && OneRowEach(was.rows) && LinksKnown(was, all, Targets(all, extras), seen, n)
    ensures var now := SweepOne(was, Targets(all, extras)[n], seen[n]);
      OneRowEach(now.rows) && LinksKnown(now, all, Targets(all, extras), seen, n + 1)
  {
    var targets := Targets(all, extras);
    hide Targets;
    assert forall c :: FoundBefore(targets, seen, n, c) ==> FoundBefore(targets, seen, n + 1, c);
    if targets[n].escrow.None? && seen[n].Found? {
      UnlistedIsUnknown(all, extras, n);
      assert !FoundBefore(targets, seen, n, targets[n].c);
      assert FoundBefore(targets, seen, n + 1, targets[n].c) by { FoundNow(targets, seen, n); }
      hide FoundBefore;
      hide Known;
    }
  }

  lemma FoundNow(targets: seq<Target>, seen: seq<Read>, n: nat)
    requires n < |targets| == |seen| && targets[n].escrow.None? && seen[n].Found?
    ensures FoundBefore(targets, seen, n + 1, targets[n].c)
  {
    assert WillBackfill(targets, seen, n);
  }

  lemma ListedLinksAreKnown(db: Db, all: seq<Escrow>, targets: seq<Target>, seen: seq<Read>)
    requires Lists(all, db.rows) && |targets| == |seen|
    ensures LinksKnown(db, all, targets, seen, 0)
  {
    hide FoundBefore;
    forall id | id in db.rows && db.rows[id].contractId.Some? ensures Known(all, db.rows[id].contractId.value) {
      assert db.rows[id] in all;
      var j :| 0 <= j < |all| && all[j] == db.rows[id];
    }
  }

  lemma SweptIsWellFormed(db: Db, all: seq<Escrow>, extras: seq<ContractId>, seen: seq<Read>, n: nat)
    requires WellFormed(db) && Lists(all, db.rows) && n <= |Targets(all, extras)| == |seen|
    ensures WellFormed(Swept(db, Targets(all, extras), seen, n))
  {
    hide Targets;
    hide OldRows;
    hide NewRows;
    hide Aimed;
    hide Swept;
    TargetsAreAimed(db, all, extras);
    SweepIsRight(db, Targets(all, extras), seen, n);
  }

  lemma {:induction false} SweepKeepsOneRowEach(db: Db, all: seq<Escrow>, extras: seq<ContractId>, seen: seq<Read>,
          n: nat)
    requires WellFormed(db) && Lists(all, db.rows) && OneRowEach(db.rows)
    requires n <= |Targets(all, extras)| == |seen| && NoneFoundTwice(Targets(all, extras), seen)
    ensures var now := Swept(db, Targets(all, extras), seen, n);
      WellFormed(now) && OneRowEach(now.rows) && LinksKnown(now, all, Targets(all, extras), seen, n)
  {
    hide Targets;
    hide SweepOne;
    hide OneRowEach;
    hide LinksKnown;
    hide Lists;
    hide WellFormed;
    hide NoneFoundTwice;
    SweptIsWellFormed(db, all, extras, seen, n);
    if n == 0 {
      ListedLinksAreKnown(db, all, Targets(all, extras), seen);
    } else {
      SweepKeepsOneRowEach(db, all, extras, seen, n - 1);
      LinkStep(db, Swept(db, Targets(all, extras), seen, n - 1), all, extras, seen, n - 1);
    }
  }

  lemma LinksStay(db: Db, t: Target, read: Read)
    requires WellFormed(db)
    ensures var now := SweepOne(db, t, read);
      db.next <= now.next && forall id :: id in db.rows ==> id in now.rows && now.rows[id].contractId == db.rows[id].contractId
  {
  }

  lemma SweptOn(db: Db, targets: seq<Target>, seen: seq<Read>, n: nat)
    requires n < |targets| == |seen| && WellFormed(Swept(db, targets, seen, n))
    ensures Swept(db, targets, seen, n + 1) == SweepOne(Swept(db, targets, seen, n), targets[n], seen[n])
    ensures WillBackfill(targets, seen, n) ==>
      var id := Swept(db, targets, seen, n).next;
      var now := Swept(db, targets, seen, n + 1);
      id in now.rows && now.rows[id].contractId == Some(targets[n].c) && now.next == id + 1
  {
  }

  /** A backfilled row keeps its place and its link for the rest of the sweep. */
  lemma {:induction false} BackfillStaysAt(db: Db, all: seq<Escrow>, extras: seq<ContractId>, seen: seq<Read>, i: nat, n: nat)
    requires WellFormed(db) && Lists(all, db.rows) && i < n <= |Targets(all, extras)| == |seen|
    requires WillBackfill(Targets(all, extras), seen, i)
    ensures var id := Swept(db, Targets(all, extras), seen, i).next;
      var now := Swept(db, Targets(all, extras), seen, n);
      && id in now.rows && now.rows[id].contractId == Some(Targets(all, extras)[i].c)
      && (i + 1 < n ==> id < Swept(db, Targets(all, extras), seen, n - 1).next) && id < now.next
  {
    hide Targets;
    hide Swept;
    hide SweepOne;
    var targets := Targets(all, extras);
    SweptIsWellFormed(db, all, extras, seen, n - 1);
    SweptOn(db, targets, seen, n - 1);
    if i + 1 < n {
      BackfillStaysAt(db, all, extras, seen, i, n - 1);
      LinksStay(Swept(db, targets, seen, n - 1), targets[n - 1], seen[n - 1]);
    }
  }

  lemma FoundTwiceIsBackfilledTwice(db: Db, all: seq<Escrow>, extras: seq<ContractId>, seen: seq<Read>, i: nat, j: nat)
    requires WellFormed(db) && Lists(all, db.rows) && i < j && |Targets(all, extras)| == |seen|
    requires WillBackfill(Targets(all, extras), seen, i) && WillBackfill(Targets(all, extras), seen, j)
    requires Targets(all, extras)[i].c == Targets(all, extras)[j].c
    ensures !OneRowEach(RunOf(db, all, extras, seen).rows)
  {
    hide Targets;
    hide Swept;
    var targets, now := Targets(all, extras), RunOf(db, all, extras, seen);
    BackfillStaysAt(db, all, extras, seen, i, |seen|);
    BackfillStaysAt(db, all, extras, seen, j, |seen|);
    BackfillStaysAt(db, all, extras, seen, i, j + 1);
    var x, y := Swept(db, targets, seen, i).next, Swept(db, targets, seen, j).next;
    assert x < y;
    assert now.rows[x].contractId == now.rows[y].contractId == Some(targets[i].c);
  }

  /**
   * A run leaves at most one row per contract id exactly if no two of its targets that have no row name the
   * same id and both find its record; every target is planned before the first repair.
   */
  lemma OneRowEachIffNoneFoundTwice(db: Db, all: seq<Escrow>, extras: seq<ContractId>, seen: seq<Read>)
    requires WellFormed(db) && Lists(all, db.rows) && OneRowEach(db.rows) && |Targets(all, extras)| == |seen|
    ensures OneRowEach(RunOf(db, all, extras, seen).rows) <==> NoneFoundTwice(Targets(all, extras), seen)
  {
    hide Targets;
    if NoneFoundTwice(Targets(all, extras), seen) {
      SweepKeepsOneRowEach(db, all, extras, seen, |seen|);
    } else {
      hide Swept;
      hide WillBackfill;
      var i: nat, j: nat :| i < j && WillBackfill(Targets(all, extras), seen, i) && WillBackfill(Targets(all, extras), seen, j)
        && Targets(all, extras)[i].c == Targets(all, extras)[j].c;
      FoundTwiceIsBackfilledTwice(db, all, extras, seen, i, j);
    }
  }

  /** In particular, with distinct extra ids a run never links a second row to a contract id. */
  lemma RunKeepsOneRowEach(db: Db, all: seq<Escrow>, extras: seq<ContractId>, seen: seq<Read>)
    requires WellFormed(db) && Lists(all, db.rows) && OneRowEach(db.rows) && Distinct(extras)
    requires |Targets(all, extras)| == |seen|
    ensures OneRowEach(RunOf(db, all, extras, seen).rows)
  {
    DistinctIsFoundOnce(all, extras, seen);
    OneRowEachIffNoneFoundTwice(db, all, extras, seen);
  }

  /** An extra id named twice is backfilled twice: every target is planned before the first repair. */
  lemma RepeatedExtraIsBackfilledTwice(c: ContractId, r: ChainRecord)
    ensures Targets([], [c, c]) == [Target(c, None), Target(c, None)]
    ensures !OneRowEach(RunOf(Db(map[], 0), [], [c, c], [Found(r), Found(r)]).rows)
  {
    assert [c, c][..1] == [c] && [c][..0] == [];
    assert Unknown([c], []) == [Target(c, None)];
    assert Targets([], [c, c]) == [Target(c, None), Target(c, None)];
    var targets, seen := [Target(c, None), Target(c, None)], [Found(r), Found(r)];
    var one := Swept(Db(map[], 0), targets, seen, 1);
    assert Swept(Db(map[], 0), targets, seen, 0) == Db(map[], 0);
    assert one.rows[0] == Backfilled(0, c, r) && one.next == 1;
    var two := Swept(Db(map[], 0), targets, seen, 2);
    assert two == SweepOne(one, targets[1], seen[1]);
    assert two.rows[0].contractId == two.rows[1].contractId == Some(c);
  }

  // ── Writes made while a sweep is under way ────────────────────────────────────

  lemma {:induction false} VersionsCountWrites(e: Escrow, ops: seq<Op>)
    ensures VersionOf(e) <= VersionOf(Run(e, ops))
    ensures Run(e, ops) == e || (Run(e, ops).version.Some? && VersionOf(e) < VersionOf(Run(e, ops)))
    ensures Run(e, ops).id == e.id
  {
    if ops != [] { VersionsCountWrites(e, ops[..|ops| - 1]); }
  }

  /**
   * Guarded transitions may run between a sweep's listing and its repair of a row. The repair is
   * then refused, unless they left the row as it was or the listed row had no version yet.
   */
  lemma StaleRepairIsRefused(rows: Rows, e: Escrow, ops: seq<Op>, r: ChainRecord)
    requires e.id in rows && rows[e.id] == Run(e, ops)
    ensures Repaired(rows, e, r).Success? <==> Run(e, ops) == e || e.version.None?
  {
    VersionsCountWrites(e, ops);
  }
}
