// The escrow store: guarded status transitions, the guard-bypassing corrections, and the
// version every write increments.
module Escrow {
  import opened Common

  type EscrowId = nat
  type ContractId = nat
  type Address = nat

  datatype Status = Pending | Active | Released | Disputed | Cancelled

  /** Amounts are counted in stroops; `version` is absent until the first rewrite. */
  datatype Escrow = Escrow(
    id: EscrowId,
    depositor: Address,
    beneficiary: Address,
    amount: int,
    status: Status,
    contractId: Option<ContractId>,
    disputedAt: Option<int>,
    splitPercentage: Option<int>,
    review: bool,
    version: Option<nat>)

  predicate IsTerminal(s: Status) { s == Released || s == Cancelled }

  /** The transitions open to ordinary callers. */
  datatype Op = Fund | Release | Cancel | Split(percentage: int) | RaiseDispute(at: int)

  /** The row with its version counted up: the first rewrite is version one. */
  function Bumped(e: Escrow): (written: Escrow)
    ensures written == e.(version := written.version)
    ensures e.version.None? ==> written.version == Some(1)
    ensures e.version.Some? ==> written.version == Some(e.version.value + 1)
  {
    e.(version := Some((if e.version.None? then 0 else e.version.value) + 1))
  }

  /** A transition on one record: the record to write, or why it is refused. */
  function Apply(op: Op, e: Escrow): Result<Escrow>
  {
    match op
    case Fund =>
      if e.status != Pending then Failure(BadRequest) else Success(Bumped(e.(status := Active)))
    case Release =>
      if IsTerminal(e.status) then Failure(Conflict) else Success(Bumped(e.(status := Released)))
    case Cancel =>
      if IsTerminal(e.status) then Failure(Conflict) else Success(Bumped(e.(status := Cancelled)))
    case Split(p) =>
      if IsTerminal(e.status) then Failure(Conflict)
      else Success(Bumped(e.(status := Released, splitPercentage := Some(p))))
    case RaiseDispute(at) =>
      if e.status == Disputed then Failure(Conflict)
      else if e.status != Active then Failure(BadRequest)
      else Success(Bumped(e.(status := Disputed, disputedAt := Some(at))))
  }

  type Rows = map<EscrowId, Escrow>

  function TryAt(rows: Rows, id: EscrowId, op: Op): Result<Escrow>
  {
    if id in rows then Apply(op, rows[id]) else Failure(NotFound)
  }

  /** The store after a transition: a refused one leaves it as it is. */
  function ApplyAt(rows: Rows, id: EscrowId, op: Op): Rows
  {
    var r := TryAt(rows, id, op);
    if r.Success? then rows[id := r.value] else rows
  }

  /** The row a saga's compensating action writes, past the guards. */
  function CorrectedRow(e: Escrow, status: Status, review: bool, clearDispute: bool): Escrow
  {
    Bumped(e.(status := status, review := e.review || review,
              disputedAt := if clearDispute then None else e.disputedAt))
  }

  function Corrected(rows: Rows, id: EscrowId, status: Status, review: bool, clearDispute: bool): Rows
  {
    if id !in rows then rows else rows[id := CorrectedRow(rows[id], status, review, clearDispute)]
  }

  datatype Patch = Patch(status: Option<Status>, amount: Option<int>)

  function Patched(e: Escrow, patch: Patch): Escrow
  {
    Bumped(e.(status := if patch.status.Some? then patch.status.value else e.status,
              amount := if patch.amount.Some? then patch.amount.value else e.amount))
  }

  /** A chain write is refused when the caller names a version and it is not the stored one. */
  function TryPatch(rows: Rows, id: EscrowId, patch: Patch, expected: Option<nat>): Result<Escrow>
  {
    if id !in rows then Failure(NotFound)
    else if expected.Some? && rows[id].version != expected then Failure(Conflict)
    else Success(Patched(rows[id], patch))
  }

  // ── Properties of the guarded transitions ─────────────────────────────────────

  ghost function Run(e: Escrow, ops: seq<Op>): Escrow
  {
    if ops == [] then e
    else
      var before := Run(e, ops[..|ops| - 1]);
      var r := Apply(ops[|ops| - 1], before);
      if r.Success? then r.value else before
  }

  /** How many of `ops` paid the escrow out or back when run from `e`. */
  ghost function Payouts(e: Escrow, ops: seq<Op>): nat
  {
    if ops == [] then 0
    else
      var before := Run(e, ops[..|ops| - 1]);
      var op := ops[|ops| - 1];
      Payouts(e, ops[..|ops| - 1]) + (if !op.Fund? && !op.RaiseDispute? && Apply(op, before).Success? then 1 else 0)
  }

  ghost function VersionOf(e: Escrow): nat { if e.version.None? then 0 else e.version.value }

  /** However the guarded transitions are ordered, funds leave an escrow at most once, it is
      settled exactly when they have, and each applied transition counts one version. */
  lemma {:induction false} FundsMoveAtMostOnce(e: Escrow, ops: seq<Op>)
    requires !IsTerminal(e.status)
    ensures Payouts(e, ops) == if IsTerminal(Run(e, ops).status) then 1 else 0
    ensures VersionOf(e) + Payouts(e, ops) <= VersionOf(Run(e, ops)) <= VersionOf(e) + |ops|
    ensures var now := Run(e, ops);
            now.depositor == e.depositor && now.beneficiary == e.beneficiary && now.amount == e.amount
  {
    if ops != [] {
      FundsMoveAtMostOnce(e, ops[..|ops| - 1]);
    }
  }

  /** A dispute opens exactly on an active escrow, so only a funded one can be frozen. */
  lemma {:induction false} DisputedWasFunded(e: Escrow, ops: seq<Op>)
    requires e.status == Pending
    ensures Run(e, ops).status in {Active, Disputed} ==> Fund in ops
    ensures Run(e, ops).status == Disputed ==> exists at :: RaiseDispute(at) in ops
  {
    if ops != [] {
      var rest, last := ops[..|ops| - 1], ops[|ops| - 1];
      DisputedWasFunded(e, rest);
      assert last in ops && forall op :: op in rest ==> op in ops;
    }
  }

  /**
   * When two writers read the same row, the second one's chain patch is refused if it can name
   * the version it read. A row that was never rewritten has no version to name, and exactly then
   * the patch overwrites what the first writer did.
   */
  lemma ConcurrentPatchIsRefusedIffVersioned(rows: Rows, id: EscrowId, op: Op, patch: Patch)
    requires id in rows && TryAt(rows, id, op).Success?
    ensures TryPatch(ApplyAt(rows, id, op), id, patch, rows[id].version).Success? <==> rows[id].version.None?
  {}

  // ── The service ───────────────────────────────────────────────────────────────

  class EscrowService {
    var escrows: Rows
    var byContract: map<ContractId, EscrowId>
    var nextId: EscrowId

    ghost predicate Valid()
      reads this
    {
      && (forall id :: id in escrows ==> escrows[id].id == id < nextId)
      && (forall c :: c in byContract ==> byContract[c] in escrows && escrows[byContract[c]].contractId == Some(c))
    }

    constructor ()
      ensures Valid() && escrows == map[] && byContract == map[]
    {
      escrows, byContract, nextId := map[], map[], 0;
    }

    method FindById(id: EscrowId) returns (r: Option<Escrow>)
      ensures r == if id in escrows then Some(escrows[id]) else None
    {
      r := if id in escrows then Some(escrows[id]) else None;
    }

    method FindByContractId(c: ContractId) returns (r: Option<Escrow>)
      requires Valid()
      ensures r == if c in byContract then Some(escrows[byContract[c]]) else None
      ensures r.Some? ==> r.value.contractId == Some(c)
    {
      r := if c in byContract then Some(escrows[byContract[c]]) else None;
    }

    method CreateFromChainState(c: ContractId, depositor: Address, beneficiary: Address, amount: int, status: Status)
      returns (e: Escrow)
      requires Valid()
      modifies this
      ensures Valid() && nextId == old(nextId) + 1
      ensures e == Escrow(old(nextId), depositor, beneficiary, amount, status, Some(c), None, None, false, None)
      ensures e.id !in old(escrows) && escrows == old(escrows)[e.id := e] && byContract == old(byContract)[c := e.id]
    {
      e := Escrow(nextId, depositor, beneficiary, amount, status, Some(c), None, None, false, None);
      escrows, byContract, nextId := escrows[e.id := e], byContract[c := e.id], nextId + 1;
    }

    method Fund(id: EscrowId) returns (r: Result<Escrow>)
      requires Valid()
      modifies this`escrows
      ensures Valid() && r == TryAt(old(escrows), id, Op.Fund) && escrows == ApplyAt(old(escrows), id, Op.Fund)
      ensures r.Success? <==> id in old(escrows) && old(escrows)[id].status == Pending
      ensures r.Success? ==> r.value == Bumped(old(escrows)[id].(status := Active)) && escrows == old(escrows)[id := r.value]
      ensures r.Failure? ==> escrows == old(escrows)
      ensures id !in old(escrows) ==> r == Failure(NotFound)
      ensures id in old(escrows) && old(escrows)[id].status != Pending ==> r == Failure(BadRequest)
    {
      var found := FindById(id);
      if found.None? { return Failure(NotFound); }
      var escrow := found.value;
      if escrow.status != Pending { return Failure(BadRequest); }
      escrow := Persist(escrow.(status := Active));
      r := Success(escrow);
    }

    method Release(id: EscrowId) returns (r: Result<Escrow>)
      requires Valid()
      modifies this`escrows
      ensures Valid() && r == TryAt(old(escrows), id, Op.Release) && escrows == ApplyAt(old(escrows), id, Op.Release)
      ensures r.Success? <==> id in old(escrows) && old(escrows)[id].status !in {Released, Cancelled}
      ensures r.Success? ==> r.value == Bumped(old(escrows)[id].(status := Released)) && escrows == old(escrows)[id := r.value]
      ensures r.Failure? ==> escrows == old(escrows)
      ensures id !in old(escrows) ==> r == Failure(NotFound)
      ensures id in old(escrows) && old(escrows)[id].status in {Released, Cancelled} ==> r == Failure(Conflict)
    {
      var found := FindById(id);
      if found.None? { return Failure(NotFound); }
      var escrow := found.value;
      if escrow.status == Released { return Failure(Conflict); }
      if escrow.status == Cancelled { return Failure(Conflict); }
      escrow := Persist(escrow.(status := Released));
      r := Success(escrow);
    }

    method Cancel(id: EscrowId) returns (r: Result<Escrow>)
      requires Valid()
      modifies this`escrows
      ensures Valid() && r == TryAt(old(escrows), id, Op.Cancel) && escrows == ApplyAt(old(escrows), id, Op.Cancel)
      ensures r.Success? <==> id in old(escrows) && old(escrows)[id].status !in {Released, Cancelled}
      ensures r.Success? ==> r.value == Bumped(old(escrows)[id].(status := Cancelled)) && escrows == old(escrows)[id := r.value]
      ensures r.Failure? ==> escrows == old(escrows)
      ensures id !in old(escrows) ==> r == Failure(NotFound)
      ensures id in old(escrows) && old(escrows)[id].status in {Released, Cancelled} ==> r == Failure(Conflict)
    {
      var found := FindById(id);
      if found.None? { return Failure(NotFound); }
      var escrow := found.value;
      if escrow.status == Cancelled { return Failure(Conflict); }
      if escrow.status == Released { return Failure(Conflict); }
      escrow := Persist(escrow.(status := Cancelled));
      r := Success(escrow);
    }

    method Split(id: EscrowId, percentage: int) returns (r: Result<Escrow>)
      requires Valid()
      modifies this`escrows
      ensures Valid() && r == TryAt(old(escrows), id, Op.Split(percentage))
      ensures escrows == ApplyAt(old(escrows), id, Op.Split(percentage))
      ensures r.Success? <==> id in old(escrows) && old(escrows)[id].status !in {Released, Cancelled}
      ensures r.Success? ==> r.value == Bumped(old(escrows)[id].(status := Released, splitPercentage := Some(percentage))) && escrows == old(escrows)[id := r.value]
      ensures r.Failure? ==> escrows == old(escrows)
      ensures id !in old(escrows) ==> r == Failure(NotFound)
      ensures id in old(escrows) && old(escrows)[id].status in {Released, Cancelled} ==> r == Failure(Conflict)
    {
      var found := FindById(id);
      if found.None? { return Failure(NotFound); }
      var escrow := found.value;
      if escrow.status == Released { return Failure(Conflict); }
      if escrow.status == Cancelled { return Failure(Conflict); }
      escrow := escrow.(status := Released);
      escrow := Persist(escrow.(splitPercentage := Some(percentage)));
      r := Success(escrow);
    }

    method RaiseDispute(id: EscrowId, at: int) returns (r: Result<Escrow>)
      requires Valid()
      modifies this`escrows
      ensures Valid() && r == TryAt(old(escrows), id, Op.RaiseDispute(at))
      ensures escrows == ApplyAt(old(escrows), id, Op.RaiseDispute(at))
      ensures r.Success? <==> id in old(escrows) && old(escrows)[id].status == Active
      ensures r.Success? ==> r.value == Bumped(old(escrows)[id].(status := Disputed, disputedAt := Some(at))) && escrows == old(escrows)[id := r.value]
      ensures r.Failure? ==> escrows == old(escrows)
      ensures id !in old(escrows) ==> r == Failure(NotFound)
      ensures id in old(escrows) && old(escrows)[id].status == Disputed ==> r == Failure(Conflict)
      ensures id in old(escrows) && old(escrows)[id].status in {Pending, Released, Cancelled} ==> r == Failure(BadRequest)
    {
      var found := FindById(id);
      if found.None? { return Failure(NotFound); }
      var escrow := found.value;
      if escrow.status == Released { return Failure(BadRequest); }
      if escrow.status == Disputed { return Failure(Conflict); }
      if escrow.status != Active { return Failure(BadRequest); }
      escrow := escrow.(status := Disputed);
      escrow := Persist(escrow.(disputedAt := Some(at)));
      r := Success(escrow);
    }

    /** Overwrites the status, past the guards. */
    method CorrectStatus(id: EscrowId, status: Status, review: bool, clearDispute: bool) returns (r: Result<Escrow>)
      requires Valid()
      modifies this`escrows
      ensures Valid() && escrows == Corrected(old(escrows), id, status, review, clearDispute)
      ensures r == if id in escrows then Success(escrows[id]) else Failure(NotFound)
      ensures id in old(escrows) ==>
        && escrows.Keys == old(escrows).Keys && (forall other :: other in escrows && other != id ==> escrows[other] == old(escrows)[other])
        && escrows[id] == Bumped(old(escrows)[id].(status := status, review := old(escrows)[id].review || review,
                                                   disputedAt := if clearDispute then None else old(escrows)[id].disputedAt))
      ensures id !in old(escrows) ==> escrows == old(escrows)
    {
      var found := FindById(id);
      if found.None? { return Failure(NotFound); }
      var escrow := found.value;
      escrow := escrow.(status := status);
      if review { escrow := escrow.(review := true); }
      if clearDispute { escrow := escrow.(disputedAt := None); }
      escrow := Persist(escrow);
      r := Success(escrow);
    }

    method ApplyChainState(id: EscrowId, patch: Patch, expectedVersion: Option<nat>) returns (r: Result<Escrow>)
      requires Valid()
      modifies this`escrows
      ensures Valid() && r == TryPatch(old(escrows), id, patch, expectedVersion)
      ensures escrows == if r.Success? then old(escrows)[id := r.value] else old(escrows)
      ensures id !in old(escrows) ==> r == Failure(NotFound)
      ensures id in old(escrows) && expectedVersion.Some? && old(escrows)[id].version != expectedVersion ==> r == Failure(Conflict)
      ensures id in old(escrows) && (expectedVersion.None? || old(escrows)[id].version == expectedVersion) ==>
        && r.Success? && r.value == Bumped(old(escrows)[id].(status := r.value.status, amount := r.value.amount))
        && r.value.status == (if patch.status.Some? then patch.status.value else old(escrows)[id].status)
        && r.value.amount == (if patch.amount.Some? then patch.amount.value else old(escrows)[id].amount)
    {
      var found := FindById(id);
      if found.None? { return Failure(NotFound); }
      var escrow := found.value;
      if expectedVersion.Some? && escrow.version != expectedVersion { return Failure(Conflict); }
      if patch.status.Some? { escrow := escrow.(status := patch.status.value); }
      if patch.amount.Some? { escrow := escrow.(amount := patch.amount.value); }
      escrow := Persist(escrow);
      r := Success(escrow);
    }

    /** Writes a row with its version incremented. */
    method Persist(e: Escrow) returns (written: Escrow)
      requires Valid() && e.id in escrows && e.contractId == escrows[e.id].contractId
      modifies this`escrows
      ensures Valid() && written == Bumped(e) && escrows == old(escrows)[e.id := written]
    {
      written := e.(version := Some((if e.version.None? then 0 else e.version.value) + 1));
      escrows := escrows[e.id := written];
    }
  }
}
