// The reconciler over the escrow service.
module ReconciliationService {
  import opened Common
  import E = Escrow
  import opened Reconciliation

  class EscrowReconciliationService {
    const escrows: E.EscrowService

    constructor (escrows: E.EscrowService)
      ensures this.escrows == escrows
    {
      this.escrows := escrows;
    }

    ghost function Now(): Db
      reads this, escrows
    {
      Db(escrows.escrows, escrows.nextId)
    }

    /** The row's status and amount in one write, refused if the row is not the listed one any more. */
    method Repair(e: E.Escrow, r: ChainRecord) returns (repaired: bool)
      requires escrows.Valid()
      modifies escrows
      ensures escrows.Valid() && escrows.nextId == old(escrows.nextId)
      ensures repaired == Repaired(old(escrows.escrows), e, r).Success?
      ensures escrows.escrows == if repaired then old(escrows.escrows)[e.id := Repaired(old(escrows.escrows), e, r).value] else old(escrows.escrows)
      ensures IsRepaired(old(escrows.escrows), escrows.escrows, e, r, repaired)
    {
      var result := escrows.ApplyChainState(e.id, E.Patch(Some(r.status), Some(r.amount)), e.version);
      repaired := result.Success?;
    }

    method RepairMissingInDb(c: E.ContractId, r: ChainRecord)
      requires escrows.Valid()
      modifies escrows
      ensures escrows.Valid()
      ensures Now() == Db(old(escrows.escrows)[old(escrows.nextId) := Backfilled(old(escrows.nextId), c, r)], old(escrows.nextId) + 1)
      ensures old(escrows.nextId) in escrows.escrows
      ensures IsBackfill(escrows.escrows[old(escrows.nextId)], old(escrows.nextId), c, r)
    {
      var created := escrows.CreateFromChainState(c, r.depositor, r.beneficiary, r.amount, r.status);
    }

    /** One target: its drifts, after whatever repair they call for. */
    method ReconcileOne(t: Target, read: Read) returns (drifts: seq<Drift>)
      requires escrows.Valid()
      modifies escrows
      ensures escrows.Valid() && Now() == SweepOne(old(Now()), t, read)
      ensures drifts == DriftsOf(t, read, RepairWorks(old(Now()), t, read))
      ensures IsReconciled(old(Now()), Now(), t, read, drifts)
    {
      TargetInWords(Now(), t, read);
      hide IsReconciled; hide IsRepaired; hide IsBackfill;
      drifts := [];
      match read {
        case Failed =>
        case Invalid =>
          drifts := [Drift(t.c, InvalidChainData, false)];
        case Absent =>
          if t.escrow.Some? { drifts := [Drift(t.c, MissingOnChain, false)]; }
        case Found(r) =>
          if t.escrow.None? {
            RepairMissingInDb(t.c, r);
            drifts := [Drift(t.c, MissingInDb, true)];
          } else {
            var e := t.escrow.value;
            if r.status != e.status || r.amount != e.amount {
              var repaired := Repair(e, r);
              if r.status != e.status { drifts := drifts + [Drift(t.c, StatusMismatch, repaired)]; }
              if r.amount != e.amount { drifts := drifts + [Drift(t.c, AmountMismatch, repaired)]; }
            }
          }
      }
    }

    /** One run over the listing `all` of the rows; `seen` is what each target's read returned. */
    method Reconcile(all: seq<E.Escrow>, extras: seq<E.ContractId>, seen: seq<Read>)
      returns (drifts: seq<Drift>, errors: seq<E.ContractId>)
      requires escrows.Valid() && Lists(all, escrows.escrows) && |seen| == |Targets(all, extras)|
      modifies escrows
      ensures escrows.Valid() && Now() == RunOf(old(Now()), all, extras, seen)
      ensures drifts == DriftsUpTo(old(Now()), Targets(all, extras), seen, |seen|)
      ensures forall c :: c in errors <==> exists i :: 0 <= i < |seen| && Targets(all, extras)[i].c == c && seen[i] == Failed
    {
      hide SweepOne;
      hide DriftsOf;
      hide RepairWorks;
      var targets := Targets(all, extras);
      ghost var before := Now();
      drifts, errors := [], [];
      var i := 0;
      while i < |targets|
        invariant i <= |targets| && escrows.Valid()
        invariant Now() == Swept(before, targets, seen, i) && drifts == DriftsUpTo(before, targets, seen, i)
        invariant forall c :: c in errors <==> exists j :: 0 <= j < i && targets[j].c == c && seen[j] == Failed
      {
        if seen[i] == Failed { errors := errors + [targets[i].c]; }
        var more := ReconcileOne(targets[i], seen[i]);
        drifts := drifts + more;
        i := i + 1;
      }
    }
  }
}
