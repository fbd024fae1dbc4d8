// Optimistic concurrency over the gig store: callers WATCH a gig's key, read it, and EXEC a write
// computed from what they read, any number of them interleaved over any assignment of callers to
// Redis connections.
module GigStore {
  type GigId = nat
  type Caller = nat
  type Conn = nat

  datatype GigStatus = Open | Accepted | Expired | Cancelled

  datatype Gig = Gig(
    id: GigId,
    creator: nat,
    budget: int,
    status: GigStatus,
    createdAt: int,
    respondBy: int,
    version: nat)

  datatype Change<+T> = Keep | To(value: T)

  datatype Op = Accept | Cancel | Expire | Update(budget: Change<int>, respondBy: Change<int>) | Remove

  /** The gigs and the index of open ones by deadline, as every MULTI/EXEC batch writes them. */
  datatype Db = Db(gigs: map<GigId, Gig>, openBy: map<GigId, int>)

  /** Whether an operation goes on to write the gig it read. */
  predicate Writes(op: Op, g: Gig)
  {
    if op.Remove? then g.status != Accepted else g.status == Open
  }

  /** The gig a writing operation computes from the one it read. */
  function Rewritten(op: Op, g: Gig): Gig
  {
    var next := g.(version := g.version + 1);
    match op
    case Accept => next.(status := Accepted)
    case Cancel => next.(status := Cancelled)
    case Expire => next.(status := Expired)
    case Update(budget, respondBy) =>
      next.(budget := if budget.To? then budget.value else g.budget,
            respondBy := if respondBy.To? then respondBy.value else g.respondBy)
    case Remove => g
  }

  predicate Resolves(op: Op) { op.Accept? || op.Cancel? || op.Expire? }

  /** The atomic batch an operation executes. */
  function Written(db: Db, op: Op, seen: Gig): Db
  {
    var g := Rewritten(op, seen);
    if op.Remove? then Db(db.gigs - {seen.id}, db.openBy - {seen.id})
    else Db(db.gigs[g.id := g], if Resolves(op) then db.openBy - {g.id} else db.openBy[g.id := g.respondBy])
  }

  function Added(db: Db, g: Gig): Db
  {
    Db(db.gigs[g.id := g], db.openBy[g.id := g.respondBy])
  }

  /**
   * What a batch leaves: a gig accepted is Accepted, one cancelled Cancelled, one expired Expired, and it leaves
   * the index; an updated gig is Open, with the named fields replaced. A removed one is gone. A rewritten gig
   * keeps its id, its creator and its creation time, and its version is one more.
   */
  ghost predicate IsWritten(db: Db, db': Db, op: Op, g: Gig)
  {
    && (forall id :: id != g.id ==>
          && (id in db'.gigs <==> id in db.gigs) && (id in db.gigs ==> db'.gigs[id] == db.gigs[id])
          && (id in db'.openBy <==> id in db.openBy) && (id in db.openBy ==> db'.openBy[id] == db.openBy[id]))
    && (op.Remove? ==> g.id !in db'.gigs && g.id !in db'.openBy)
    && (!op.Remove? ==>
          && g.id in db'.gigs
          && var g' := db'.gigs[g.id];
          && g'.id == g.id && g'.creator == g.creator && g'.createdAt == g.createdAt && g'.version == g.version + 1
          && (op.Accept? ==> g'.status == Accepted)
          && (op.Cancel? ==> g'.status == Cancelled)
          && (op.Expire? ==> g'.status == Expired)
          && (op.Update? ==>
                && g'.status == Open && g.id in db'.openBy && db'.openBy[g.id] == g'.respondBy
                && g'.budget == (match op.budget case To(b) => b case Keep => g.budget)
                && g'.respondBy == (match op.respondBy case To(t) => t case Keep => g.respondBy))
          && (!op.Update? ==> g'.budget == g.budget && g'.respondBy == g.respondBy && g.id !in db'.openBy))
  }

  lemma WrittenInWords(db: Db, op: Op, seen: Gig)
    requires Writes(op, seen)
    ensures IsWritten(db, Written(db, op, seen), op, seen)
  {
  }

  // ── Callers and connections ───────────────────────────────────────────────────

  /** A caller's progress through one attempt. `kept` records whether its watch has survived:
      nobody else has run EXEC or UNWATCH on its connection since. */
  datatype Progress =
    | Watching(id: GigId, op: Op, kept: bool)
    | Computed(seen: Gig, op: Op, kept: bool)

  /** One committed write: what it was computed from, and what it replaced. */
  datatype Commit = Commit(op: Op, seen: Gig, replaced: Change<Gig>)

  datatype System = System(
    db: Db,
    busy: map<Caller, Progress>,
    watched: map<Conn, set<GigId>>,
    dirty: set<Conn>,
    used: set<GigId>,
    log: seq<Commit>)

  datatype Step =
    | Create(gig: Gig)
    | Watch(caller: Caller, id: GigId, op: Op)
    | Read(caller: Caller)
    | Exec(caller: Caller)

  function WatchedBy(sys: System, k: Conn): set<GigId>
  {
    if k in sys.watched then sys.watched[k] else {}
  }

  /** Writing a key dirties every connection watching it. */
  ghost function Touched(sys: System, id: GigId): set<Conn>
  {
    sys.dirty + set k | k in sys.watched && id in sys.watched[k]
  }

  /** EXEC and UNWATCH end all of a connection's watches, whoever asked for them. */
  ghost function Cleared(sys: System, conn: map<Caller, Conn>, caller: Caller): System
    requires caller in conn
  {
    var k := conn[caller];
    sys.(watched := sys.watched - {k}, dirty := sys.dirty - {k},
         busy := map c | c in sys.busy && c != caller ::
           if c in conn && conn[c] == k then sys.busy[c].(kept := false) else sys.busy[c])
  }

  ghost predicate Enabled(sys: System, conn: map<Caller, Conn>, step: Step)
  {
    match step
    case Create(g) => g.id !in sys.used && g.status == Open && g.version == 1
    case Watch(c, _, _) => c in conn && c !in sys.busy
    case Read(c) => c in conn && c in sys.busy && sys.busy[c].Watching?
    case Exec(c) => c in conn && c in sys.busy && sys.busy[c].Computed?
  }

  ghost function AfterRead(sys: System, conn: map<Caller, Conn>, c: Caller, id: GigId, op: Op, kept: bool): System
    requires c in conn
  {
    if id !in sys.db.gigs then Cleared(sys, conn, c)
    else if Writes(op, sys.db.gigs[id]) then sys.(busy := sys.busy[c := Computed(sys.db.gigs[id], op, kept)])
    // A sweep that finds the gig resolved returns without releasing its watch.
    else if op.Expire? then sys.(busy := sys.busy - {c})
    else Cleared(sys, conn, c)
  }

  ghost function AfterExec(sys: System, conn: map<Caller, Conn>, c: Caller, seen: Gig, op: Op): System
    requires c in conn
  {
    if conn[c] in sys.dirty then Cleared(sys, conn, c)
    else
      var replaced := if seen.id in sys.db.gigs then To(sys.db.gigs[seen.id]) else Keep;
      Cleared(sys.(db := Written(sys.db, op, seen), dirty := Touched(sys, seen.id),
                   log := sys.log + [Commit(op, seen, replaced)]), conn, c)
  }

  ghost function After(sys: System, conn: map<Caller, Conn>, step: Step): System
    requires Enabled(sys, conn, step)
  {
    match step
    case Create(g) => sys.(db := Added(sys.db, g), dirty := Touched(sys, g.id), used := sys.used + {g.id})
    case Watch(c, id, op) =>
      sys.(busy := sys.busy[c := Watching(id, op, true)],
           watched := sys.watched[conn[c] := WatchedBy(sys, conn[c]) + {id}])
    case Read(c) => AfterRead(sys, conn, c, sys.busy[c].id, sys.busy[c].op, sys.busy[c].kept)
    case Exec(c) => AfterExec(sys, conn, c, sys.busy[c].seen, sys.busy[c].op)
  }

  const START := System(Db(map[], map[]), map[], map[], {}, {}, [])

  ghost predicate Reaches(conn: map<Caller, Conn>, steps: seq<Step>, sys: System)
    decreases |steps|
  {
    if steps == [] then sys == START
    else
      var n := |steps| - 1;
      exists prev :: Reaches(conn, steps[..n], prev) && Enabled(prev, conn, steps[n]) && sys == After(prev, conn, steps[n])
  }

  // ── Invariant ─────────────────────────────────────────────────────────────────

  /** A watch that survived protects what was read under it. */
  ghost predicate Guarded(sys: System, conn: map<Caller, Conn>, c: Caller)
    requires c in sys.busy && c in conn
  {
    sys.busy[c].kept && conn[c] !in sys.dirty ==>
      match sys.busy[c]
      case Watching(id, _, _) => id in WatchedBy(sys, conn[c])
      case Computed(seen, op, _) =>
        seen.id in WatchedBy(sys, conn[c]) && seen.id in sys.db.gigs && sys.db.gigs[seen.id] == seen && Writes(op, seen)
  }

  ghost predicate AllGuarded(sys: System, conn: map<Caller, Conn>)
  {
    forall c :: c in sys.busy ==> c in conn && Guarded(sys, conn, c)
  }

  ghost predicate Filed(sys: System)
  {
    && (forall id :: id in sys.db.gigs ==> sys.db.gigs[id].id == id && id in sys.used)
    && (forall c :: c in sys.busy && sys.busy[c].Computed? ==> sys.busy[c].seen.id in sys.used)
  }

  lemma ClearKeepsGuarded(sys: System, conn: map<Caller, Conn>, c: Caller)
    requires AllGuarded(sys, conn) && c in conn
    ensures AllGuarded(Cleared(sys, conn, c), conn)
  {}

  lemma TouchKeepsGuarded(sys: System, conn: map<Caller, Conn>, db: Db, id: GigId)
    requires AllGuarded(sys, conn)
    requires forall x :: x != id && x in sys.db.gigs ==> x in db.gigs && db.gigs[x] == sys.db.gigs[x]
    ensures AllGuarded(sys.(db := db, dirty := Touched(sys, id)), conn)
  {}

  lemma StepKeepsGuarded(sys: System, conn: map<Caller, Conn>, step: Step)
    requires Filed(sys) && AllGuarded(sys, conn) && Enabled(sys, conn, step)
    ensures AllGuarded(After(sys, conn, step), conn)
  {
    match step
    case Create(g) => TouchKeepsGuarded(sys, conn, Added(sys.db, g), g.id);
    case Watch(c, id, op) =>
    case Read(c) => ClearKeepsGuarded(sys, conn, c);
    case Exec(c) =>
      var seen, op := sys.busy[c].seen, sys.busy[c].op;
      TouchKeepsGuarded(sys, conn, Written(sys.db, op, seen), seen.id);
      ClearKeepsGuarded(sys, conn, c);
      var written := sys.(db := Written(sys.db, op, seen), dirty := Touched(sys, seen.id));
      ClearKeepsGuarded(written, conn, c);
      hide AllGuarded;
      LogIsNotGuarded(Cleared(written, conn, c), conn, After(sys, conn, step).log);
  }

  lemma LogIsNotGuarded(sys: System, conn: map<Caller, Conn>, log: seq<Commit>)
    requires AllGuarded(sys, conn)
    ensures AllGuarded(sys.(log := log), conn)
  {}

  lemma StepKeepsFiled(sys: System, conn: map<Caller, Conn>, step: Step)
    requires Filed(sys) && Enabled(sys, conn, step)
    ensures Filed(After(sys, conn, step))
  {}
}
