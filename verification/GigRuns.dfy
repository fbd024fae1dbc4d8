// What holds over whole runs of the gig store.
module GigRuns {
  import opened GigStore

  // ── The index of open gigs ────────────────────────────────────────────────────

  /** The index holds exactly the open gigs, each scored by its current deadline. */
  ghost predicate IndexExact(db: Db)
  {
    forall id ::
      && (id in db.openBy <==> id in db.gigs && db.gigs[id].status == Open)
      && (id in db.openBy ==> db.openBy[id] == db.gigs[id].respondBy)
  }

  /** What the sweep finds through the index, and what a scan of every gig would find. */
  ghost function FindExpirable(db: Db, now: int): set<GigId>
  {
    set id | id in db.openBy && 0 <= db.openBy[id] <= now && id in db.gigs && db.gigs[id].status == Open
  }

  ghost function ScanExpirable(db: Db, now: int): set<GigId>
  {
    set id | id in db.gigs && db.gigs[id].status == Open && db.gigs[id].respondBy <= now
  }

  lemma WriteKeepsIndex(db: Db, op: Op, seen: Gig)
    requires IndexExact(db) && Writes(op, seen)
    ensures IndexExact(Written(db, op, seen))
  {}

  ghost predicate ComputedWrites(sys: System)
  {
    forall c :: c in sys.busy && sys.busy[c].Computed? ==> Writes(sys.busy[c].op, sys.busy[c].seen)
  }

  lemma StepKeepsIndex(sys: System, conn: map<Caller, Conn>, step: Step)
    requires IndexExact(sys.db) && ComputedWrites(sys) && Enabled(sys, conn, step)
    ensures IndexExact(After(sys, conn, step).db) && ComputedWrites(After(sys, conn, step))
  {
    if step.Exec? { WriteKeepsIndex(sys.db, sys.busy[step.caller].op, sys.busy[step.caller].seen); }
    hide IndexExact; hide Written;
    if step.Create? { assert IndexExact(Added(sys.db, step.gig)) by { AddKeepsIndex(sys.db, step.gig); } }
  }

  lemma AddKeepsIndex(db: Db, g: Gig)
    requires IndexExact(db) && g.status == Open
    ensures IndexExact(Added(db, g))
  {}

  /**
   * The index agrees with the store in every reachable state, whichever callers share a
   * connection, so the indexed sweep finds the very gigs a full scan would.
   */
  lemma {:induction false} SweepEqualsScan(conn: map<Caller, Conn>, steps: seq<Step>, sys: System, now: int)
    requires Reaches(conn, steps, sys)
    ensures IndexExact(sys.db) && ComputedWrites(sys)
    ensures FindExpirable(sys.db, now) == ScanExpirable(sys.db, now) <==>
      forall id :: id in ScanExpirable(sys.db, now) ==> sys.db.gigs[id].respondBy >= 0
    decreases |steps|
  {
    if steps != [] {
      var n := |steps| - 1;
      var prev :| Reaches(conn, steps[..n], prev) && Enabled(prev, conn, steps[n]) && sys == After(prev, conn, steps[n]);
      SweepEqualsScan(conn, steps[..n], prev, now);
      StepKeepsIndex(prev, conn, steps[n]);
    }
    SweepFindsNonNegative(sys.db, now);
  }

  /** The sweep asks Redis for scores from zero up; only a deadline before the epoch escapes it. */
  lemma SweepFindsNonNegative(db: Db, now: int)
    requires IndexExact(db)
    ensures forall id :: id in FindExpirable(db, now) <==> id in ScanExpirable(db, now) && db.gigs[id].respondBy >= 0
  {}

  // ── Serialisation ─────────────────────────────────────────────────────────────

  /** No two callers share a connection. */
  ghost predicate Exclusive(conn: map<Caller, Conn>)
  {
    forall a, b :: a in conn && b in conn && a != b ==> conn[a] != conn[b]
  }

  /** Every committed write was computed from the gig it replaced. */
  ghost predicate AllFresh(log: seq<Commit>)
  {
    forall i :: 0 <= i < |log| ==> log[i].replaced == To(log[i].seen)
  }

  ghost function Resolutions(log: seq<Commit>, id: GigId): nat
  {
    if log == [] then 0
    else
      var last := log[|log| - 1];
      Resolutions(log[..|log| - 1], id) + (if last.seen.id == id && Resolves(last.op) then 1 else 0)
  }

  ghost function Rewrites(log: seq<Commit>, id: GigId): nat
  {
    if log == [] then 0
    else
      var last := log[|log| - 1];
      Rewrites(log[..|log| - 1], id) + (if last.seen.id == id && !last.op.Remove? then 1 else 0)
  }

  /** The log tells each gig's version and whether it is still open. */
  ghost predicate Told(db: Db, used: set<GigId>, log: seq<Commit>)
  {
    && (forall id :: id !in used ==> Rewrites(log, id) == 0 && Resolutions(log, id) == 0)
    && (forall id :: Resolutions(log, id) <= 1)
    && (forall id :: id in db.gigs ==>
          && db.gigs[id].version == 1 + Rewrites(log, id)
          && (db.gigs[id].status == Open <==> Resolutions(log, id) == 0))
  }

  ghost predicate AllKept(sys: System)
  {
    forall c :: c in sys.busy ==> sys.busy[c].kept
  }

  ghost predicate Serial(sys: System, conn: map<Caller, Conn>)
  {
    Filed(sys) && AllGuarded(sys, conn) && AllKept(sys) && AllFresh(sys.log) && Told(sys.db, sys.used, sys.log)
  }

  lemma CommitIsTold(db: Db, used: set<GigId>, log: seq<Commit>, op: Op, seen: Gig, replaced: Change<Gig>)
    requires Told(db, used, log) && seen.id in db.gigs && db.gigs[seen.id] == seen && seen.id in used
    requires Writes(op, seen)
    ensures Told(Written(db, op, seen), used, log + [Commit(op, seen, replaced)])
  {
    var next := log + [Commit(op, seen, replaced)];
    assert next[..|next| - 1] == log;
    assert forall id :: Rewrites(next, id) == Rewrites(log, id) + (if seen.id == id && !op.Remove? then 1 else 0);
    assert forall id :: Resolutions(next, id) == Resolutions(log, id) + (if seen.id == id && Resolves(op) then 1 else 0);
  }

  lemma StepKeepsKept(sys: System, conn: map<Caller, Conn>, step: Step)
    requires Exclusive(conn) && AllKept(sys) && Enabled(sys, conn, step)
    requires forall c :: c in sys.busy ==> c in conn
    ensures AllKept(After(sys, conn, step))
  {}

  lemma StepKeepsTold(sys: System, conn: map<Caller, Conn>, step: Step)
    requires Serial(sys, conn) && Enabled(sys, conn, step)
    ensures AllFresh(After(sys, conn, step).log)
    ensures var s := After(sys, conn, step); Told(s.db, s.used, s.log)
  {
    match step
    case Create(g) =>
      hide AllGuarded; hide Rewrites; hide Resolutions;
    case Exec(c) =>
      assert Guarded(sys, conn, c);
      if conn[c] !in sys.dirty {
        CommitIsTold(sys.db, sys.used, sys.log, sys.busy[c].op, sys.busy[c].seen, To(sys.db.gigs[sys.busy[c].seen.id]));
      }
      hide AllGuarded; hide Told; hide Written; hide Filed; hide AllKept;
    case _ =>
      hide AllGuarded; hide Told;
  }

  lemma StepKeepsSerial(sys: System, conn: map<Caller, Conn>, step: Step)
    requires Exclusive(conn) && Serial(sys, conn) && Enabled(sys, conn, step)
    ensures Serial(After(sys, conn, step), conn)
  {
    StepKeepsGuarded(sys, conn, step);
    StepKeepsFiled(sys, conn, step);
    StepKeepsTold(sys, conn, step);
    assert forall c :: c in sys.busy ==> c in conn by { assert AllGuarded(sys, conn); }
    StepKeepsKept(sys, conn, step);
    hide After; hide AllGuarded; hide Told; hide AllFresh; hide AllKept; hide Filed;
  }

  /**
   * With a connection per caller, writes are serialised: each was computed from the version it
   * replaced, a gig's version counts its commits, and of all the accepts, cancels and expiries
   * ever attempted on a gig at most one commits.
   */
  lemma {:induction false} WritesAreSerialised(conn: map<Caller, Conn>, steps: seq<Step>, sys: System)
    requires Exclusive(conn) && Reaches(conn, steps, sys)
    ensures Serial(sys, conn)
    decreases |steps|
  {
    if steps != [] {
      var n := |steps| - 1;
      var prev :| Reaches(conn, steps[..n], prev) && Enabled(prev, conn, steps[n]) && sys == After(prev, conn, steps[n]);
      WritesAreSerialised(conn, steps[..n], prev);
      StepKeepsSerial(prev, conn, steps[n]);
    }
  }

  // ── What a status says of the log ─────────────────────────────────────────────

  ghost predicate Committed(log: seq<Commit>, id: GigId, op: Op)
  {
    exists i :: 0 <= i < |log| && log[i].seen.id == id && log[i].op == op
  }

  /** A stored gig is accepted, cancelled or expired exactly if that is what was committed. */
  ghost predicate StatusesTold(db: Db, log: seq<Commit>)
  {
    forall id :: id in db.gigs ==>
      && (db.gigs[id].status == Accepted <==> Committed(log, id, Accept))
      && (db.gigs[id].status == Cancelled <==> Committed(log, id, Cancel))
      && (db.gigs[id].status == Expired <==> Committed(log, id, Expire))
  }

  lemma {:induction false} CommittedResolves(log: seq<Commit>, id: GigId, op: Op)
    requires Committed(log, id, op) && op in {Accept, Cancel, Expire}
    ensures Resolutions(log, id) >= 1
  {
    var n := |log| - 1;
    if !(log[n].seen.id == id && log[n].op == op) {
      var i :| 0 <= i < |log| && log[i].seen.id == id && log[i].op == op;
      assert log[..n][i] == log[i];
      CommittedResolves(log[..n], id, op);
    }
  }

  lemma UnresolvedIsUncommitted(log: seq<Commit>, id: GigId)
    requires Resolutions(log, id) == 0
    ensures !Committed(log, id, Accept) && !Committed(log, id, Cancel) && !Committed(log, id, Expire)
  {
    if Committed(log, id, Accept) { CommittedResolves(log, id, Accept); }
    if Committed(log, id, Cancel) { CommittedResolves(log, id, Cancel); }
    if Committed(log, id, Expire) { CommittedResolves(log, id, Expire); }
  }

  lemma OneMoreCommitted(log: seq<Commit>, last: Commit, id: GigId, op: Op)
    ensures Committed(log + [last], id, op) <==> Committed(log, id, op) || (last.seen.id == id && last.op == op)
  {
    var next := log + [last];
    if Committed(log, id, op) {
      var i :| 0 <= i < |log| && log[i].seen.id == id && log[i].op == op;
      assert next[i] == log[i];
    }
    if last.seen.id == id && last.op == op { assert next[|log|] == last; }
  }

  lemma CommitTellsStatus(db: Db, log: seq<Commit>, op: Op, seen: Gig, replaced: Change<Gig>)
    requires StatusesTold(db, log) && seen.id in db.gigs && db.gigs[seen.id] == seen && Writes(op, seen)
    requires seen.status == Open ==> Resolutions(log, seen.id) == 0
    ensures StatusesTold(Written(db, op, seen), log + [Commit(op, seen, replaced)])
  {
    var last := Commit(op, seen, replaced);
    WrittenInWords(db, op, seen);
    if seen.status == Open { UnresolvedIsUncommitted(log, seen.id); }
    forall id | id in Written(db, op, seen).gigs
      ensures var g := Written(db, op, seen).gigs[id];
        && (g.status == Accepted <==> Committed(log + [last], id, Accept))
        && (g.status == Cancelled <==> Committed(log + [last], id, Cancel))
        && (g.status == Expired <==> Committed(log + [last], id, Expire))
    {
      OneMoreCommitted(log, last, id, Accept);
      OneMoreCommitted(log, last, id, Cancel);
      OneMoreCommitted(log, last, id, Expire);
      hide Committed;
      hide Written;
    }
  }

  lemma StepTellsStatus(sys: System, conn: map<Caller, Conn>, step: Step)
    requires Serial(sys, conn) && Enabled(sys, conn, step) && StatusesTold(sys.db, sys.log)
    ensures var s := After(sys, conn, step); StatusesTold(s.db, s.log)
  {
    match step
    case Create(g) =>
      UnresolvedIsUncommitted(sys.log, g.id);
    case Exec(c) =>
      assert Guarded(sys, conn, c);
      hide AllGuarded; hide AllKept; hide AllFresh;
      if conn[c] !in sys.dirty {
        var seen := sys.busy[c].seen;
        CommitTellsStatus(sys.db, sys.log, sys.busy[c].op, seen, To(sys.db.gigs[seen.id]));
        hide StatusesTold; hide Written; hide Told;
      }
    case _ =>
      hide Committed;
  }

  /**
   * With a connection per caller the log tells the status: a stored gig is Accepted exactly if an accept was
   * committed on it, Cancelled exactly if a cancel was, and Expired exactly if an expiry was.
   */
  lemma {:induction false} StatusIsTheResolution(conn: map<Caller, Conn>, steps: seq<Step>, sys: System)
    requires Exclusive(conn) && Reaches(conn, steps, sys)
    ensures StatusesTold(sys.db, sys.log)
    decreases |steps|
  {
    if steps != [] {
      var n := |steps| - 1;
      hide Enabled; hide After; hide Serial; hide StatusesTold; hide Exclusive;
      var prev :| Reaches(conn, steps[..n], prev) && Enabled(prev, conn, steps[n]) && sys == After(prev, conn, steps[n]);
      WritesAreSerialised(conn, steps[..n], prev);
      StatusIsTheResolution(conn, steps[..n], prev);
      StepTellsStatus(prev, conn, steps[n]);
    } else {
      assert sys == START;
    }
  }

  // ── Sharing a connection ──────────────────────────────────────────────────────

  ghost predicate AlwaysFresh(conn: map<Caller, Conn>)
  {
    forall steps, sys :: Reaches(conn, steps, sys) ==> AllFresh(sys.log)
  }

  lemma Extend(conn: map<Caller, Conn>, steps: seq<Step>, sys: System, step: Step)
    returns (steps': seq<Step>, sys': System)
    requires Reaches(conn, steps, sys) && Enabled(sys, conn, step)
    ensures sys' == After(sys, conn, step) && Reaches(conn, steps', sys')
  {
    steps', sys' := steps + [step], After(sys, conn, step);
    assert steps'[..|steps' | - 1] == steps;
  }

  /** One caller watches and reads the only gig there is. */
  lemma Reading(conn: map<Caller, Conn>, steps: seq<Step>, sys: System, c: Caller, g: Gig, op: Op)
    returns (steps': seq<Step>, sys': System)
    requires Reaches(conn, steps, sys) && c in conn && c !in sys.busy
    requires sys.db.gigs == map[g.id := g] && Writes(op, g)
    ensures Reaches(conn, steps', sys')
    ensures sys'.busy == sys.busy[c := Computed(g, op, true)]
    ensures sys'.db == sys.db && sys'.dirty == sys.dirty && sys'.log == sys.log
  {
    var watching, mid := Extend(conn, steps, sys, Watch(c, g.id, op));
    steps', sys' := Extend(conn, watching, mid, Read(c));
    assert sys.busy[c := Watching(g.id, op, true)][c := Computed(g, op, true)] == sys.busy[c := Computed(g, op, true)];
  }

  /**
   * Two callers on one connection lose the protection. The first EXEC ends the other's watch, so
   * the second EXEC is not aborted: a gig that was just accepted is overwritten as cancelled.
   */
  lemma SharedConnectionCommitsStale(conn: map<Caller, Conn>, a: Caller, b: Caller, g: Gig)
    returns (steps: seq<Step>, sys: System)
    requires a in conn && b in conn && a != b && conn[a] == conn[b]
    requires g.status == Open && g.version == 1
    ensures Reaches(conn, steps, sys)
    ensures |sys.log| == 2 && sys.log[0].op == Accept && sys.log[1].op == Cancel
    ensures sys.log[1].seen == g && sys.log[1].replaced == To(Rewritten(Accept, g))
    ensures sys.db.gigs == map[g.id := Rewritten(Cancel, g)]
  {
    var s0, w0 := Extend(conn, [], START, Create(g));
    var s1, w1 := Reading(conn, s0, w0, a, g, Accept);
    var s2, w2 := Reading(conn, s1, w1, b, g, Cancel);
    hide Enabled; hide After; hide Reaches;
    steps, sys := BothCommit(conn, a, b, g, s2, w2);
  }

  lemma BothCommit(conn: map<Caller, Conn>, a: Caller, b: Caller, g: Gig, before: seq<Step>, w: System)
    returns (steps: seq<Step>, sys: System)
    requires a in conn && b in conn && a != b && conn[a] == conn[b]
    requires Reaches(conn, before, w) && w.dirty == {} && w.log == [] && w.db.gigs == map[g.id := g]
    requires w.busy == map[a := Computed(g, Accept, true), b := Computed(g, Cancel, true)]
    ensures Reaches(conn, steps, sys)
    ensures |sys.log| == 2 && sys.log[0].op == Accept && sys.log[1].op == Cancel
    ensures sys.log[1].seen == g && sys.log[1].replaced == To(Rewritten(Accept, g))
    ensures sys.db.gigs == map[g.id := Rewritten(Cancel, g)]
  {
    var s1, w1 := Extend(conn, before, w, Exec(a));
    hide Reaches;
    assert b in w1.busy && w1.busy[b] == Computed(g, Cancel, false) && conn[b] !in w1.dirty;
    steps, sys := Extend(conn, s1, w1, Exec(b));
  }

  /** Writes are always fresh exactly when no two callers share a connection. */
  lemma FreshIffExclusive(conn: map<Caller, Conn>)
    ensures AlwaysFresh(conn) <==> Exclusive(conn)
  {
    if Exclusive(conn) {
      forall steps, sys | Reaches(conn, steps, sys) ensures AllFresh(sys.log) {
        WritesAreSerialised(conn, steps, sys);
      }
    } else {
      var a, b :| a in conn && b in conn && a != b && conn[a] == conn[b];
      var steps, sys := SharedConnectionCommitsStale(conn, a, b, Gig(0, 0, 0, Open, 0, 0, 1));
      assert !AllFresh(sys.log) by { assert sys.log[1].replaced != To(sys.log[1].seen); }
    }
  }
}
