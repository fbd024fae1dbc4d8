// Guarded escrow transitions as the two store commands they are: the row is read and checked, then
// written back whole, with nothing that compares the row in between.
module EscrowRaces {
  import opened Common
  import opened Escrow

  type Caller = nat

  datatype Intent = Intent(op: Op, seen: Escrow)

  /** One write: what it computed from, and what it replaced. */
  datatype Commit = Commit(op: Op, seen: Escrow, replaced: Escrow)

  datatype World = World(row: Escrow, busy: map<Caller, Intent>, log: seq<Commit>)

  datatype Step = Read(caller: Caller, op: Op) | Write(caller: Caller)

  predicate Enabled(w: World, s: Step)
  {
    match s
    case Read(c, op) => c !in w.busy && Apply(op, w.row).Success?
    case Write(c) => c in w.busy && Apply(w.busy[c].op, w.busy[c].seen).Success?
  }

  function After(w: World, s: Step): World
    requires Enabled(w, s)
  {
    match s
    case Read(c, op) => w.(busy := w.busy[c := Intent(op, w.row)])
    case Write(c) =>
      var p := w.busy[c];
      World(Apply(p.op, p.seen).value, w.busy - {c}, w.log + [Commit(p.op, p.seen, w.row)])
  }

  /** The world after `steps` from `e`, if each was possible in its turn. */
  function Played(e: Escrow, steps: seq<Step>): Option<World>
  {
    if steps == [] then Some(World(e, map[], []))
    else
      var before := Played(e, steps[..|steps| - 1]);
      var s := steps[|steps| - 1];
      if before.Some? && Enabled(before.value, s) then Some(After(before.value, s)) else None
  }

  predicate AllFresh(log: seq<Commit>)
  {
    forall i :: 0 <= i < |log| ==> log[i].replaced == log[i].seen
  }

  function OpsOf(log: seq<Commit>): seq<Op>
  {
    if log == [] then [] else OpsOf(log[..|log| - 1]) + [log[|log| - 1].op]
  }

  predicate Settles(op: Op) { op.Release? || op.Cancel? || op.Split? }

  function Settlements(log: seq<Commit>): nat
  {
    if log == [] then 0
    else Settlements(log[..|log| - 1]) + if Settles(log[|log| - 1].op) then 1 else 0
  }

  lemma OneMoreOp(log: seq<Commit>, c: Commit)
    ensures OpsOf(log + [c]) == OpsOf(log) + [c.op]
    ensures Settlements(log + [c]) == Settlements(log) + if Settles(c.op) then 1 else 0
  {
    assert (log + [c])[..|log|] == log;
  }

  lemma OneMoreRun(e: Escrow, ops: seq<Op>, op: Op)
    requires Apply(op, Run(e, ops)).Success?
    ensures Run(e, ops + [op]) == Apply(op, Run(e, ops)).value
    ensures Payouts(e, ops + [op]) == Payouts(e, ops) + if Settles(op) then 1 else 0
  {
    assert (ops + [op])[..|ops|] == ops;
  }

  lemma {:induction false} FreshRunsAreSequential(e: Escrow, steps: seq<Step>)
    requires Played(e, steps).Some? && AllFresh(Played(e, steps).value.log)
    ensures var w := Played(e, steps).value;
      w.row == Run(e, OpsOf(w.log)) && Settlements(w.log) == Payouts(e, OpsOf(w.log))
  {
    if steps != [] {
      var n := |steps| - 1;
      var before := Played(e, steps[..n]).value;
      var w := Played(e, steps).value;
      if steps[n].Write? {
        var p := before.busy[steps[n].caller];
        var c := Commit(p.op, p.seen, before.row);
        assert w.log[|before.log|] == c && w.log[..|before.log|] == before.log;
        FreshRunsAreSequential(e, steps[..n]);
        OneMoreOp(before.log, c);
        OneMoreRun(e, OpsOf(before.log), c.op);
      } else {
        FreshRunsAreSequential(e, steps[..n]);
      }
    }
  }

  /** As long as every write replaces the row it was computed from, the run is one of `Escrow.Run`. */
  lemma FreshWritesMoveFundsOnce(e: Escrow, steps: seq<Step>)
    requires !IsTerminal(e.status) && Played(e, steps).Some? && AllFresh(Played(e, steps).value.log)
    ensures Settlements(Played(e, steps).value.log) == if IsTerminal(Played(e, steps).value.row.status) then 1 else 0
  {
    FreshRunsAreSequential(e, steps);
    FundsMoveAtMostOnce(e, OpsOf(Played(e, steps).value.log));
  }

  // ── Exactly when funds move twice ─────────────────────────────────────────────

  /** How many writes replaced a row that was settled already. */
  function SettledReplaced(log: seq<Commit>): nat
  {
    if log == [] then 0
    else SettledReplaced(log[..|log| - 1]) + if IsTerminal(log[|log| - 1].replaced.status) then 1 else 0
  }

  lemma {:induction false} NoneReplaced(log: seq<Commit>)
    ensures SettledReplaced(log) == 0 <==> forall i :: 0 <= i < |log| ==> !IsTerminal(log[i].replaced.status)
  {
    if log != [] {
      NoneReplaced(log[..|log| - 1]);
      assert forall i :: 0 <= i < |log| - 1 ==> log[i] == log[..|log| - 1][i];
    }
  }

  /** Over every interleaving from an open escrow, each settlement either still stands or has been
      replaced by a later write. */
  lemma {:induction false} SettlementsAreCounted(e: Escrow, steps: seq<Step>)
    requires !IsTerminal(e.status) && Played(e, steps).Some?
    ensures var w := Played(e, steps).value;
      Settlements(w.log) == SettledReplaced(w.log) + if IsTerminal(w.row.status) then 1 else 0
  {
    if steps != [] {
      var n := |steps| - 1;
      SettlementsAreCounted(e, steps[..n]);
      if steps[n].Write? {
        var before := Played(e, steps[..n]).value;
        var p := before.busy[steps[n].caller];
        OneMoreOp(before.log, Commit(p.op, p.seen, before.row));
        OneMoreReplaced(before.log, Commit(p.op, p.seen, before.row));
      }
    }
  }

  lemma OneMoreReplaced(log: seq<Commit>, c: Commit)
    ensures SettledReplaced(log + [c]) == SettledReplaced(log) + if IsTerminal(c.replaced.status) then 1 else 0
  {
    assert (log + [c])[..|log|] == log;
  }

  /**
   * Funds have moved as often as the row says, once if it is settled and never otherwise, exactly if no
   * write replaced a settled row, which is the comparison that writing a row back leaves out.
   */
  lemma FundsMoveOnceIffNoSettledRowIsReplaced(e: Escrow, steps: seq<Step>)
    requires !IsTerminal(e.status) && Played(e, steps).Some?
    ensures var w := Played(e, steps).value;
      (Settlements(w.log) == if IsTerminal(w.row.status) then 1 else 0)
      <==> forall i :: 0 <= i < |w.log| ==> !IsTerminal(w.log[i].replaced.status)
  {
    SettlementsAreCounted(e, steps);
    NoneReplaced(Played(e, steps).value.log);
  }

  /** At no time have two callers read and not yet written. */
  predicate OneAtATime(e: Escrow, steps: seq<Step>)
  {
    steps == [] ||
    (OneAtATime(e, steps[..|steps| - 1]) && (Played(e, steps).Some? ==> |Played(e, steps).value.busy| <= 1))
  }

  /** What callers can see to beforehand: taking turns is enough. */
  lemma {:induction false} TurnsMoveFundsOnce(e: Escrow, steps: seq<Step>)
    requires !IsTerminal(e.status) && Played(e, steps).Some? && OneAtATime(e, steps)
    ensures var w := Played(e, steps).value; Settlements(w.log) == if IsTerminal(w.row.status) then 1 else 0
  {
    TurnsAreFresh(e, steps);
    FreshWritesMoveFundsOnce(e, steps);
  }

  lemma {:induction false} TurnsAreFresh(e: Escrow, steps: seq<Step>)
    requires Played(e, steps).Some? && OneAtATime(e, steps)
    ensures var w := Played(e, steps).value;
      AllFresh(w.log) && |w.busy| <= 1 && forall c :: c in w.busy ==> w.busy[c].seen == w.row
  {
    if steps != [] {
      var n := |steps| - 1;
      TurnsAreFresh(e, steps[..n]);
      var before, w, c := Played(e, steps[..n]).value, Played(e, steps).value, steps[n].caller;
      if steps[n].Write? {
        NobodyElse(before.busy, c);
      } else {
        assert c in w.busy;
        NobodyElse(w.busy, c);
      }
    }
  }

  lemma NobodyElse(busy: map<Caller, Intent>, c: Caller)
    requires |busy| <= 1 && c in busy
    ensures busy.Keys == {c}
  {
    assert busy.Keys - {c} == {} by {
      assert |busy.Keys - {c}| == |busy.Keys| - 1;
    }
  }

  lemma Then(e: Escrow, steps: seq<Step>, w: World, s: Step) returns (more: seq<Step>, now: World)
    requires Played(e, steps) == Some(w) && Enabled(w, s)
    ensures more == steps + [s] && now == After(w, s) && Played(e, more) == Some(now)
  {
    more, now := steps + [s], After(w, s);
    assert more[..|steps|] == steps;
  }

  /**
   * Nothing enforces that. On any open escrow, any two settlements whose callers both read before
   * either writes both go through: the second replaces a row that is settled already, and the
   * version ends as if only one of them had been written.
   */
  lemma OverlappingSettlementsBothCommit(e: Escrow, first: Op, second: Op) returns (w: World)
    requires !IsTerminal(e.status) && Settles(first) && Settles(second)
    ensures Played(e, [Read(1, first), Read(2, second), Write(1), Write(2)]) == Some(w)
    ensures |w.log| == 2 && Settlements(w.log) == 2 && IsTerminal(w.log[1].replaced.status)
    ensures VersionOf(w.row) == VersionOf(e) + 1
  {
    var steps;
    steps, w := BothRead(e, first, second);
    hide Played;
    steps, w := BothWrite(e, steps, w, first, second);
    assert steps == [Read(1, first), Read(2, second), Write(1), Write(2)];
  }

  lemma BothRead(e: Escrow, first: Op, second: Op) returns (steps: seq<Step>, w: World)
    requires !IsTerminal(e.status) && Settles(first) && Settles(second)
    ensures steps == [Read(1, first), Read(2, second)] && Played(e, steps) == Some(w)
    ensures w == World(e, map[1 := Intent(first, e), 2 := Intent(second, e)], [])
  {
    var mid;
    steps, mid := Then(e, [], World(e, map[], []), Read(1, first));
    hide Played;
    hide Apply;
    assert Apply(second, e).Success? by { SettlementsApply(e, second); }
    steps, w := Then(e, steps, mid, Read(2, second));
  }

  lemma SettlementsApply(e: Escrow, op: Op)
    requires !IsTerminal(e.status) && Settles(op)
    ensures Apply(op, e).Success?
  {
  }

  lemma BothWrite(e: Escrow, before: seq<Step>, at: World, first: Op, second: Op) returns (steps: seq<Step>, w: World)
    requires !IsTerminal(e.status) && Settles(first) && Settles(second)
    requires Played(e, before) == Some(at) && at == World(e, map[1 := Intent(first, e), 2 := Intent(second, e)], [])
    ensures steps == before + [Write(1)] + [Write(2)] && Played(e, steps) == Some(w)
    ensures |w.log| == 2 && Settlements(w.log) == 2 && IsTerminal(w.log[1].replaced.status)
    ensures VersionOf(w.row) == VersionOf(e) + 1
  {
    hide Played;
    var mid;
    steps, mid := Then(e, before, at, Write(1));
    var c := Commit(first, e, e);
    assert mid.log == [] + [c];
    OneMoreOp([], c);
    steps, w := Then(e, steps, mid, Write(2));
    OneMoreOp([c], Commit(second, e, mid.row));
  }
}
