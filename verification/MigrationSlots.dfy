// Runs of migrations claiming their name's active slot, one store command at a time.
module MigrationSlots {
  import opened Common

  type RunId = nat
  type Name = nat

  /**
   * Where one run call stands. `Owned`: its SET NX took the slot, its record is not yet written.
   * `Refused`, `Saw`: another run has the slot; the marker, then that run's record are being read.
   * `Reclaiming`, `Marked`: the marker was taken for stale; it is overwritten, then the record is
   * written. `Working`: its phases or their rollback are under way. `Completing`: its completed
   * record is saved, its slot not yet cleared. `Cleared`: rolled back and its slot cleared, its
   * final record not yet saved. `Undoing`: a manual rollback of a finished run is under way.
   */
  datatype Pc = Claiming | Owned | Refused | Saw(other: Option<RunId>) | Reclaiming | Marked
              | Working | Completing | Cleared | Undoing | Done | Rejected

  datatype Call = Call(name: Name, pc: Pc)

  /** A stored run's status, with the five that count as in progress taken together. */
  datatype Status = InProgress | Completed | RolledBack | Failed

  datatype World = World(calls: map<RunId, Call>, records: map<RunId, Status>, active: map<Name, RunId>)

  /** What a call does next. `Begin` starts one under a fresh id; a working one may succeed or fail. */
  datatype Act = Begin(name: Name) | Next(fails: bool) | Undo

  predicate Enabled(w: World, r: RunId, a: Act)
  {
    match a
    case Begin(_) => r !in w.calls
    case Next(_) => r in w.calls && w.calls[r].pc != Done && w.calls[r].pc != Rejected
    case Undo => r in w.calls && w.calls[r].pc == Done && r in w.records && (w.records[r] == Completed || w.records[r] == Failed)
  }

  function At(w: World, r: RunId, pc: Pc): map<RunId, Call>
    requires r in w.calls
  {
    w.calls[r := Call(w.calls[r].name, pc)]
  }

  /** One store command of call `r`. */
  function After(w: World, r: RunId, a: Act): World
    requires Enabled(w, r, a)
  {
    match a
    case Begin(name) => w.(calls := w.calls[r := Call(name, Claiming)])
    case Undo => w.(calls := At(w, r, Undoing), records := w.records[r := InProgress])
    case Next(fails) =>
      var name := w.calls[r].name;
      match w.calls[r].pc
      case Claiming =>
        if name in w.active then w.(calls := At(w, r, Refused))
        else w.(calls := At(w, r, Owned), active := w.active[name := r])
      case Owned => w.(calls := At(w, r, Working), records := w.records[r := InProgress])
      case Refused => w.(calls := At(w, r, Saw(if name in w.active then Some(w.active[name]) else None)))
      case Saw(other) =>
        if other.Some? && other.value in w.records && w.records[other.value] == InProgress then w.(calls := At(w, r, Rejected))
        else w.(calls := At(w, r, Reclaiming))
      case Reclaiming => w.(calls := At(w, r, Marked), active := w.active[name := r])
      case Marked => w.(calls := At(w, r, Working), records := w.records[r := InProgress])
      case Working =>
        if fails then w.(calls := At(w, r, Cleared), active := w.active - {name})
        else w.(calls := At(w, r, Completing), records := w.records[r := Completed])
      case Undoing => w.(calls := At(w, r, Cleared), active := w.active - {name})
      case Completing => w.(calls := At(w, r, Done), active := w.active - {name})
      case Cleared => w.(calls := At(w, r, Done), records := w.records[r := if fails then Failed else RolledBack])
      case Done => w
      case Rejected => w
  }

  datatype Step = Step(r: RunId, a: Act)

  function Empty(): World { World(map[], map[], map[]) }

  /** The world after `steps`, if each was possible in its turn. */
  function Played(steps: seq<Step>): Option<World>
  {
    if steps == [] then Some(Empty())
    else
      var before := Played(steps[..|steps| - 1]);
      var s := steps[|steps| - 1];
      if before.Some? && Enabled(before.value, s.r, s.a) then Some(After(before.value, s.r, s.a)) else None
  }

  predicate Holds(pc: Pc) { pc == Owned || pc == Working || pc == Completing }

  predicate Overwrites(pc: Pc) { pc == Marked || pc == Undoing }

  /** In no world of the run has a call overwritten a marker or begun a manual rollback. */
  predicate Undisturbed(steps: seq<Step>)
  {
    steps == [] ||
    (&& Undisturbed(steps[..|steps| - 1])
     && (Played(steps).Some? ==> forall r :: r in Played(steps).value.calls ==> !Overwrites(Played(steps).value.calls[r].pc)))
  }

  /** The slot of a name is marked with the one call that holds it, if any does. */
  ghost predicate Inv(w: World)
  {
    && (forall r :: r in w.calls && Holds(w.calls[r].pc) ==> w.calls[r].name in w.active && w.active[w.calls[r].name] == r)
    && (forall n :: n in w.active ==> w.active[n] in w.calls && Holds(w.calls[w.active[n]].pc) && w.calls[w.active[n]].name == n)
    && (forall r :: r in w.records ==> r in w.calls)
  }

  predicate Quiet(w: World) { forall r :: r in w.calls ==> !Overwrites(w.calls[r].pc) }

  /** A step that neither takes nor frees the slot. */
  lemma SameHolders(w: World, now: World, r: RunId)
    requires Inv(w) && r in w.calls && r in now.calls && now.calls == w.calls[r := now.calls[r]]
    requires now.calls[r].name == w.calls[r].name
    requires Holds(now.calls[r].pc) == Holds(w.calls[r].pc) && now.active == w.active
    requires now.records.Keys <= w.records.Keys + {r}
    ensures Inv(now)
  {
  }

  lemma SlotTaken(w: World, now: World, r: RunId)
    requires Inv(w) && r in w.calls && !Holds(w.calls[r].pc) && w.calls[r].name !in w.active
    requires now == World(At(w, r, Owned), w.records, w.active[w.calls[r].name := r])
    ensures Inv(now)
  {
  }

  lemma SlotFreed(w: World, now: World, r: RunId)
    requires Inv(w) && r in w.calls && Holds(w.calls[r].pc) && r in now.calls && !Holds(now.calls[r].pc)
    requires now == World(At(w, r, now.calls[r].pc), w.records, w.active - {w.calls[r].name})
    ensures Inv(now)
  {
  }

  lemma StepKeepsInv(w: World, r: RunId, a: Act)
    requires Inv(w) && Enabled(w, r, a) && Quiet(w) && Quiet(After(w, r, a))
    ensures Inv(After(w, r, a))
  {
    var now := After(w, r, a);
    assert r in now.calls && !Overwrites(now.calls[r].pc);
    if a.Begin? {
      hide Holds;
      NewCall(w, now, r, a.name);
    } else {
      assert !Overwrites(w.calls[r].pc);
      hide Inv;
      if w.calls[r].pc == Claiming && w.calls[r].name !in w.active {
        SlotTaken(w, now, r);
      } else if w.calls[r].pc == Completing || (w.calls[r].pc == Working && a.fails) {
        SlotFreed(w, now, r);
      } else {
        SameHolders(w, now, r);
      }
    }
  }

  lemma NewCall(w: World, now: World, r: RunId, name: Name)
    requires Inv(w) && r !in w.calls && now == w.(calls := w.calls[r := Call(name, Claiming)])
    ensures Inv(now)
  {
  }

  lemma {:induction false} PlayedKeepsInv(steps: seq<Step>)
    requires Played(steps).Some? && Undisturbed(steps)
    ensures Inv(Played(steps).value) && Quiet(Played(steps).value)
  {
    if steps != [] {
      var s := steps[|steps| - 1];
      PlayedKeepsInv(steps[..|steps| - 1]);
      hide After;
      StepKeepsInv(Played(steps[..|steps| - 1]).value, s.r, s.a);
    }
  }

  /**
   * Exclusion: over every interleaving of any calls in which no marker is overwritten as stale and no
   * manual rollback runs, at most one call of a name is between its claim and the clearing of the
   * slot, so no two runs of a migration ever work at once.
   */
  lemma OneRunPerName(steps: seq<Step>, r: RunId, s: RunId)
    requires Played(steps).Some? && Undisturbed(steps)
    requires r in Played(steps).value.calls && s in Played(steps).value.calls
    ensures var w := Played(steps).value;
      w.calls[r].name == w.calls[s].name && Holds(w.calls[r].pc) && Holds(w.calls[s].pc) ==> r == s
  {
    PlayedKeepsInv(steps);
  }

  /** And when no call holds it, a name's slot is free. */
  lemma NoSlotIsLeaked(steps: seq<Step>, n: Name)
    requires Played(steps).Some? && Undisturbed(steps)
    ensures var w := Played(steps).value;
      n in w.active <==> exists r :: r in w.calls && w.calls[r].name == n && Holds(w.calls[r].pc)
  {
    PlayedKeepsInv(steps);
    var w := Played(steps).value;
    if n in w.active { assert w.calls[w.active[n]].name == n; }
  }

  // ── How two runs come to work at once ─────────────────────────────────────────

  ghost predicate TwoWork(w: World)
  {
    exists r, s :: r in w.calls && s in w.calls && r != s && w.calls[r].name == w.calls[s].name
      && w.calls[r].pc == Working && w.calls[s].pc == Working
  }

  lemma PlayedOneMore(steps: seq<Step>, s: Step)
    requires Played(steps).Some? && Enabled(Played(steps).value, s.r, s.a)
    ensures Played(steps + [s]) == Some(After(Played(steps).value, s.r, s.a))
  {
    assert (steps + [s])[..|steps + [s]| - 1] == steps;
  }

  /** Call `r`'s next command, or its beginning, in a known world. */
  lemma Then(steps: seq<Step>, s: Step, w: World) returns (more: seq<Step>, now: World)
    requires Played(steps) == Some(w) && Enabled(w, s.r, s.a)
    ensures more == steps + [s] && now == After(w, s.r, s.a) && Played(more) == Some(now)
  {
    PlayedOneMore(steps, s);
    more, now := steps + [s], After(w, s.r, s.a);
  }

  /** Call `r` begins, takes a free slot with SET NX and, if `creates`, writes its record. */
  lemma Claim(steps: seq<Step>, w: World, r: RunId, n: Name, creates: bool) returns (more: seq<Step>, now: World)
    requires Played(steps) == Some(w) && r !in w.calls && n !in w.active
    ensures Played(more) == Some(now)
    ensures now.calls == w.calls[r := Call(n, if creates then Working else Owned)]
    ensures now.active == w.active[n := r]
    ensures now.records == if creates then w.records[r := InProgress] else w.records
  {
    hide Played;
    more, now := Then(steps, Step(r, Begin(n)), w);
    more, now := Then(more, Step(r, Next(false)), now);
    if creates { more, now := Then(more, Step(r, Next(false)), now); }
  }

  /** Call `r` is refused, finds no run in progress behind the marker, and takes the slot over. */
  lemma Reclaim(steps: seq<Step>, w: World, r: RunId, n: Name) returns (more: seq<Step>, now: World)
    requires Played(steps) == Some(w) && r !in w.calls && n in w.active
    requires w.active[n] in w.records ==> w.records[w.active[n]] != InProgress
    ensures Played(more) == Some(now)
    ensures now.calls == w.calls[r := Call(n, Working)] && now.active == w.active[n := r]
    ensures now.records == w.records[r := InProgress]
  {
    hide Played;
    more, now := Then(steps, Step(r, Begin(n)), w);
    more, now := Then(more, Step(r, Next(false)), now);
    more, now := Then(more, Step(r, Next(false)), now);
    more, now := TakeOver(more, now, r, n);
  }

  /** The record behind the marker is read, the marker overwritten, the own record written. */
  lemma TakeOver(steps: seq<Step>, w: World, r: RunId, n: Name) returns (more: seq<Step>, now: World)
    requires Played(steps) == Some(w) && r in w.calls && w.calls[r].name == n && n in w.active
    requires w.calls[r].pc == Saw(Some(w.active[n]))
    requires w.active[n] in w.records ==> w.records[w.active[n]] != InProgress
    ensures Played(more) == Some(now)
    ensures now.calls == w.calls[r := Call(n, Working)] && now.active == w.active[n := r]
    ensures now.records == w.records[r := InProgress]
  {
    hide Played;
    more, now := Then(steps, Step(r, Next(false)), w);
    more, now := Then(more, Step(r, Next(false)), now);
    more, now := Then(more, Step(r, Next(false)), now);
  }

  /**
   * Between another call's SET NX and the writing of its record, the marker points at nothing and is
   * taken for stale: from any world with a call in that window, both can be made to work.
   */
  lemma ClaimWindowAdmitsTwo(steps: seq<Step>, r: RunId, s: RunId) returns (more: seq<Step>)
    requires Played(steps).Some?
    requires var w := Played(steps).value;
      && r in w.calls && w.calls[r].pc == Owned && r !in w.records && s !in w.calls
      && w.calls[r].name in w.active && w.active[w.calls[r].name] == r
    ensures Played(more).Some? && TwoWork(Played(more).value)
  {
    hide After;
    hide Played;
    var w := Played(steps).value;
    var now;
    more, now := Reclaim(steps, w, s, w.calls[r].name);
    more, now := Create(more, now, r);
    assert now.calls[r].pc == Working && now.calls[s].pc == Working;
  }

  lemma Create(steps: seq<Step>, w: World, r: RunId) returns (more: seq<Step>, now: World)
    requires Played(steps) == Some(w) && r in w.calls && w.calls[r].pc == Owned
    ensures Played(more) == Some(now) && now.calls == w.calls[r := Call(w.calls[r].name, Working)]
  {
    more, now := Then(steps, Step(r, Next(false)), w);
  }

  /**
   * Between the saving of a completed run and the clearing of its slot, a second call takes the slot
   * over; the first then clears the second's marker, and a third call claims the slot.
   */
  lemma CompletionWindowAdmitsTwo(steps: seq<Step>, r: RunId, s: RunId, t: RunId) returns (more: seq<Step>)
    requires Played(steps).Some? && s != t
    requires var w := Played(steps).value;
      && r in w.calls && w.calls[r].pc == Completing && r in w.records && w.records[r] == Completed && s !in w.calls && t !in w.calls
      && w.calls[r].name in w.active && w.active[w.calls[r].name] == r
    ensures Played(more).Some? && TwoWork(Played(more).value)
  {
    hide Played;
    var w := Played(steps).value;
    var n := w.calls[r].name;
    var now;
    more, now := Reclaim(steps, w, s, n);
    more, now := Then(more, Step(r, Next(false)), now);
    hide After;
    more, now := Claim(more, now, t, n, true);
    assert now.calls[s].pc == Working && now.calls[t].pc == Working;
  }

  /**
   * And a call that was refused while another was at work may come back late: it has read whose marker it
   * is, that run completes and clears its slot, a third call claims it, and then the late one finds a
   * completed run behind what it read and overwrites the third one's marker.
   */
  lemma LateRefusalAdmitsTwo(steps: seq<Step>, r: RunId, s: RunId, t: RunId) returns (more: seq<Step>)
    requires Played(steps).Some? && s != t
    requires var w := Played(steps).value;
      && r in w.calls && w.calls[r].pc == Working && s !in w.calls && t !in w.calls
      && w.calls[r].name in w.active && w.active[w.calls[r].name] == r
    ensures Played(more).Some? && TwoWork(Played(more).value)
  {
    hide Played;
    var w := Played(steps).value;
    var n := w.calls[r].name;
    var now;
    more, now := SeeMarker(steps, w, s, n);
    more, now := Complete(more, now, r);
    hide After;
    more, now := Claim(more, now, t, n, true);
    more, now := TakeOverAfter(more, now, s, r, n);
    assert now.calls[s].pc == Working && now.calls[t].pc == Working;
  }

  /** Call `s` begins, is refused and reads whose marker it is. */
  lemma SeeMarker(steps: seq<Step>, w: World, s: RunId, n: Name) returns (more: seq<Step>, now: World)
    requires Played(steps) == Some(w) && s !in w.calls && n in w.active
    ensures more == steps + [Step(s, Begin(n))] + [Step(s, Next(false))] + [Step(s, Next(false))]
    ensures Played(more) == Some(now) && now == w.(calls := w.calls[s := Call(n, Saw(Some(w.active[n])))])
  {
    hide Played;
    more, now := Then(steps, Step(s, Begin(n)), w);
    more, now := Then(more, Step(s, Next(false)), now);
    more, now := Then(more, Step(s, Next(false)), now);
  }

  lemma Complete(steps: seq<Step>, w: World, r: RunId) returns (more: seq<Step>, now: World)
    requires Played(steps) == Some(w) && r in w.calls && w.calls[r].pc == Working
    ensures Played(more) == Some(now) && now.calls == w.calls[r := Call(w.calls[r].name, Done)]
    ensures now.active == w.active - {w.calls[r].name} && now.records == w.records[r := Completed]
  {
    hide Played;
    more, now := Then(steps, Step(r, Next(false)), w);
    more, now := Then(more, Step(r, Next(false)), now);
  }

  /** A call that read the marker of `r` finds no run in progress there, whoever has the slot by now. */
  lemma TakeOverAfter(steps: seq<Step>, w: World, s: RunId, r: RunId, n: Name) returns (more: seq<Step>, now: World)
    requires Played(steps) == Some(w) && s in w.calls && w.calls[s] == Call(n, Saw(Some(r)))
    requires r in w.records ==> w.records[r] != InProgress
    ensures more == steps + [Step(s, Next(false))] + [Step(s, Next(false))] + [Step(s, Next(false))]
    ensures Played(more) == Some(now) && now.calls == w.calls[s := Call(n, Working)]
  {
    hide Played;
    more, now := Then(steps, Step(s, Next(false)), w);
    more, now := Then(more, Step(s, Next(false)), now);
    more, now := Then(more, Step(s, Next(false)), now);
  }

  /** A manual rollback clears its name's slot even when another run of the name holds it. */
  lemma ManualRollbackAdmitsTwo(steps: seq<Step>, r: RunId, s: RunId, t: RunId) returns (more: seq<Step>)
    requires Played(steps).Some?
    requires var w := Played(steps).value;
      && r in w.calls && w.calls[r].pc == Done && r in w.records && (w.records[r] == Completed || w.records[r] == Failed)
      && s in w.calls && s != r && w.calls[s].pc == Working && w.calls[s].name == w.calls[r].name && t !in w.calls
    ensures Played(more).Some? && TwoWork(Played(more).value)
  {
    hide Played;
    var w := Played(steps).value;
    var n := w.calls[r].name;
    var now;
    more, now := Then(steps, Step(r, Undo), w);
    more, now := Then(more, Step(r, Next(false)), now);
    hide After;
    more, now := Claim(more, now, t, n, true);
    assert now.calls[s].pc == Working && now.calls[t].pc == Working;
  }

  /** The first window is reached by the first two commands of any run. */
  lemma ClaimWindowIsReached(n: Name) returns (steps: seq<Step>)
    ensures Played(steps).Some? && TwoWork(Played(steps).value)
  {
    var w;
    steps, w := Claim([], Empty(), 1, n, false);
    steps := ClaimWindowAdmitsTwo(steps, 1, 2);
  }
}
