// When it is safe to begin a migration's run: exactly while every earlier run of the name is past its slot.
module MigrationTurns {
  import opened Common
  import opened MigrationSlots

  /** The call may yet claim, hold or clear its name's slot. */
  predicate Live(pc: Pc) { pc != Cleared && pc != Done && pc != Rejected }

  /** No other call of the name is live, unless it is a manual rollback itself. */
  ghost predicate NoOtherRun(w: World, n: Name, r: RunId)
  {
    forall q :: q in w.calls && q != r && w.calls[q].name == n ==> !Live(w.calls[q].pc) || w.calls[q].pc == Undoing
  }

  /** No other call of the name is live. */
  ghost predicate NoOther(w: World, n: Name, r: RunId)
  {
    forall q :: q in w.calls && q != r && w.calls[q].name == n ==> !Live(w.calls[q].pc)
  }

  /** A call begins only while no other call of its name is live, a manual rollback only while at most other
      rollbacks of the name are. */
  ghost predicate InTurn(w: World, s: Step)
  {
    match s.a
    case Begin(n) => NoOther(w, n, s.r)
    case Undo => s.r in w.calls ==> NoOtherRun(w, w.calls[s.r].name, s.r)
    case Next(_) => true
  }

  ghost predicate TakesTurns(steps: seq<Step>)
  {
    steps == [] ||
    (&& TakesTurns(steps[..|steps| - 1])
     && (Played(steps[..|steps| - 1]).Some? ==> InTurn(Played(steps[..|steps| - 1]).value, steps[|steps| - 1])))
  }

  // ── Taking turns is enough ────────────────────────────────────────────────────

  /** One live call per name, or rollbacks only; none refused, and a slot marked with exactly the call that
      holds it. */
  ghost predicate Orderly(w: World) { OneRun(w) && SlotsMatch(w) }

  ghost predicate OneRun(w: World)
  {
    && (forall r, s :: BothLive(w, r, s) ==> r == s || (w.calls[r].pc == Undoing && w.calls[s].pc == Undoing))
    && (forall r :: r in w.calls ==> !Turned(w.calls[r].pc))
  }

  ghost predicate SlotsMatch(w: World)
  {
    && (forall r :: r in w.calls && Holds(w.calls[r].pc) ==> w.calls[r].name in w.active && w.active[w.calls[r].name] == r)
    && (forall n :: n in w.active ==> w.active[n] in w.calls && Holds(w.calls[w.active[n]].pc) && w.calls[w.active[n]].name == n)
  }

  ghost predicate BothLive(w: World, r: RunId, s: RunId)
  {
    r in w.calls && s in w.calls && w.calls[r].name == w.calls[s].name && Live(w.calls[r].pc) && Live(w.calls[s].pc)
  }

  /** The call has found the slot taken. */
  predicate Turned(pc: Pc) { pc == Refused || pc.Saw? || pc == Reclaiming || pc == Marked || pc == Rejected }

  lemma TurnStaysOrderly(w: World, s: Step)
    requires Orderly(w) && Enabled(w, s.r, s.a) && InTurn(w, s)
    ensures Orderly(After(w, s.r, s.a))
  {
    if s.a.Next? {
      NextKeepsOneRun(w, s.r, s.a.fails);
      NextKeepsSlots(w, s.r, s.a.fails);
    } else {
      StartKeepsOneRun(w, s);
      StartKeepsSlots(w, s);
    }
    hide OneRun;
    hide SlotsMatch;
    hide After;
    hide InTurn;
  }

  lemma StartKeepsOneRun(w: World, s: Step)
    requires OneRun(w) && Enabled(w, s.r, s.a) && InTurn(w, s) && !s.a.Next?
    ensures OneRun(After(w, s.r, s.a))
  {
    var now := After(w, s.r, s.a);
    forall p, q | BothLive(now, p, q) ensures p == q || (now.calls[p].pc == Undoing && now.calls[q].pc == Undoing) {
      assert p != s.r && q != s.r ==> BothLive(w, p, q);
    }
  }

  lemma StartKeepsSlots(w: World, s: Step)
    requires SlotsMatch(w) && Enabled(w, s.r, s.a) && !s.a.Next?
    ensures SlotsMatch(After(w, s.r, s.a))
  {
  }

  /** A call of a name with a free slot, if it is to claim one. */
  lemma ClaimerFindsNone(w: World, r: RunId)
    requires OneRun(w) && SlotsMatch(w) && r in w.calls && w.calls[r].pc == Claiming
    ensures w.calls[r].name !in w.active
  {
    if w.calls[r].name in w.active { assert BothLive(w, r, w.active[w.calls[r].name]); }
  }

  lemma NextKeepsOneRun(w: World, r: RunId, fails: bool)
    requires OneRun(w) && SlotsMatch(w) && Enabled(w, r, Next(fails))
    ensures OneRun(After(w, r, Next(fails)))
  {
    var now := After(w, r, Next(fails));
    if w.calls[r].pc == Claiming { ClaimerFindsNone(w, r); }
    hide SlotsMatch;
    assert now.calls == w.calls[r := now.calls[r]] && now.calls[r].name == w.calls[r].name;
    assert Live(now.calls[r].pc) ==> Live(w.calls[r].pc) && w.calls[r].pc != Undoing;
    assert !Turned(now.calls[r].pc);
    hide After;
    hide Enabled;
    forall p, q | BothLive(now, p, q) ensures p == q || (now.calls[p].pc == Undoing && now.calls[q].pc == Undoing) {
      assert BothLive(w, p, q);
    }
  }

  lemma NextKeepsSlots(w: World, r: RunId, fails: bool)
    requires OneRun(w) && SlotsMatch(w) && Enabled(w, r, Next(fails))
    ensures SlotsMatch(After(w, r, Next(fails)))
  {
    var name, now := w.calls[r].name, After(w, r, Next(fails));
    assert now.calls == w.calls[r := now.calls[r]] && now.calls[r].name == name && !Turned(w.calls[r].pc);
    if w.calls[r].pc == Claiming {
      ClaimerFindsNone(w, r);
      SlotMarked(w, now, r);
    } else if now.active != w.active {
      if w.calls[r].pc == Undoing { RollerFindsNone(w, r); }
      SlotCleared(w, now, r);
    } else {
      assert Holds(now.calls[r].pc) == Holds(w.calls[r].pc) || name !in w.active;
    }
  }

  lemma RollerFindsNone(w: World, r: RunId)
    requires OneRun(w) && SlotsMatch(w) && r in w.calls && w.calls[r].pc == Undoing
    ensures w.calls[r].name !in w.active
  {
    if w.calls[r].name in w.active { assert BothLive(w, r, w.active[w.calls[r].name]); }
  }

  lemma SlotMarked(w: World, now: World, r: RunId)
    requires SlotsMatch(w) && r in w.calls && w.calls[r].pc == Claiming && w.calls[r].name !in w.active
    requires now.calls == At(w, r, Owned) && now.active == w.active[w.calls[r].name := r]
    ensures SlotsMatch(now)
  {
  }

  lemma SlotCleared(w: World, now: World, r: RunId)
    requires OneRun(w) && SlotsMatch(w) && r in w.calls && r in now.calls && now.calls == w.calls[r := now.calls[r]]
    requires now.calls[r].name == w.calls[r].name && !Holds(now.calls[r].pc)
    requires now.active == w.active - {w.calls[r].name} && (w.calls[r].name in w.active ==> w.active[w.calls[r].name] == r)
    ensures SlotsMatch(now)
  {
  }

  /**
   * Over every interleaving in which each call of a name begins only when the earlier calls and rollbacks of
   * that name are past their slots, and each manual rollback when the earlier calls are: at most one call is
   * between its claim and the clearing of the slot, none is ever refused, and a slot is marked exactly while
   * it is held.
   */
  lemma {:induction false} TurnsKeepExclusion(steps: seq<Step>)
    requires Played(steps).Some? && TakesTurns(steps)
    ensures Orderly(Played(steps).value)
  {
    if steps != [] {
      var n := |steps| - 1;
      TurnsKeepExclusion(steps[..n]);
      hide After;
      hide Orderly;
      hide InTurn;
      TurnStaysOrderly(Played(steps[..n]).value, steps[n]);
    }
  }

  // ── And beginning any earlier is too early ────────────────────────────────────

  /** A marked slot names a call of its own name. */
  ghost predicate Marks(w: World, n: Name)
  {
    n in w.active ==> w.active[n] in w.calls && w.calls[w.active[n]].name == n
  }

  /** What a call has seen is about a call of its name. */
  ghost predicate SawOwn(w: World, c: Call)
  {
    c.pc.Saw? && c.pc.other.Some? ==> c.pc.other.value in w.calls && w.calls[c.pc.other.value].name == c.name
  }

  /** A call that is yet to write its record has none, and one that has completed has said so. */
  ghost predicate Candid(w: World)
  {
    && (forall r :: r in w.calls && (w.calls[r].pc == Claiming || w.calls[r].pc == Owned) ==> r !in w.records)
    && (forall r :: r in w.calls && w.calls[r].pc == Completing ==> r in w.records && w.records[r] == Completed)
    && (forall r :: r in w.records ==> r in w.calls)
  }

  lemma StepKeepsCandid(w: World, r: RunId, a: Act)
    requires Candid(w) && Enabled(w, r, a)
    ensures Candid(After(w, r, a))
  {
    var now := After(w, r, a);
    if a.Next? && now.records != w.records {
      assert r in now.records && now.records == w.records[r := now.records[r]] && now.calls == w.calls[r := now.calls[r]];
      hide After;
      hide Enabled;
      assert now.calls[r].pc != Claiming && now.calls[r].pc != Owned && (now.calls[r].pc == Completing ==> now.records[r] == Completed)
        by { WriterIsCandid(w, r, a.fails); }
    } else {
      UnwrittenIsCandid(w, r, a);
    }
  }

  lemma WriterIsCandid(w: World, r: RunId, fails: bool)
    requires Enabled(w, r, Next(fails)) && After(w, r, Next(fails)).records != w.records
    ensures var now := After(w, r, Next(fails));
      r in now.calls && now.calls[r].pc != Claiming && now.calls[r].pc != Owned
      && (now.calls[r].pc == Completing ==> r in now.records && now.records[r] == Completed)
  {
  }

  lemma UnwrittenIsCandid(w: World, r: RunId, a: Act)
    requires Candid(w) && Enabled(w, r, a) && (a.Next? ==> After(w, r, a).records == w.records)
    ensures Candid(After(w, r, a))
  {
    if a.Next? {
      var now := After(w, r, a);
      assert r in now.calls && now.calls == w.calls[r := now.calls[r]];
      assert now.calls[r].pc == Owned ==> w.calls[r].pc == Claiming;
      assert now.calls[r].pc != Claiming;
      assert now.calls[r].pc == Completing ==> r in now.records && now.records[r] == Completed;
      hide After;
      hide Enabled;
    }
  }

  lemma {:induction false} PlayedKeepsCandid(steps: seq<Step>)
    requires Played(steps).Some?
    ensures Candid(Played(steps).value)
  {
    if steps != [] {
      var n := |steps| - 1;
      PlayedKeepsCandid(steps[..n]);
      hide Candid;
      hide After;
      StepKeepsCandid(Played(steps[..n]).value, steps[n].r, steps[n].a);
    }
  }

  /** What the records say of calls, as long as nobody has overwritten a marker or rolled back by hand. */
  ghost predicate Recorded(w: World)
  {
    && (forall r :: r in w.records && w.records[r] == InProgress ==>
          r in w.calls && (w.calls[r].pc == Working || w.calls[r].pc == Cleared))
    && (forall r :: r in w.calls ==> SawOwn(w, w.calls[r]))
  }

  lemma StepKeepsRecorded(w: World, r: RunId, a: Act)
    requires Inv(w) && Recorded(w) && Enabled(w, r, a) && Quiet(w) && Quiet(After(w, r, a))
    ensures Recorded(After(w, r, a))
  {
    var now := After(w, r, a);
    assert r in now.calls && !Overwrites(now.calls[r].pc);
    assert r in w.calls ==> !Overwrites(w.calls[r].pc);
    if a.Begin? {
      BeginKeepsRecorded(w, r, a.name);
    } else {
      assert Marks(w, w.calls[r].name);
      hide Inv;
      hide Quiet;
      NextKeepsRecorded(w, r, a.fails);
    }
  }

  lemma NextKeepsRecorded(w: World, r: RunId, fails: bool)
    requires Recorded(w) && Enabled(w, r, Next(fails)) && !Overwrites(w.calls[r].pc) && Marks(w, w.calls[r].name)
    requires !Overwrites(After(w, r, Next(fails)).calls[r].pc)
    ensures Recorded(After(w, r, Next(fails)))
  {
    hide Recorded;
    var now, pc := After(w, r, Next(fails)), w.calls[r].pc;
    if pc == Owned || pc == Cleared || (pc == Working && !fails) {
      WritingKeepsRecorded(w, now, r);
    } else {
      QuietCallKeepsRecorded(w, now, r);
    }
    hide After;
    hide Enabled;
  }

  lemma BeginKeepsRecorded(w: World, r: RunId, name: Name)
    requires Inv(w) && Recorded(w) && Enabled(w, r, Begin(name))
    ensures Recorded(After(w, r, Begin(name)))
  {
    assert r !in w.records;
  }

  lemma QuietCallKeepsRecorded(w: World, now: World, r: RunId)
    requires Recorded(w) && r in w.calls && r in now.calls && now.calls == w.calls[r := now.calls[r]]
    requires now.calls[r].name == w.calls[r].name && now.records == w.records
    requires w.calls[r].pc == Working ==> now.calls[r].pc == Cleared
    requires w.calls[r].pc != Cleared
    requires SawOwn(w, now.calls[r])
    ensures Recorded(now)
  {
  }

  /** The record a call writes says where it stands. */
  lemma WritingKeepsRecorded(w: World, now: World, r: RunId)
    requires Recorded(w) && r in w.calls && r in now.calls && now.calls == w.calls[r := now.calls[r]]
    requires now.calls[r].name == w.calls[r].name && r in now.records && now.records == w.records[r := now.records[r]]
    requires (now.calls[r].pc == Working && now.records[r] == InProgress)
      || (now.calls[r].pc == Completing && now.records[r] == Completed)
      || (now.calls[r].pc == Done && now.records[r] != InProgress)
    ensures Recorded(now)
  {
  }

  lemma {:induction false} PlayedKeepsRecorded(steps: seq<Step>)
    requires Played(steps).Some? && Undisturbed(steps)
    ensures Recorded(Played(steps).value)
  {
    if steps != [] {
      var n := |steps| - 1;
      PlayedKeepsRecorded(steps[..n]);
      PlayedKeepsInv(steps[..n]);
      PlayedKeepsInv(steps);
      hide After;
      hide Inv;
      hide Recorded;
      StepKeepsRecorded(Played(steps[..n]).value, steps[n].r, steps[n].a);
    }
  }

  /** `more` goes on from `steps` with `first`, which begins a call or a rollback, and begins nothing after it. */
  ghost predicate Continues(steps: seq<Step>, first: Step, more: seq<Step>)
  {
    && |more| > |steps| && more[..|steps|] == steps && more[|steps|] == first
    && forall i :: |steps| < i < |more| ==> more[i].a.Next?
  }

  /** Two calls of the name are between claiming the slot and clearing it. */
  ghost predicate TwoHold(w: World, n: Name)
  {
    exists r, s :: r in w.calls && s in w.calls && r != s && w.calls[r].name == n && w.calls[s].name == n
      && Holds(w.calls[r].pc) && Holds(w.calls[s].pc)
  }

  /** A continuation under way, and where it has got to. */
  ghost predicate Reaches(steps: seq<Step>, first: Step, more: seq<Step>, w: World)
  {
    Continues(steps, first, more) && Played(more) == Some(w)
  }

  lemma Start(steps: seq<Step>, first: Step) returns (more: seq<Step>, w: World)
    requires Played(steps).Some? && Enabled(Played(steps).value, first.r, first.a)
    ensures Reaches(steps, first, more, w) && w == After(Played(steps).value, first.r, first.a)
  {
    PlayedOneMore(steps, first);
    more, w := steps + [first], After(Played(steps).value, first.r, first.a);
  }

  lemma Go(steps: seq<Step>, first: Step, sofar: seq<Step>, w: World, r: RunId) returns (more: seq<Step>, now: World)
    requires Reaches(steps, first, sofar, w) && Enabled(w, r, Next(false))
    ensures Reaches(steps, first, more, now) && now == After(w, r, Next(false))
  {
    PlayedOneMore(sofar, Step(r, Next(false)));
    more, now := sofar + [Step(r, Next(false))], After(w, r, Next(false));
  }

  /** The new call finds a marker with no run in progress behind it, and takes the slot from its holder. */
  lemma TakesFrom(steps: seq<Step>, s: RunId, n: Name, sofar: seq<Step>, w: World, h: RunId) returns (more: seq<Step>)
    requires Reaches(steps, Step(s, Begin(n)), sofar, w) && s in w.calls && w.calls[s] == Call(n, Claiming)
    requires n in w.active && w.active[n] == h && h != s && h in w.calls && w.calls[h].name == n && Holds(w.calls[h].pc)
    requires h in w.records ==> w.records[h] != InProgress
    ensures Continues(steps, Step(s, Begin(n)), more) && Played(more).Some? && TwoHold(Played(more).value, n)
  {
    hide Reaches;
    var now;
    more, now := Go(steps, Step(s, Begin(n)), sofar, w, s);
    more, now := Go(steps, Step(s, Begin(n)), more, now, s);
    assert now == w.(calls := w.calls[s := Call(n, Saw(Some(h)))]);
    more := OverwritesSeen(steps, s, n, more, now, h);
  }

  lemma OverwritesSeen(steps: seq<Step>, s: RunId, n: Name, sofar: seq<Step>, w: World, h: RunId) returns (more: seq<Step>)
    requires Reaches(steps, Step(s, Begin(n)), sofar, w) && s in w.calls && w.calls[s] == Call(n, Saw(Some(h)))
    requires h != s && h in w.calls && w.calls[h].name == n && Holds(w.calls[h].pc)
    requires h in w.records ==> w.records[h] != InProgress
    ensures Continues(steps, Step(s, Begin(n)), more) && Played(more).Some? && TwoHold(Played(more).value, n)
  {
    var now;
    more, now := Go(steps, Step(s, Begin(n)), sofar, w, s);
    hide Reaches;
    more := MarksToo(steps, s, n, more, now, s, h);
  }

  /** A call that takes the marker for stale overwrites it while another holds the slot. */
  lemma MarksToo(steps: seq<Step>, s: RunId, n: Name, sofar: seq<Step>, w: World, r: RunId, h: RunId) returns (more: seq<Step>)
    requires Reaches(steps, Step(s, Begin(n)), sofar, w) && r in w.calls && w.calls[r] == Call(n, Reclaiming)
    requires h != r && h in w.calls && w.calls[h].name == n && Holds(w.calls[h].pc)
    ensures Continues(steps, Step(s, Begin(n)), more) && Played(more).Some? && TwoHold(Played(more).value, n)
  {
    var now;
    more, now := Go(steps, Step(s, Begin(n)), sofar, w, r);
    more, now := Go(steps, Step(s, Begin(n)), more, now, r);
    assert Holds(now.calls[r].pc) && Holds(now.calls[h].pc);
  }

  /** The slot is free and another call has taken an older marker for stale: the new one claims, then it marks. */
  lemma BothTake(steps: seq<Step>, s: RunId, n: Name, sofar: seq<Step>, w: World, r: RunId) returns (more: seq<Step>)
    requires Reaches(steps, Step(s, Begin(n)), sofar, w) && r in w.calls && w.calls[r] == Call(n, Reclaiming)
    requires s != r && s in w.calls && w.calls[s] == Call(n, Claiming) && n !in w.active
    ensures Continues(steps, Step(s, Begin(n)), more) && Played(more).Some? && TwoHold(Played(more).value, n)
  {
    var now;
    more, now := Go(steps, Step(s, Begin(n)), sofar, w, s);
    hide Reaches;
    more := MarksToo(steps, s, n, more, now, r, s);
  }

  /** A name's slot is held: its holder ends its record if it has one, and the new call takes the slot from it. */
  lemma HeldAdmitsTwo(steps: seq<Step>, n: Name, s: RunId) returns (more: seq<Step>)
    requires Played(steps).Some? && Candid(Played(steps).value) && s !in Played(steps).value.calls
    requires var w := Played(steps).value; n in w.active && w.active[n] in w.calls && Holds(w.calls[w.active[n]].pc) && w.calls[w.active[n]].name == n
    ensures Continues(steps, Step(s, Begin(n)), more) && Played(more).Some? && TwoHold(Played(more).value, n)
  {
    var w;
    var h := Played(steps).value.active[n];
    more, w := Start(steps, Step(s, Begin(n)));
    hide Reaches;
    assert h in w.calls && w.calls[h].name == n && Holds(w.calls[h].pc) && h != s;
    if w.calls[h].pc == Working {
      more, w := Go(steps, Step(s, Begin(n)), more, w, h);
    }
    more := TakesFrom(steps, s, n, more, w, h);
  }

  lemma FreeAdmitsTwo(steps: seq<Step>, n: Name, r: RunId, s: RunId) returns (more: seq<Step>)
    requires Played(steps).Some? && Candid(Played(steps).value) && Inv(Played(steps).value) && Recorded(Played(steps).value) && Quiet(Played(steps).value)
    requires var w := Played(steps).value;
      n !in w.active && s !in w.calls && r in w.calls && w.calls[r].name == n && Live(w.calls[r].pc)
    ensures Continues(steps, Step(s, Begin(n)), more) && Played(more).Some? && TwoHold(Played(more).value, n)
  {
    var w;
    more, w := Start(steps, Step(s, Begin(n)));
    hide Reaches;
    var pc := w.calls[r].pc;
    assert !Overwrites(Played(steps).value.calls[r].pc) && !Holds(pc);
    if pc == Claiming {
      more, w := Go(steps, Step(s, Begin(n)), more, w, r);
      more := TakesFrom(steps, s, n, more, w, r);
    } else {
      more, w := GivesUpReading(steps, s, n, more, w, r);
      more := BothTake(steps, s, n, more, w, r);
    }
  }

  /** A refused call whose holder has gone comes to take the marker for stale. */
  lemma GivesUpReading(steps: seq<Step>, s: RunId, n: Name, sofar: seq<Step>, w: World, r: RunId)
    returns (more: seq<Step>, now: World)
    requires Reaches(steps, Step(s, Begin(n)), sofar, w) && r != s && r in w.calls && w.calls[r].name == n && n !in w.active
    requires w.calls[r].pc == Refused || w.calls[r].pc.Saw? || w.calls[r].pc == Reclaiming
    requires Recorded(w) && s in w.calls && w.calls[s] == Call(n, Claiming)
    requires forall q :: q in w.calls && w.calls[q].name == n ==> !Holds(w.calls[q].pc)
    ensures Reaches(steps, Step(s, Begin(n)), more, now) && n !in now.active && s in now.calls && now.calls[s] == Call(n, Claiming)
    ensures r in now.calls && now.calls[r] == Call(n, Reclaiming)
  {
    hide Reaches;
    more, now := sofar, w;
    if now.calls[r].pc == Refused {
      more, now := Go(steps, Step(s, Begin(n)), more, now, r);
    } else if now.calls[r].pc.Saw? {
      var o := now.calls[r].pc.other;
      if o.Some? && o.value in now.records && now.records[o.value] == InProgress {
        assert now.calls[o.value].pc == Cleared;
        more, now := Go(steps, Step(s, Begin(n)), more, now, o.value);
      }
    }
    if now.calls[r].pc.Saw? {
      more, now := Go(steps, Step(s, Begin(n)), more, now, r);
    }
  }

  /** With any live call of the name around, beginning one more lets two be past their claims at once. */
  lemma BeginningEarlyAdmitsTwo(steps: seq<Step>, n: Name, r: RunId, s: RunId) returns (more: seq<Step>)
    requires Played(steps).Some? && Undisturbed(steps)
    requires var w := Played(steps).value; s !in w.calls && r in w.calls && w.calls[r].name == n && Live(w.calls[r].pc)
    ensures Continues(steps, Step(s, Begin(n)), more) && Played(more).Some? && TwoHold(Played(more).value, n)
  {
    PlayedKeepsInv(steps);
    PlayedKeepsCandid(steps);
    PlayedKeepsRecorded(steps);
    if n in Played(steps).value.active {
      more := HeldAdmitsTwo(steps, n, s);
    } else {
      more := FreeAdmitsTwo(steps, n, r, s);
    }
  }

  // ── Exactly when a call or a rollback is safe ─────────────────────────────────

  /** A call holds a slot that is not marked with it. */
  ghost predicate HeldUnmarked(w: World, n: Name)
  {
    exists r :: r in w.calls && w.calls[r].name == n && Holds(w.calls[r].pc) && !(n in w.active && w.active[n] == r)
  }

  /** Two calls hold the slot of the name, or one does and the slot is free for another. */
  ghost predicate Harm(w: World, n: Name) { TwoHold(w, n) || HeldUnmarked(w, n) }

  function NameOf(w: World, s: Step): Name
    requires Enabled(w, s.r, s.a) && !s.a.Next?
  {
    if s.a.Begin? then s.a.name else w.calls[s.r].name
  }

  lemma OrderlyIsHarmless(w: World, n: Name)
    requires Orderly(w)
    ensures !Harm(w, n)
  {
  }

  lemma {:induction false} ContinuedStaysOrderly(steps: seq<Step>, first: Step, more: seq<Step>)
    requires Played(steps).Some? && Orderly(Played(steps).value) && InTurn(Played(steps).value, first)
    requires Continues(steps, first, more) && Played(more).Some?
    ensures Orderly(Played(more).value)
    decreases |more|
  {
    hide Orderly;
    hide InTurn;
    hide After;
    var k := |more| - 1;
    if k == |steps| {
      assert more[..k] == steps;
      TurnStaysOrderly(Played(steps).value, first);
    } else {
      assert more[..k][..|steps|] == steps;
      ContinuedStaysOrderly(steps, first, more[..k]);
      assert InTurn(Played(more[..k]).value, more[k]) by { NextIsInTurn(Played(more[..k]).value, more[k]); }
      TurnStaysOrderly(Played(more[..k]).value, more[k]);
    }
  }

  lemma NextIsInTurn(w: World, s: Step)
    requires s.a.Next?
    ensures InTurn(w, s)
  {
  }

  /** A rollback that is under way clears a slot that a call has claimed meanwhile. */
  lemma ClearsFrom(steps: seq<Step>, first: Step, sofar: seq<Step>, w: World, n: Name, u: RunId, h: RunId) returns (more: seq<Step>)
    requires Reaches(steps, first, sofar, w) && u in w.calls && w.calls[u] == Call(n, Undoing)
    requires h in w.calls && w.calls[h].name == n && h != u && Holds(w.calls[h].pc)
    ensures Continues(steps, first, more) && Played(more).Some? && HeldUnmarked(Played(more).value, n)
  {
    var now;
    more, now := Go(steps, first, sofar, w, u);
    assert now.calls[h] == w.calls[h] && n !in now.active;
  }

  /** A call begun while a rollback of its name is under way. */
  lemma BeginDuringRollback(steps: seq<Step>, n: Name, u: RunId, s: RunId) returns (more: seq<Step>)
    requires Played(steps).Some?
    requires var w := Played(steps).value; s !in w.calls && u in w.calls && w.calls[u] == Call(n, Undoing) && n !in w.active
    ensures Continues(steps, Step(s, Begin(n)), more) && Played(more).Some? && HeldUnmarked(Played(more).value, n)
  {
    var w;
    more, w := Start(steps, Step(s, Begin(n)));
    hide Reaches;
    more, w := Go(steps, Step(s, Begin(n)), more, w, s);
    more := ClearsFrom(steps, Step(s, Begin(n)), more, w, n, u, s);
  }

  /** A rollback begun while a call of its name is on its way to the slot or holds it. */
  lemma RollbackDuringRun(steps: seq<Step>, n: Name, u: RunId, q: RunId) returns (more: seq<Step>)
    requires Played(steps).Some? && Enabled(Played(steps).value, u, Undo) && Played(steps).value.calls[u].name == n
    requires var w := Played(steps).value;
      q in w.calls && q != u && w.calls[q].name == n && (Holds(w.calls[q].pc) || (w.calls[q].pc == Claiming && n !in w.active))
    ensures Continues(steps, Step(u, Undo), more) && Played(more).Some? && HeldUnmarked(Played(more).value, n)
  {
    var w;
    more, w := Start(steps, Step(u, Undo));
    hide Reaches;
    if w.calls[q].pc == Claiming { more, w := Go(steps, Step(u, Undo), more, w, q); }
    more := ClearsFrom(steps, Step(u, Undo), more, w, n, u, q);
  }

  /** In an orderly world, a live call holds the marked slot, is about to claim the free one, or rolls back. */
  lemma LiveInOrder(w: World, n: Name, q: RunId)
    requires Orderly(w) && q in w.calls && w.calls[q].name == n && Live(w.calls[q].pc)
    ensures Holds(w.calls[q].pc) ==> n in w.active && w.active[n] == q
    ensures !Holds(w.calls[q].pc) ==> (w.calls[q].pc == Claiming || w.calls[q].pc == Undoing) && n !in w.active
  {
    if n in w.active { assert BothLive(w, q, w.active[n]); }
  }

  lemma BeginningOutOfTurnHarms(steps: seq<Step>, n: Name, s: RunId) returns (more: seq<Step>)
    requires Played(steps).Some? && Orderly(Played(steps).value) && Candid(Played(steps).value)
    requires s !in Played(steps).value.calls && !NoOther(Played(steps).value, n, s)
    ensures Continues(steps, Step(s, Begin(n)), more) && Played(more).Some? && Harm(Played(more).value, n)
  {
    var w := Played(steps).value;
    var q :| q in w.calls && q != s && w.calls[q].name == n && Live(w.calls[q].pc);
    LiveInOrder(w, n, q);
    if Holds(w.calls[q].pc) {
      more := HeldAdmitsTwo(steps, n, s);
    } else if w.calls[q].pc == Undoing {
      more := BeginDuringRollback(steps, n, q, s);
    } else {
      more := ClaimingAdmitsTwo(steps, n, q, s);
    }
  }

  lemma ClaimingAdmitsTwo(steps: seq<Step>, n: Name, q: RunId, s: RunId) returns (more: seq<Step>)
    requires Played(steps).Some? && Candid(Played(steps).value)
    requires var w := Played(steps).value; s !in w.calls && q in w.calls && w.calls[q] == Call(n, Claiming) && n !in w.active
    ensures Continues(steps, Step(s, Begin(n)), more) && Played(more).Some? && TwoHold(Played(more).value, n)
  {
    var now;
    more, now := Start(steps, Step(s, Begin(n)));
    hide Reaches;
    more, now := Go(steps, Step(s, Begin(n)), more, now, q);
    more := TakesFrom(steps, s, n, more, now, q);
  }

  lemma RollingBackOutOfTurnHarms(steps: seq<Step>, u: RunId) returns (more: seq<Step>)
    requires Played(steps).Some? && Orderly(Played(steps).value) && Enabled(Played(steps).value, u, Undo)
    requires !NoOtherRun(Played(steps).value, Played(steps).value.calls[u].name, u)
    ensures Continues(steps, Step(u, Undo), more) && Played(more).Some?
         && HeldUnmarked(Played(more).value, Played(steps).value.calls[u].name)
  {
    var w := Played(steps).value;
    var n := w.calls[u].name;
    var q :| q in w.calls && q != u && w.calls[q].name == n && Live(w.calls[q].pc) && w.calls[q].pc != Undoing;
    LiveInOrder(w, n, q);
    more := RollbackDuringRun(steps, n, u, q);
  }

  lemma InTurnIsSafe(steps: seq<Step>, first: Step, more: seq<Step>)
    requires Played(steps).Some? && TakesTurns(steps) && Enabled(Played(steps).value, first.r, first.a) && !first.a.Next?
    requires InTurn(Played(steps).value, first) && Continues(steps, first, more) && Played(more).Some?
    ensures !Harm(Played(more).value, NameOf(Played(steps).value, first))
  {
    hide Played;
    hide TakesTurns;
    hide Orderly;
    hide InTurn;
    hide Harm;
    TurnsKeepExclusion(steps);
    ContinuedStaysOrderly(steps, first, more);
    OrderlyIsHarmless(Played(more).value, NameOf(Played(steps).value, first));
  }

  lemma OutOfTurnHarms(steps: seq<Step>, first: Step) returns (more: seq<Step>)
    requires Played(steps).Some? && TakesTurns(steps) && Enabled(Played(steps).value, first.r, first.a) && !first.a.Next?
    requires !InTurn(Played(steps).value, first)
    ensures Continues(steps, first, more) && Played(more).Some? && Harm(Played(more).value, NameOf(Played(steps).value, first))
  {
    hide Played;
    hide TakesTurns;
    hide Orderly;
    hide Candid;
    TurnsKeepExclusion(steps);
    PlayedKeepsCandid(steps);
    hide TwoHold;
    hide HeldUnmarked;
    hide Continues;
    if first.a.Begin? {
      more := BeginningOutOfTurnHarms(steps, first.a.name, first.r);
      assert first == Step(first.r, Begin(first.a.name));
    } else {
      more := RollingBackOutOfTurnHarms(steps, first.r);
      assert first == Step(first.r, Undo);
    }
  }

  /**
   * After any turn-taking history, rollbacks included: beginning a call, or a manual rollback, is safe in every
   * continuation that begins nothing else exactly if it is its turn. Otherwise two calls can come to hold the
   * slot, or the slot of a call that holds it can come to be free.
   */
  lemma SafeIffInTurn(steps: seq<Step>, first: Step)
    requires Played(steps).Some? && TakesTurns(steps) && Enabled(Played(steps).value, first.r, first.a) && !first.a.Next?
    ensures InTurn(Played(steps).value, first) <==>
      forall more :: Continues(steps, first, more) && Played(more).Some? ==>
        !Harm(Played(more).value, NameOf(Played(steps).value, first))
  {
    hide Played;
    hide TakesTurns;
    hide Harm;
    hide Enabled;
    if InTurn(Played(steps).value, first) {
      forall more | Continues(steps, first, more) && Played(more).Some?
        ensures !Harm(Played(more).value, NameOf(Played(steps).value, first))
      {
        InTurnIsSafe(steps, first, more);
      }
    } else {
      var more := OutOfTurnHarms(steps, first);
    }
  }

  // ── Histories without rollbacks and takeovers ─────────────────────────────────

  lemma {:induction false} OnlyNewIsLive(steps: seq<Step>, s: RunId, n: Name, more: seq<Step>)
    requires Played(steps).Some? && NoOther(Played(steps).value, n, s) && s !in Played(steps).value.calls
    requires Continues(steps, Step(s, Begin(n)), more) && Played(more).Some?
    ensures NoOther(Played(more).value, n, s)
    decreases |more|
  {
    var k := |more| - 1;
    if k == |steps| {
      assert more[..k] == steps;
    } else {
      assert more[..k][..|steps|] == steps;
      OnlyNewIsLive(steps, s, n, more[..k]);
      NextRaisesNoOther(Played(more[..k]).value, n, s, more[k].r, more[k].a.fails);
    }
  }

  lemma NextRaisesNoOther(w: World, n: Name, s: RunId, r: RunId, fails: bool)
    requires NoOther(w, n, s) && Enabled(w, r, Next(fails))
    ensures NoOther(After(w, r, Next(fails)), n, s)
  {
  }

  /**
   * The same for calls alone after any history, in turn or not, in which nothing was overwritten as stale or
   * rolled back by hand: beginning one more is safe exactly if no earlier call of its name is live.
   */
  lemma BeginIsSafeIffInTurn(steps: seq<Step>, n: Name, s: RunId)
    requires Played(steps).Some? && Undisturbed(steps) && s !in Played(steps).value.calls
    ensures InTurn(Played(steps).value, Step(s, Begin(n))) <==>
      forall more :: Continues(steps, Step(s, Begin(n)), more) && Played(more).Some? ==> !TwoHold(Played(more).value, n)
  {
    var w := Played(steps).value;
    if InTurn(w, Step(s, Begin(n))) {
      forall more | Continues(steps, Step(s, Begin(n)), more) && Played(more).Some? ensures !TwoHold(Played(more).value, n) {
        OnlyNewIsLive(steps, s, n, more);
      }
    } else {
      var r :| r in w.calls && r != s && w.calls[r].name == n && Live(w.calls[r].pc);
      var _ := BeginningEarlyAdmitsTwo(steps, n, r, s);
    }
  }
}
