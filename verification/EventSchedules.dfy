// Interleaving the event groups of one batch: each group is a runner whose log check, row read, row
// write and log write are separate steps.
module EventSchedules {
  import opened Common
  import Escrow
  import opened EventHandling

  /** Where a runner is within its current event: at its log check, its first read, a later store command
      of its handler, or the write of its record. */
  datatype Phase = Ready | Checked | Midway(c: Escrow.ContractId, mid: Mid) | Wrote(ok: bool)

  /** `n` events are behind the runner; any phase but `Ready` is within event `n`. */
  datatype Cursor = Cursor(n: nat, phase: Phase)

  datatype Batch = Batch(s: State, at: seq<Cursor>)

  function Struck(s: State, e: Event, c: Escrow.ContractId, m: Mid, n: nat, sagas: bool): (State, Cursor)
  {
    var (row, p) := Stride(RowAt(s.rows, c), e, c, m, sagas);
    (s.(rows := PutRow(s.rows, c, row)), Cursor(n, if p.Done? then Wrote(p.ok) else Midway(c, p.mid)))
  }

  /** One step of the runner of group `es`. */
  function Advance(s: State, es: seq<Event>, c: Cursor, sagas: bool): (State, Cursor)
    requires c.n < |es|
  {
    var e := es[c.n];
    match c.phase
    case Ready => (s, if IdOf(e) in s.log then Cursor(c.n + 1, Ready) else Cursor(c.n, Checked))
    case Checked =>
      if Touch(e).None? then (s, Cursor(c.n, Wrote(e.kind == OtherKind)))
      else Struck(s, e, Touch(e).value, Start, c.n, sagas)
    case Midway(t, m) => Struck(s, e, t, m, c.n, sagas)
    case Wrote(ok) => (s.(log := s.log[IdOf(e) := ok]), Cursor(c.n + 1, Ready))
  }

  predicate Finished(es: seq<Event>, c: Cursor) { |es| <= c.n }

  /** The runner is past the guards of an escalation of `c` and has not finished it. */
  predicate Escalates(phase: Phase, c: Escrow.ContractId)
  {
    phase.Midway? && phase.c == c && HoldsLock(phase.mid)
  }

  /** The runner waits for the lock of an escalation another one holds. */
  predicate Waits(b: Batch, k: nat)
    requires k < |b.at|
  {
    b.at[k].phase.Midway? && b.at[k].phase.mid.Screened?
    && exists m :: 0 <= m < |b.at| && m != k && Escalates(b.at[m].phase, b.at[k].phase.c)
  }

  predicate CanStep(gs: seq<seq<Event>>, b: Batch, k: nat)
    requires |b.at| == |gs|
  {
    k < |gs| && !Finished(gs[k], b.at[k]) && !Waits(b, k)
  }

  /** Runner `k` takes a step; one that is finished, waits or does not exist does nothing. */
  function StepOf(gs: seq<seq<Event>>, b: Batch, k: nat, sagas: bool): Batch
    requires |b.at| == |gs|
  {
    if CanStep(gs, b, k) then
      var (s, c) := Advance(b.s, gs[k], b.at[k], sagas);
      Batch(s, b.at[k := c])
    else b
  }

  function Begin(gs: seq<seq<Event>>, s: State): Batch
  {
    Batch(s, seq(|gs|, _ => Cursor(0, Ready)))
  }

  /** The batch after the runners named by `schedule` have stepped, in that order. */
  function Played(gs: seq<seq<Event>>, s: State, schedule: seq<nat>, sagas: bool): (b: Batch)
    ensures |b.at| == |gs|
  {
    if schedule == [] then Begin(gs, s)
    else StepOf(gs, Played(gs, s, schedule[..|schedule| - 1], sagas), schedule[|schedule| - 1], sagas)
  }

  predicate AllFinished(gs: seq<seq<Event>>, b: Batch)
    requires |b.at| == |gs|
  {
    forall k :: 0 <= k < |gs| ==> Finished(gs[k], b.at[k])
  }

  /** The groups one after another. */
  function Concat(gs: seq<seq<Event>>): seq<Event>
  {
    if gs == [] then [] else Concat(gs[..|gs| - 1]) + gs[|gs| - 1]
  }

  /** Events of different groups share neither a record nor a row. */
  ghost predicate GroupsApart(gs: seq<seq<Event>>)
  {
    forall k, m, i, j | 0 <= k < |gs| && 0 <= m < |gs| && k != m && 0 <= i < |gs[k]| && 0 <= j < |gs[m]| ::
      Apart(gs[k][i], gs[m][j])
  }

  // ── The invariant ─────────────────────────────────────────────────────────────

  /** The state in which the runner's current event, if it is within one, has been finished. */
  function Ahead(s: State, es: seq<Event>, c: Cursor, sagas: bool): State
  {
    if |es| <= c.n then s
    else
      var e := es[c.n];
      match c.phase
      case Ready => s
      case Checked => Process(s, e, sagas)
      case Midway(t, m) =>
        var (row, ok) := Complete(RowAt(s.rows, t), e, t, m, sagas);
        State(PutRow(s.rows, t, row), s.log[IdOf(e) := ok])
      case Wrote(ok) => s.(log := s.log[IdOf(e) := ok])
  }

  function Behind(c: Cursor): nat { if c.phase.Ready? then c.n else c.n + 1 }

  /** To its own events, group `es` looks as if it alone had run on `s0`. */
  ghost predicate OnTrack(s0: State, s: State, es: seq<Event>, c: Cursor, sagas: bool)
  {
    && Behind(c) <= |es|
    && (c.phase.Checked? ==> IdOf(es[c.n]) !in s.log)
    && (c.phase.Midway? ==> Touch(es[c.n]) == Some(c.phase.c))
    && SameView(Ahead(s, es, c, sagas), Run(s0, es[..Behind(c)], sagas), es)
  }

  ghost predicate Inv(gs: seq<seq<Event>>, s0: State, b: Batch, sagas: bool)
  {
    && |b.at| == |gs|
    && (forall k :: 0 <= k < |gs| ==> OnTrack(s0, b.s, gs[k], b.at[k], sagas))
    && (forall c | Spared(gs, c) :: RowAt(b.s.rows, c) == RowAt(s0.rows, c))
    && (forall id | Unnamed(gs, id) :: LogAt(b.s, id) == LogAt(s0, id))
  }

  /** No event of the batch touches row `c`. */
  ghost predicate Spared(gs: seq<seq<Event>>, c: Escrow.ContractId)
  {
    forall k, i | 0 <= k < |gs| && 0 <= i < |gs[k]| :: Touch(gs[k][i]) != Some(c)
  }

  /** No event of the batch has id `id`. */
  ghost predicate Unnamed(gs: seq<seq<Event>>, id: EventId)
  {
    forall k, i | 0 <= k < |gs| && 0 <= i < |gs[k]| :: IdOf(gs[k][i]) != id
  }

  lemma RunOneMore(s: State, es: seq<Event>, n: nat, sagas: bool)
    requires n < |es|
    ensures Run(s, es[..n + 1], sagas) == Process(Run(s, es[..n], sagas), es[n], sagas)
  {
    assert es[..n + 1][..n] == es[..n];
  }

  lemma SameViewChains(a: State, b: State, c: State, es: seq<Event>)
    requires SameView(a, b, es) && SameView(b, c, es)
    ensures SameView(a, c, es)
  {
    forall i | 0 <= i < |es| ensures SameAt(a, c, es[i]) {
      assert SameAt(a, b, es[i]) && SameAt(b, c, es[i]);
    }
  }

  lemma ViewIsLocal(s: State, s': State, es: seq<Event>, n: nat, sagas: bool)
    requires n < |es| && SameView(s, s', es)
    ensures SameView(Process(s, es[n], sagas), Process(s', es[n], sagas), es)
  {
    hide Process;
    forall i | 0 <= i < |es| ensures SameAt(Process(s, es[n], sagas), Process(s', es[n], sagas), es[i]) {
      ProcessIsLocal(s, s', es[n], es[i], sagas);
    }
  }

  /** Picking up the next event. */
  lemma BeginKeepsTrack(s0: State, s: State, es: seq<Event>, c: Cursor, sagas: bool)
    requires OnTrack(s0, s, es, c, sagas) && c.n < |es| && c.phase.Ready?
    ensures OnTrack(s0, s, es, Advance(s, es, c, sagas).1, sagas)
  {
    hide Handle;
    var done := Run(s0, es[..c.n], sagas);
    ViewIsLocal(s, done, es, c.n, sagas);
    RunOneMore(s0, es, c.n, sagas);
  }

  lemma PutTwice(rows: map<Escrow.ContractId, Row>, t: Escrow.ContractId, first: Option<Row>, last: Option<Row>)
    requires (first.None? ==> RowAt(rows, t).None?) && (last.None? ==> first.None?)
    ensures RowAt(PutRow(rows, t, first), t) == first
    ensures PutRow(PutRow(rows, t, first), t, last) == PutRow(rows, t, last)
  {
  }

  /** A handler's own store command does not change what the rest of it leads to. */
  lemma StruckKeepsAhead(s: State, es: seq<Event>, n: nat, t: Escrow.ContractId, m: Mid, sagas: bool)
    requires n < |es|
    ensures var (row, ok) := Complete(RowAt(s.rows, t), es[n], t, m, sagas);
      var (s', d) := Struck(s, es[n], t, m, n, sagas);
      Ahead(s', es, d, sagas) == State(PutRow(s.rows, t, row), s.log[IdOf(es[n]) := ok])
  {
    var (now, p) := Stride(RowAt(s.rows, t), es[n], t, m, sagas);
    var (row, ok) := Complete(RowAt(s.rows, t), es[n], t, m, sagas);
    if p.Next? { assert (row, ok) == Complete(now, es[n], t, p.mid, sagas); }
    hide Complete;
    hide Stride;
    PutTwice(s.rows, t, now, row);
  }

  /** The first store command. */
  lemma ReadKeepsTrack(s0: State, s: State, es: seq<Event>, c: Cursor, sagas: bool)
    requires OnTrack(s0, s, es, c, sagas) && c.n < |es| && c.phase.Checked?
    ensures OnTrack(s0, Advance(s, es, c, sagas).0, es, Advance(s, es, c, sagas).1, sagas)
  {
    hide Run;
    var (s', d) := Advance(s, es, c, sagas);
    if Touch(es[c.n]).Some? { StruckKeepsAhead(s, es, c.n, Touch(es[c.n]).value, Start, sagas); }
    hide Complete;
    hide Stride;
    assert Ahead(s', es, d, sagas) == Ahead(s, es, c, sagas);
  }

  lemma OwnStepKeepsTrack(s0: State, s: State, es: seq<Event>, c: Cursor, sagas: bool)
    requires OnTrack(s0, s, es, c, sagas) && c.n < |es|
    ensures OnTrack(s0, Advance(s, es, c, sagas).0, es, Advance(s, es, c, sagas).1, sagas)
  {
    hide Handle;
    hide Run;
    if c.phase.Ready? {
      BeginKeepsTrack(s0, s, es, c, sagas);
    } else if c.phase.Checked? {
      ReadKeepsTrack(s0, s, es, c, sagas);
    } else {
      var (s', d) := Advance(s, es, c, sagas);
      if c.phase.Midway? { StruckKeepsAhead(s, es, c.n, c.phase.c, c.phase.mid, sagas); }
      hide Complete;
      hide Stride;
      assert Ahead(s', es, d, sagas) == Ahead(s, es, c, sagas);
    }
  }

  /** A runner's step is out of sight of every event apart from its own. */
  lemma StepLeavesOthers(s: State, es: seq<Event>, c: Cursor, f: Event, sagas: bool)
    requires c.n < |es| && Apart(es[c.n], f)
    requires c.phase.Midway? ==> Touch(es[c.n]) == Some(c.phase.c)
    ensures SameAt(Advance(s, es, c, sagas).0, s, f)
  {
    hide Handle;
  }

  lemma AheadIsLocal(s: State, s': State, es: seq<Event>, c: Cursor, f: Event, sagas: bool)
    requires c.n < |es| ==> SameAt(s, s', es[c.n])
    requires c.n < |es| && c.phase.Midway? ==> Touch(es[c.n]) == Some(c.phase.c)
    requires SameAt(s, s', f)
    ensures SameAt(Ahead(s, es, c, sagas), Ahead(s', es, c, sagas), f)
  {
    hide Complete;
    hide Handle;
    hide Process;
    if c.n < |es| { ProcessIsLocal(s, s', es[c.n], f, sagas); }
  }

  lemma OtherStepKeepsTrack(s0: State, s: State, s': State, es: seq<Event>, c: Cursor, sagas: bool)
    requires OnTrack(s0, s, es, c, sagas) && SameView(s', s, es)
    ensures OnTrack(s0, s', es, c, sagas)
  {
    hide Ahead;
    hide Run;
    if c.phase.Checked? { assert SameAt(s', s, es[c.n]); }
    forall i | 0 <= i < |es| ensures SameAt(Ahead(s', es, c, sagas), Ahead(s, es, c, sagas), es[i]) {
      assert SameAt(s', s, es[i]);
      if c.n < |es| { assert SameAt(s', s, es[c.n]); }
      AheadIsLocal(s', s, es, c, es[i], sagas);
    }
    SameViewChains(Ahead(s', es, c, sagas), Ahead(s, es, c, sagas), Run(s0, es[..Behind(c)], sagas), es);
  }

  /** Rows and records that no event of the group names stay as they are. */
  lemma StepKeepsRest(s: State, es: seq<Event>, c: Cursor, sagas: bool)
    requires c.n < |es|
    requires c.phase.Midway? ==> Touch(es[c.n]) == Some(c.phase.c)
    ensures forall t: Escrow.ContractId :: Touch(es[c.n]) != Some(t) ==> RowAt(Advance(s, es, c, sagas).0.rows, t) == RowAt(s.rows, t)
    ensures forall id :: IdOf(es[c.n]) != id ==> LogAt(Advance(s, es, c, sagas).0, id) == LogAt(s, id)
  {
    hide Handle;
  }

  lemma StepKeepsTracks(gs: seq<seq<Event>>, s0: State, b: Batch, k: nat, m: nat, sagas: bool)
    requires Inv(gs, s0, b, sagas) && GroupsApart(gs)
    requires CanStep(gs, b, k) && m < |gs|
    ensures OnTrack(s0, Advance(b.s, gs[k], b.at[k], sagas).0, gs[m], StepOf(gs, b, k, sagas).at[m], sagas)
  {
    hide Advance;
    hide Apart;
    hide SameAt;
    assert OnTrack(s0, b.s, gs[k], b.at[k], sagas) && OnTrack(s0, b.s, gs[m], b.at[m], sagas);
    var s' := Advance(b.s, gs[k], b.at[k], sagas).0;
    if k == m {
      OwnStepKeepsTrack(s0, b.s, gs[k], b.at[k], sagas);
    } else {
      forall j | 0 <= j < |gs[m]| ensures SameAt(s', b.s, gs[m][j]) {
        assert Apart(gs[k][b.at[k].n], gs[m][j]);
        StepLeavesOthers(b.s, gs[k], b.at[k], gs[m][j], sagas);
      }
      OtherStepKeepsTrack(s0, b.s, s', gs[m], b.at[m], sagas);
    }
  }

  lemma StepKeepsInv(gs: seq<seq<Event>>, s0: State, b: Batch, k: nat, sagas: bool)
    requires Inv(gs, s0, b, sagas) && GroupsApart(gs)
    ensures Inv(gs, s0, StepOf(gs, b, k, sagas), sagas)
  {
    hide Advance;
    hide OnTrack;
    hide GroupsApart;
    if CanStep(gs, b, k) {
      assert OnTrack(s0, b.s, gs[k], b.at[k], sagas);
      MidwayIsItsOwn(s0, b.s, gs[k], b.at[k], sagas);
      StepKeepsRest(b.s, gs[k], b.at[k], sagas);
      forall m | 0 <= m < |gs|
        ensures OnTrack(s0, Advance(b.s, gs[k], b.at[k], sagas).0, gs[m], StepOf(gs, b, k, sagas).at[m], sagas)
      {
        StepKeepsTracks(gs, s0, b, k, m, sagas);
      }
    }
  }

  lemma MidwayIsItsOwn(s0: State, s: State, es: seq<Event>, c: Cursor, sagas: bool)
    requires OnTrack(s0, s, es, c, sagas)
    ensures c.phase.Midway? ==> c.n < |es| && Touch(es[c.n]) == Some(c.phase.c)
  {
  }

  lemma {:induction false} PlayedKeepsInv(gs: seq<seq<Event>>, s0: State, schedule: seq<nat>, sagas: bool)
    requires GroupsApart(gs)
    ensures Inv(gs, s0, Played(gs, s0, schedule, sagas), sagas)
  {
    hide StepOf;
    if schedule == [] {
      hide GroupsApart;
      forall k | 0 <= k < |gs| ensures OnTrack(s0, s0, gs[k], Cursor(0, Ready), sagas) {
        assert gs[k][..0] == [];
      }
    } else {
      hide Inv;
      hide GroupsApart;
      var n := |schedule| - 1;
      PlayedKeepsInv(gs, s0, schedule[..n], sagas);
      StepKeepsInv(gs, s0, Played(gs, s0, schedule[..n], sagas), schedule[n], sagas);
    }
  }

  // ── The sequential result ─────────────────────────────────────────────────────

  lemma {:induction false} RunAppend(s: State, es: seq<Event>, fs: seq<Event>, sagas: bool)
    ensures Run(s, es + fs, sagas) == Run(Run(s, es, sagas), fs, sagas)
  {
    hide Process;
    if fs == [] {
      assert es + fs == es;
    } else {
      var n := |fs| - 1;
      RunAppend(s, es, fs[..n], sagas);
      assert (es + fs)[..|es + fs| - 1] == es + fs[..n];
    }
  }

  lemma {:induction false} ConcatMembers(gs: seq<seq<Event>>, i: nat) returns (k: nat, j: nat)
    requires i < |Concat(gs)|
    ensures k < |gs| && j < |gs[k]| && gs[k][j] == Concat(gs)[i]
  {
    var n := |gs| - 1;
    if i < |Concat(gs[..n])| {
      k, j := ConcatMembers(gs[..n], i);
    } else {
      k, j := n, i - |Concat(gs[..n])|;
    }
  }

  /** Running the groups one after another, each group sees only its own events. */
  lemma {:induction false} ConcatView(gs: seq<seq<Event>>, s: State, k: nat, sagas: bool)
    requires GroupsApart(gs) && k < |gs|
    ensures SameView(Run(s, Concat(gs), sagas), Run(s, gs[k], sagas), gs[k])
  {
    hide Run;
    hide Apart;
    hide SameAt;
    var n := |gs| - 1;
    var init := Run(s, Concat(gs[..n]), sagas);
    RunAppend(s, Concat(gs[..n]), gs[n], sagas);
    if k == n {
      LastSeesStart(gs, s, sagas);
      RunIsLocal(init, s, gs[n], |gs[n]|, sagas);
      assert gs[n][..|gs[n]|] == gs[n];
    } else {
      assert GroupsApart(gs[..n]);
      ConcatView(gs[..n], s, k, sagas);
      forall i | 0 <= i < |gs[k]| ensures SameAt(Run(init, gs[n], sagas), init, gs[k][i]) {
        assert forall j :: 0 <= j < |gs[n]| ==> Apart(gs[n][j], gs[k][i]);
        RunLeavesOthers(init, gs[n], gs[k][i], sagas);
      }
      SameViewChains(Run(init, gs[n], sagas), init, Run(s, gs[k], sagas), gs[k]);
    }
  }

  lemma LastSeesStart(gs: seq<seq<Event>>, s: State, sagas: bool)
    requires GroupsApart(gs) && gs != []
    ensures SameView(Run(s, Concat(gs[..|gs| - 1]), sagas), s, gs[|gs| - 1])
  {
    hide Run;
    hide Apart;
    hide SameAt;
    var n := |gs| - 1;
    var es := Concat(gs[..n]);
    forall j | 0 <= j < |gs[n]| ensures SameAt(Run(s, es, sagas), s, gs[n][j]) {
      forall i | 0 <= i < |es| ensures Apart(es[i], gs[n][j]) {
        var k, x := ConcatMembers(gs[..n], i);
        assert Apart(gs[k][x], gs[n][j]);
      }
      RunLeavesOthers(s, es, gs[n][j], sagas);
    }
  }

  lemma {:induction false} RunKeepsRest(s: State, es: seq<Event>, sagas: bool)
    ensures forall c: Escrow.ContractId | forall i :: 0 <= i < |es| ==> Touch(es[i]) != Some(c) :: RowAt(Run(s, es, sagas).rows, c) == RowAt(s.rows, c)
    ensures forall id | forall i :: 0 <= i < |es| ==> IdOf(es[i]) != id :: LogAt(Run(s, es, sagas), id) == LogAt(s, id)
  {
    hide Handle;
    if es != [] {
      RunKeepsRest(s, es[..|es| - 1], sagas);
    }
  }

  /** What the sequential result looks like at a row, in the words of `Inv`. */
  lemma ConcatRest(gs: seq<seq<Event>>, s: State, c: Escrow.ContractId, id: EventId, sagas: bool)
    ensures Spared(gs, c) ==> RowAt(Run(s, Concat(gs), sagas).rows, c) == RowAt(s.rows, c)
    ensures Unnamed(gs, id) ==> LogAt(Run(s, Concat(gs), sagas), id) == LogAt(s, id)
  {
    hide Run;
    var es := Concat(gs);
    RunKeepsRest(s, es, sagas);
    forall i | 0 <= i < |es| ensures (Spared(gs, c) ==> Touch(es[i]) != Some(c)) && (Unnamed(gs, id) ==> IdOf(es[i]) != id) {
      var k, j := ConcatMembers(gs, i);
    }
  }

  /** A batch on track with every runner finished agrees with the sequential result everywhere. */
  lemma AgreesEverywhere(gs: seq<seq<Event>>, s0: State, b: Batch, c: Escrow.ContractId, id: EventId, sagas: bool)
    requires Inv(gs, s0, b, sagas) && GroupsApart(gs) && AllFinished(gs, b)
    ensures RowAt(b.s.rows, c) == RowAt(Run(s0, Concat(gs), sagas).rows, c)
    ensures LogAt(b.s, id) == LogAt(Run(s0, Concat(gs), sagas), id)
  {
    hide Run;
    hide GroupsApart;
    hide OnTrack;
    hide SameView;
    ConcatRest(gs, s0, c, id, sagas);
    if !Spared(gs, c) {
      var k, i :| 0 <= k < |gs| && 0 <= i < |gs[k]| && Touch(gs[k][i]) == Some(c);
      GroupAgrees(gs, s0, b, k, i, sagas);
    }
    if !Unnamed(gs, id) {
      var k, i :| 0 <= k < |gs| && 0 <= i < |gs[k]| && IdOf(gs[k][i]) == id;
      GroupAgrees(gs, s0, b, k, i, sagas);
    }
  }

  lemma GroupAgrees(gs: seq<seq<Event>>, s0: State, b: Batch, k: nat, i: nat, sagas: bool)
    requires Inv(gs, s0, b, sagas) && GroupsApart(gs) && AllFinished(gs, b)
    requires k < |gs| && i < |gs[k]|
    ensures SameAt(b.s, Run(s0, Concat(gs), sagas), gs[k][i])
  {
    hide Run;
    hide GroupsApart;
    assert OnTrack(s0, b.s, gs[k], b.at[k], sagas) && Finished(gs[k], b.at[k]);
    assert gs[k][..|gs[k]|] == gs[k];
    ConcatView(gs, s0, k, sagas);
    assert SameAt(b.s, Run(s0, gs[k], sagas), gs[k][i]);
  }

  lemma SameEverywhere(s: State, t: State)
    requires forall c :: RowAt(s.rows, c) == RowAt(t.rows, c)
    requires forall id :: LogAt(s, id) == LogAt(t, id)
    ensures s == t
  {
    forall c ensures (c in s.rows <==> c in t.rows) && (c in s.rows ==> s.rows[c] == t.rows[c]) {
      assert RowAt(s.rows, c) == RowAt(t.rows, c);
    }
    forall id ensures (id in s.log <==> id in t.log) && (id in s.log ==> s.log[id] == t.log[id]) {
      assert LogAt(s, id) == LogAt(t, id);
    }
    assert s.rows == t.rows && s.log == t.log;
  }

  lemma FinishedIsSequential(gs: seq<seq<Event>>, s0: State, b: Batch, sagas: bool)
    requires Inv(gs, s0, b, sagas) && GroupsApart(gs) && AllFinished(gs, b)
    ensures b.s == Run(s0, Concat(gs), sagas)
  {
    hide Run;
    hide Inv;
    hide GroupsApart;
    hide AllFinished;
    var t := Run(s0, Concat(gs), sagas);
    forall c ensures RowAt(b.s.rows, c) == RowAt(t.rows, c) { AgreesEverywhere(gs, s0, b, c, (0, 0), sagas); }
    forall id ensures LogAt(b.s, id) == LogAt(t, id) { AgreesEverywhere(gs, s0, b, 0, id, sagas); }
    SameEverywhere(b.s, t);
  }

  /**
   * Schedule independence: whatever the order in which the runners' steps interleave, once every
   * runner has finished, rows and log are those of handling the groups one after another.
   */
  lemma EveryScheduleIsSequential(gs: seq<seq<Event>>, s0: State, schedule: seq<nat>, sagas: bool)
    requires GroupsApart(gs) && AllFinished(gs, Played(gs, s0, schedule, sagas))
    ensures Played(gs, s0, schedule, sagas).s == Run(s0, Concat(gs), sagas)
  {
    PlayedKeepsInv(gs, s0, schedule, sagas);
    FinishedIsSequential(gs, s0, Played(gs, s0, schedule, sagas), sagas);
  }

  // ── Finishing ─────────────────────────────────────────────────────────────────

  const MAX_STEPS: nat := 6

  function MidTicks(m: Mid): nat { 5 - StepsLeft(m) }

  function Ticks(c: Cursor): nat
  {
    MAX_STEPS * c.n + match c.phase { case Ready => 0 case Checked => 1 case Midway(_, m) => MidTicks(m) case Wrote(_) => 5 }
  }

  lemma AdvanceTicks(s: State, es: seq<Event>, c: Cursor, sagas: bool)
    requires c.n < |es| && (c.phase.Midway? ==> !c.phase.mid.Start?)
    ensures Ticks(c) < Ticks(Advance(s, es, c, sagas).1) <= MAX_STEPS * |es|
    ensures var d := Advance(s, es, c, sagas).1; d.phase.Midway? ==> !d.phase.mid.Start?
  {
    hide Stride;
  }

  function Picks(schedule: seq<nat>, k: nat): nat
  {
    if schedule == [] then 0
    else Picks(schedule[..|schedule| - 1], k) + if schedule[|schedule| - 1] == k then 1 else 0
  }

  /** Each runner's phase is one of its own event. */
  ghost predicate OwnPhases(gs: seq<seq<Event>>, b: Batch)
  {
    |b.at| == |gs| && forall k :: 0 <= k < |gs| ==> OwnPhase(gs[k], b.at[k])
  }

  ghost predicate OwnPhase(es: seq<Event>, c: Cursor)
  {
    && c.n <= |es| && (c.n == |es| ==> c.phase == Ready)
    && (c.phase.Midway? ==> c.n < |es| && Touch(es[c.n]) == Some(c.phase.c) && !c.phase.mid.Start?)
  }

  lemma StepKeepsPhases(gs: seq<seq<Event>>, b: Batch, k: nat, sagas: bool)
    requires OwnPhases(gs, b)
    ensures OwnPhases(gs, StepOf(gs, b, k, sagas))
  {
    hide Stride;
    hide Waits;
  }

  lemma {:induction false} PlayedKeepsPhases(gs: seq<seq<Event>>, s0: State, schedule: seq<nat>, sagas: bool)
    ensures OwnPhases(gs, Played(gs, s0, schedule, sagas))
  {
    hide StepOf;
    if schedule != [] {
      var n := |schedule| - 1;
      PlayedKeepsPhases(gs, s0, schedule[..n], sagas);
      hide OwnPhases;
      StepKeepsPhases(gs, Played(gs, s0, schedule[..n], sagas), schedule[n], sagas);
    }
  }

  /** No two runners hold the lock of the same escrow's escalation. */
  ghost predicate LocksExclude(b: Batch)
  {
    forall k, m, c :: 0 <= k < |b.at| && 0 <= m < |b.at| && Escalates(b.at[k].phase, c) && Escalates(b.at[m].phase, c) ==> k == m
  }

  /** A runner takes the lock from its wait for it, and keeps it until its handler ends. */
  lemma LockIsTakenFromWait(s: State, es: seq<Event>, cur: Cursor, sagas: bool, c: Escrow.ContractId)
    requires cur.n < |es| && Escalates(Advance(s, es, cur, sagas).1.phase, c)
    ensures cur.phase.Midway? && cur.phase.c == c && (cur.phase.mid.Screened? || Escalates(cur.phase, c))
  {
  }

  lemma StepKeepsLocks(gs: seq<seq<Event>>, b: Batch, k: nat, sagas: bool)
    requires |b.at| == |gs| && LocksExclude(b)
    ensures LocksExclude(StepOf(gs, b, k, sagas))
  {
    if CanStep(gs, b, k) {
      forall c | Escalates(Advance(b.s, gs[k], b.at[k], sagas).1.phase, c)
        ensures forall m :: 0 <= m < |b.at| && m != k ==> !Escalates(b.at[m].phase, c)
      {
        LockIsTakenFromWait(b.s, gs[k], b.at[k], sagas, c);
      }
    }
    hide Advance;
    hide Waits;
  }

  /** Over any schedule, also of groups that share escrows, escalations of one escrow exclude each other. */
  lemma {:induction false} EscalationsExclude(gs: seq<seq<Event>>, s0: State, schedule: seq<nat>, sagas: bool)
    ensures LocksExclude(Played(gs, s0, schedule, sagas))
  {
    if schedule != [] {
      var n := |schedule| - 1;
      hide StepOf;
      hide LocksExclude;
      EscalationsExclude(gs, s0, schedule[..n], sagas);
      StepKeepsLocks(gs, Played(gs, s0, schedule[..n], sagas), schedule[n], sagas);
    }
  }

  /** Escalations of different escrows do not wait for each other. */
  lemma NoneWaits(gs: seq<seq<Event>>, b: Batch, k: nat)
    requires OwnPhases(gs, b) && GroupsApart(gs) && k < |gs|
    ensures !Waits(b, k)
  {
    if b.at[k].phase.Midway? {
      forall m | 0 <= m < |b.at| && m != k && b.at[m].phase.Midway? ensures b.at[m].phase.c != b.at[k].phase.c {
        assert OwnPhase(gs[m], b.at[m]) && OwnPhase(gs[k], b.at[k]);
        assert Apart(gs[k][b.at[k].n], gs[m][b.at[m].n]);
      }
    }
  }

  lemma {:induction false} PicksMakeProgress(gs: seq<seq<Event>>, s0: State, schedule: seq<nat>, k: nat, sagas: bool)
    requires k < |gs| && GroupsApart(gs)
    ensures var c := Played(gs, s0, schedule, sagas).at[k]; Finished(gs[k], c) || Picks(schedule, k) <= Ticks(c)
  {
    if schedule != [] {
      var n := |schedule| - 1;
      var before := Played(gs, s0, schedule[..n], sagas);
      PicksMakeProgress(gs, s0, schedule[..n], k, sagas);
      PlayedKeepsPhases(gs, s0, schedule[..n], sagas);
      NoneWaits(gs, before, k);
      hide Advance;
      hide Ticks;
      hide Waits;
      hide GroupsApart;
      if schedule[n] == k && !Finished(gs[k], before.at[k]) { AdvanceTicks(before.s, gs[k], before.at[k], sagas); }
    }
  }

  /** With separate groups, any schedule that gives each runner six steps an event finishes the batch. */
  lemma FairSchedulesFinish(gs: seq<seq<Event>>, s0: State, schedule: seq<nat>, sagas: bool)
    requires GroupsApart(gs) && forall k :: 0 <= k < |gs| ==> 6 * |gs[k]| <= Picks(schedule, k)
    ensures AllFinished(gs, Played(gs, s0, schedule, sagas))
  {
    hide Played;
    hide GroupsApart;
    forall k | 0 <= k < |gs| ensures Finished(gs[k], Played(gs, s0, schedule, sagas).at[k]) {
      PicksMakeProgress(gs, s0, schedule, k, sagas);
      PlayedKeepsPhases(gs, s0, schedule, sagas);
      var c := Played(gs, s0, schedule, sagas).at[k];
      assert OwnPhase(gs[k], c);
    }
  }

  /** Whatever the groups share, some runner can step until all have finished: who waits waits for one. */
  lemma SomeoneCanStep(gs: seq<seq<Event>>, b: Batch) returns (k: nat)
    requires OwnPhases(gs, b) && !AllFinished(gs, b)
    ensures CanStep(gs, b, k)
  {
    k :| 0 <= k < |gs| && !Finished(gs[k], b.at[k]);
    if Waits(b, k) {
      var m :| 0 <= m < |b.at| && m != k && Escalates(b.at[m].phase, b.at[k].phase.c);
      assert OwnPhase(gs[m], b.at[m]);
      k := m;
    }
  }

  /** The steps all runners have made. */
  function Total(at: seq<Cursor>): nat
  {
    if at == [] then 0 else Total(at[..|at| - 1]) + Ticks(at[|at| - 1])
  }

  lemma {:induction false} TotalPut(at: seq<Cursor>, k: nat, c: Cursor)
    requires k < |at|
    ensures Total(at[k := c]) == Total(at) - Ticks(at[k]) + Ticks(c)
  {
    hide Ticks;
    var n := |at| - 1;
    if k == n {
      assert at[k := c][..n] == at[..n];
    } else {
      TotalPut(at[..n], k, c);
      assert at[k := c][..n] == at[..n][k := c];
    }
  }

  /** A runner that can step counts one more at least; any other step changes nothing. */
  lemma StepCounts(gs: seq<seq<Event>>, b: Batch, k: nat, sagas: bool)
    requires OwnPhases(gs, b)
    ensures if CanStep(gs, b, k) then Total(b.at) < Total(StepOf(gs, b, k, sagas).at) else StepOf(gs, b, k, sagas) == b
  {
    if CanStep(gs, b, k) {
      assert OwnPhase(gs[k], b.at[k]);
      AdvanceTicks(b.s, gs[k], b.at[k], sagas);
      hide Advance;
      hide Ticks;
      hide Waits;
      TotalPut(b.at, k, Advance(b.s, gs[k], b.at[k], sagas).1);
    }
  }

  lemma {:induction false} StepsCount(gs: seq<seq<Event>>, s0: State, schedule: seq<nat>, more: seq<nat>, sagas: bool)
    ensures var b, now := Played(gs, s0, schedule, sagas), Played(gs, s0, schedule + more, sagas);
      Total(b.at) <= Total(now.at) && (Total(b.at) == Total(now.at) ==> now == b)
    decreases |more|
  {
    if more == [] {
      assert schedule + more == schedule;
    } else {
      var n := |more| - 1;
      StepsCount(gs, s0, schedule, more[..n], sagas);
      assert schedule + more == (schedule + more[..n]) + [more[n]];
      PlayedOneMore(gs, s0, schedule + more[..n], more[n], sagas);
      PlayedKeepsPhases(gs, s0, schedule + more[..n], sagas);
      hide Played;
      hide StepOf;
      StepCounts(gs, Played(gs, s0, schedule + more[..n], sagas), more[n], sagas);
    }
  }

  /** Every runner is picked at least once. */
  ghost predicate Round(n: nat, picks: seq<nat>)
  {
    forall k :: 0 <= k < n ==> k in picks
  }

  /** A round moves somebody on, whoever waits for whom. */
  lemma RoundCounts(gs: seq<seq<Event>>, s0: State, schedule: seq<nat>, round: seq<nat>, sagas: bool)
    requires Round(|gs|, round) && !AllFinished(gs, Played(gs, s0, schedule, sagas))
    ensures Total(Played(gs, s0, schedule, sagas).at) < Total(Played(gs, s0, schedule + round, sagas).at)
  {
    hide Played;
    hide StepOf;
    hide CanStep;
    hide Total;
    PlayedKeepsPhases(gs, s0, schedule, sagas);
    var k := SomeoneCanStep(gs, Played(gs, s0, schedule, sagas));
    assert k < |gs| by { assert CanStep(gs, Played(gs, s0, schedule, sagas), k); }
    hide AllFinished;
    hide OwnPhases;
    assert k in round;
    var i :| 0 <= i < |round| && round[i] == k;
    PickCounts(gs, s0, schedule, round, i, sagas);
  }

  lemma PickCounts(gs: seq<seq<Event>>, s0: State, schedule: seq<nat>, round: seq<nat>, i: nat, sagas: bool)
    requires i < |round| && OwnPhases(gs, Played(gs, s0, schedule, sagas)) && CanStep(gs, Played(gs, s0, schedule, sagas), round[i])
    ensures Total(Played(gs, s0, schedule, sagas).at) < Total(Played(gs, s0, schedule + round, sagas).at)
  {
    hide Played;
    hide StepOf;
    hide CanStep;
    hide Total;
    hide OwnPhases;
    var k, before := round[i], schedule + round[..i];
    var b, mid, next := Played(gs, s0, schedule, sagas), Played(gs, s0, before, sagas), Played(gs, s0, before + [k], sagas);
    StepsCount(gs, s0, schedule, round[..i], sagas);
    PlayedOneMore(gs, s0, before, k, sagas);
    PlayedKeepsPhases(gs, s0, before, sagas);
    StepCounts(gs, mid, k, sagas);
    assert Total(b.at) < Total(next.at);
    StepsCount(gs, s0, before + [k], round[i + 1..], sagas);
    assert round == round[..i] + [k] + round[i + 1..];
    assert (before + [k]) + round[i + 1..] == schedule + round;
  }

  function Concatenated(rounds: seq<seq<nat>>): seq<nat>
  {
    if rounds == [] then [] else Concatenated(rounds[..|rounds| - 1]) + rounds[|rounds| - 1]
  }

  lemma {:induction false} TotalIsBounded(gs: seq<seq<Event>>, at: seq<Cursor>)
    requires |at| == |gs| && forall k :: 0 <= k < |gs| ==> OwnPhase(gs[k], at[k])
    ensures Total(at) <= MAX_STEPS * |Concat(gs)|
  {
    if gs != [] {
      var n := |gs| - 1;
      TotalIsBounded(gs[..n], at[..n]);
      assert OwnPhase(gs[n], at[n]);
    }
  }

  /** So, with groups that share escrows and wait for each other's escalations, any schedule of as many rounds
      as there are steps, and one more, finishes the batch. */
  lemma {:induction false} RoundsFinish(gs: seq<seq<Event>>, s0: State, rounds: seq<seq<nat>>, sagas: bool)
    requires forall i :: 0 <= i < |rounds| ==> Round(|gs|, rounds[i])
    ensures var b := Played(gs, s0, Concatenated(rounds), sagas); AllFinished(gs, b) || |rounds| <= Total(b.at)
    ensures |rounds| > 6 * |Concat(gs)| ==> AllFinished(gs, Played(gs, s0, Concatenated(rounds), sagas))
  {
    hide Round;
    hide Total;
    if rounds != [] {
      var n := |rounds| - 1;
      RoundsFinish(gs, s0, rounds[..n], sagas);
      var before := Concatenated(rounds[..n]);
      StepsCount(gs, s0, before, rounds[n], sagas);
      hide Played;
      if !AllFinished(gs, Played(gs, s0, before, sagas)) {
        RoundCounts(gs, s0, before, rounds[n], sagas);
      } else {
        FinishedStays(gs, s0, before, rounds[n], sagas);
      }
    }
    PlayedKeepsPhases(gs, s0, Concatenated(rounds), sagas);
    hide Played;
    TotalIsBounded(gs, Played(gs, s0, Concatenated(rounds), sagas).at);
  }

  lemma {:induction false} FinishedStays(gs: seq<seq<Event>>, s0: State, schedule: seq<nat>, more: seq<nat>, sagas: bool)
    requires AllFinished(gs, Played(gs, s0, schedule, sagas))
    ensures Played(gs, s0, schedule + more, sagas) == Played(gs, s0, schedule, sagas)
    decreases |more|
  {
    if more == [] {
      assert schedule + more == schedule;
    } else {
      var n := |more| - 1;
      FinishedStays(gs, s0, schedule, more[..n], sagas);
      assert schedule + more == (schedule + more[..n]) + [more[n]];
      PlayedOneMore(gs, s0, schedule + more[..n], more[n], sagas);
    }
  }

  // ── Why the group key must identify the escrow ────────────────────────────────

  function OnEscrowZero(ledger: nat, kind: Kind, group: GroupKey): Event
  {
    Event(ledger, 0, kind, Some(group), Some(0), 7, 8, 10, 1, 5)
  }

  function PendingEscrow(): State
  {
    State(map[0 := Row(Escrow.Escrow(1, 7, 8, 10, Escrow.Pending, Some(0), None, None, false, None), false)], map[])
  }

  lemma PlayedOneMore(gs: seq<seq<Event>>, s: State, schedule: seq<nat>, k: nat, sagas: bool)
    ensures Played(gs, s, schedule + [k], sagas) == StepOf(gs, Played(gs, s, schedule, sagas), k, sagas)
  {
    assert (schedule + [k])[..|schedule|] == schedule;
  }

  /** `n` picks of runner `k`. */
  function Only(k: nat, n: nat): seq<nat>
  {
    if n == 0 then [] else Only(k, n - 1) + [k]
  }

  /** No runner but `k` holds an escalation's lock. */
  ghost predicate Alone(b: Batch, k: nat)
  {
    forall m, c :: 0 <= m < |b.at| && m != k ==> !Escalates(b.at[m].phase, c)
  }

  /** The runner is within its one event, which is not recorded if its handler has yet to begin. */
  ghost predicate Within(es: seq<Event>, c: Cursor, s: State)
  {
    |es| == 1 && c.n == 0 && !c.phase.Ready? && (c.phase.Checked? ==> IdOf(es[0]) !in s.log)
  }

  /** What its next step, or having finished, leaves of that. */
  ghost predicate GoesOn(es: seq<Event>, b: Batch, k: nat, now: Batch, n: nat, sagas: bool)
    requires k < |b.at|
  {
    && |now.at| == |b.at| && now.at == b.at[k := now.at[k]]
    && Ahead(now.s, es, now.at[k], sagas) == Ahead(b.s, es, b.at[k], sagas)
    && (now.at[k] == Cursor(1, Ready) || (Within(es, now.at[k], now.s) && n <= Ticks(now.at[k])))
  }

  /** Left alone, a runner comes to what is ahead of it. */
  lemma {:induction false} AloneRunsOn(gs: seq<seq<Event>>, s: State, schedule: seq<nat>, k: nat, n: nat, sagas: bool)
    requires k < |gs| && Alone(Played(gs, s, schedule, sagas), k)
    requires Within(gs[k], Played(gs, s, schedule, sagas).at[k], Played(gs, s, schedule, sagas).s)
    ensures GoesOn(gs[k], Played(gs, s, schedule, sagas), k, Played(gs, s, schedule + Only(k, n), sagas), n, sagas)
  {
    hide Played;
    hide StepOf;
    if n == 0 {
      assert schedule + Only(k, 0) == schedule;
    } else {
      AloneRunsOn(gs, s, schedule, k, n - 1, sagas);
      var before := Played(gs, s, schedule + Only(k, n - 1), sagas);
      assert schedule + Only(k, n) == (schedule + Only(k, n - 1)) + [k];
      PlayedOneMore(gs, s, schedule + Only(k, n - 1), k, sagas);
      PlayedKeepsPhases(gs, s, schedule + Only(k, n - 1), sagas);
      hide Only;
      if before.at[k] == Cursor(1, Ready) {
        FinishedIsStill(gs, before, k, sagas);
      } else {
        AloneStep(gs, before, k, sagas);
      }
      hide Ahead;
      hide Ticks;
      hide Within;
      hide Alone;
    }
  }

  lemma FinishedIsStill(gs: seq<seq<Event>>, b: Batch, k: nat, sagas: bool)
    requires |b.at| == |gs| && k < |gs| && |gs[k]| == 1 && b.at[k] == Cursor(1, Ready)
    ensures StepOf(gs, b, k, sagas) == b
  {
  }

  lemma AloneStep(gs: seq<seq<Event>>, b: Batch, k: nat, sagas: bool)
    requires OwnPhases(gs, b) && k < |gs| && Alone(b, k) && Within(gs[k], b.at[k], b.s)
    ensures GoesOn(gs[k], b, k, StepOf(gs, b, k, sagas), Ticks(b.at[k]) + 1, sagas)
  {
    assert OwnPhase(gs[k], b.at[k]);
    assert CanStep(gs, b, k);
    AdvanceTicks(b.s, gs[k], b.at[k], sagas);
    AheadStays(b.s, gs[k], b.at[k], sagas);
    hide Ahead;
    hide Stride;
  }

  lemma AheadStays(s: State, es: seq<Event>, c: Cursor, sagas: bool)
    requires OwnPhase(es, c) && Within(es, c, s)
    ensures var (s', d) := Advance(s, es, c, sagas); Ahead(s', es, d, sagas) == Ahead(s, es, c, sagas)
  {
    if c.phase.Midway? { StruckKeepsAhead(s, es, c.n, c.phase.c, c.phase.mid, sagas); }
    if c.phase.Checked? && Touch(es[c.n]).Some? { StruckKeepsAhead(s, es, c.n, Touch(es[c.n]).value, Start, sagas); }
    hide Complete;
    hide Stride;
  }

  /** Six picks are enough. */
  lemma AloneFinishes(gs: seq<seq<Event>>, s: State, schedule: seq<nat>, k: nat, sagas: bool)
    requires k < |gs| && Alone(Played(gs, s, schedule, sagas), k)
    requires Within(gs[k], Played(gs, s, schedule, sagas).at[k], Played(gs, s, schedule, sagas).s)
    ensures var b := Played(gs, s, schedule, sagas);
      Played(gs, s, schedule + Only(k, MAX_STEPS), sagas)
      == Batch(Ahead(b.s, gs[k], b.at[k], sagas), b.at[k := Cursor(1, Ready)])
  {
    AloneRunsOn(gs, s, schedule, k, MAX_STEPS, sagas);
    PlayedKeepsPhases(gs, s, schedule + Only(k, MAX_STEPS), sagas);
    hide Played;
    hide Only;
    var now := Played(gs, s, schedule + Only(k, MAX_STEPS), sagas);
    assert OwnPhase(gs[k], now.at[k]);
  }

  /** Left alone, a runner handles a new event from start to end. */
  lemma AloneHandles(gs: seq<seq<Event>>, s: State, schedule: seq<nat>, k: nat, sagas: bool)
    requires k < |gs| && |gs[k]| == 1 && Alone(Played(gs, s, schedule, sagas), k)
    requires var b := Played(gs, s, schedule, sagas); b.at[k] == Cursor(0, Ready) && IdOf(gs[k][0]) !in b.s.log
    ensures var b := Played(gs, s, schedule, sagas);
      Played(gs, s, schedule + ([k] + Only(k, MAX_STEPS)), sagas) == Batch(Process(b.s, gs[k][0], sagas), b.at[k := Cursor(1, Ready)])
  {
    var b := Played(gs, s, schedule, sagas);
    PlayedOneMore(gs, s, schedule, k, sagas);
    hide Played;
    hide Process;
    assert Played(gs, s, schedule + [k], sagas) == Batch(b.s, b.at[k := Cursor(0, Checked)]);
    assert Ahead(b.s, gs[k], Cursor(0, Checked), sagas) == Process(b.s, gs[k][0], sagas);
    hide Ahead;
    AloneFinishes(gs, s, schedule + [k], k, sagas);
    assert b.at[k := Cursor(0, Checked)][k := Cursor(1, Ready)] == b.at[k := Cursor(1, Ready)];
    assert (schedule + [k]) + Only(k, MAX_STEPS) == schedule + ([k] + Only(k, MAX_STEPS));
  }

  /** One runner alone, then the other. */
  function InTurn(k: nat, m: nat): seq<nat>
  {
    ([k] + Only(k, MAX_STEPS)) + ([m] + Only(m, MAX_STEPS))
  }

  /**
   * Groups are formed by the second topic, while handlers prefer the id in the event's value. Two
   * events that name one escrow there under different topics are not ordered: run one way both
   * the funding and the release go through, run the other way the funding is refused.
   */
  lemma SharedEscrowDependsOnSchedule(funded: Event, released: Event)
    requires funded == OnEscrowZero(1, EscrowFunded, 1) && released == OnEscrowZero(2, EscrowReleased, 2)
    ensures AllFinished([[funded], [released]], Played([[funded], [released]], PendingEscrow(), InTurn(0, 1), false))
    ensures AllFinished([[funded], [released]], Played([[funded], [released]], PendingEscrow(), InTurn(1, 0), false))
    ensures Played([[funded], [released]], PendingEscrow(), InTurn(0, 1), false).s
         != Played([[funded], [released]], PendingEscrow(), InTurn(1, 0), false).s
  {
    var gs, s := [[funded], [released]], PendingEscrow();
    BothHandled(gs, s, 0, 1, false);
    BothHandled(gs, s, 1, 0, false);
    OrdersDiffer(s, funded, released);
  }

  lemma BothHandled(gs: seq<seq<Event>>, s: State, k: nat, m: nat, sagas: bool)
    requires |gs| == 2 && k < 2 && m < 2 && k != m && |gs[k]| == |gs[m]| == 1
    requires IdOf(gs[k][0]) !in s.log && IdOf(gs[m][0]) !in s.log && IdOf(gs[k][0]) != IdOf(gs[m][0])
    ensures AllFinished(gs, Played(gs, s, InTurn(k, m), sagas))
    ensures Played(gs, s, InTurn(k, m), sagas).s == Process(Process(s, gs[k][0], sagas), gs[m][0], sagas)
  {
    hide Handle;
    hide StepOf;
    hide Only;
    AloneHandles(gs, s, [], k, sagas);
    var first := [k] + Only(k, MAX_STEPS);
    assert [] + first == first;
    assert Played(gs, s, [], sagas).s == s;
    hide Played;
    AloneHandles(gs, s, first, m, sagas);
  }

  lemma OrdersDiffer(s: State, funded: Event, released: Event)
    requires s == PendingEscrow()
    requires funded == OnEscrowZero(1, EscrowFunded, 1) && released == OnEscrowZero(2, EscrowReleased, 2)
    ensures Process(Process(s, funded, false), released, false) != Process(Process(s, released, false), funded, false)
  {
    assert Process(Process(s, funded, false), released, false).log[(1, 0)];
    assert !Process(Process(s, released, false), funded, false).log[(1, 0)];
  }
}
