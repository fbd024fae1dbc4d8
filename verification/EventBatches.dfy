// One batch of events: sorted, split into the id-less ones and one group per key, then handled.
module EventBatches {
  import opened Common
  import opened EventHandling
  import opened EventSchedules

  // ── Sorting by (ledger, id) ───────────────────────────────────────────────────

  predicate NotAfter(e: Event, f: Event)
  {
    e.ledger < f.ledger || (e.ledger == f.ledger && e.rank <= f.rank)
  }

  predicate Sorted(es: seq<Event>)
  {
    forall i, j :: 0 <= i < j < |es| ==> NotAfter(es[i], es[j])
  }

  predicate DistinctIds(es: seq<Event>)
  {
    forall i, j :: 0 <= i < j < |es| ==> IdOf(es[i]) != IdOf(es[j])
  }

  function Insert(e: Event, es: seq<Event>): seq<Event>
  {
    if es == [] || !NotAfter(es[0], e) then [e] + es else [es[0]] + Insert(e, es[1..])
  }

  function SortEvents(es: seq<Event>): seq<Event>
  {
    if es == [] then [] else Insert(es[|es| - 1], SortEvents(es[..|es| - 1]))
  }

  lemma {:induction false} InsertKeepsEvents(e: Event, es: seq<Event>)
    ensures multiset(Insert(e, es)) == multiset(es) + multiset{e}
  {
    if es != [] && NotAfter(es[0], e) {
      InsertKeepsEvents(e, es[1..]);
      assert es == [es[0]] + es[1..];
    }
  }

  lemma {:induction false} InsertKeepsSorted(e: Event, es: seq<Event>)
    requires Sorted(es)
    ensures Sorted(Insert(e, es))
  {
    if es != [] && NotAfter(es[0], e) {
      InsertKeepsSorted(e, es[1..]);
      InsertKeepsEvents(e, es[1..]);
      var rest := Insert(e, es[1..]);
      forall j | 0 <= j < |rest| ensures NotAfter(es[0], rest[j]) {
        assert rest[j] in multiset(rest);
      }
    }
  }

  lemma {:induction false} SortSorts(es: seq<Event>)
    ensures Sorted(SortEvents(es)) && multiset(SortEvents(es)) == multiset(es)
  {
    if es != [] {
      var n := |es| - 1;
      SortSorts(es[..n]);
      InsertKeepsSorted(es[n], SortEvents(es[..n]));
      InsertKeepsEvents(es[n], SortEvents(es[..n]));
      assert es == es[..n] + [es[n]];
    }
  }

  lemma SortedHead(es: seq<Event>, fs: seq<Event>)
    requires Sorted(es) && Sorted(fs) && DistinctIds(es) && multiset(es) == multiset(fs) && es != []
    ensures fs != [] && es[0] == fs[0]
  {
    assert es[0] in multiset(fs);
    var j :| 0 <= j < |fs| && fs[j] == es[0];
    assert fs[0] in multiset(es);
    var i :| 0 <= i < |es| && es[i] == fs[0];
    assert i == 0 || NotAfter(es[0], es[i]);
    assert j == 0 || NotAfter(fs[0], fs[j]);
  }

  lemma TailsMatch(es: seq<Event>, fs: seq<Event>)
    requires multiset(es) == multiset(fs) && es != [] && fs != [] && es[0] == fs[0]
    ensures multiset(es[1..]) == multiset(fs[1..])
  {
    assert es == [es[0]] + es[1..] && fs == [fs[0]] + fs[1..];
    assert multiset(es[1..]) == multiset(es) - multiset{es[0]};
    assert multiset(fs[1..]) == multiset(fs) - multiset{fs[0]};
  }

  /** Distinct ids leave one sorted order. */
  lemma {:induction false} SortedIsUnique(es: seq<Event>, fs: seq<Event>)
    requires Sorted(es) && Sorted(fs) && DistinctIds(es) && multiset(es) == multiset(fs)
    ensures es == fs
  {
    if es == [] {
      assert |fs| == |multiset(fs)| == 0;
    } else {
      SortedHead(es, fs);
      assert es == [es[0]] + es[1..] && fs == [fs[0]] + fs[1..];
      TailsMatch(es, fs);
      SortedIsUnique(es[1..], fs[1..]);
    }
  }

  /** An index pair that clashes gives an event seen twice. */
  lemma DistinctIsMultiset(es: seq<Event>, fs: seq<Event>)
    requires DistinctIds(es) && multiset(es) == multiset(fs)
    ensures DistinctIds(fs)
  {
    forall i, j | 0 <= i < j < |fs| ensures IdOf(fs[i]) != IdOf(fs[j]) {
      assert fs[i] in multiset(es) && fs[j] in multiset(es);
      if IdOf(fs[i]) == IdOf(fs[j]) {
        var a :| 0 <= a < |es| && es[a] == fs[i];
        var b :| 0 <= b < |es| && es[b] == fs[j];
        assert a == b;
        TwiceInPrefix(fs, i, j);
        OnceWhenDistinct(es, a);
      }
    }
  }

  lemma TwiceInPrefix(fs: seq<Event>, i: nat, j: nat)
    requires i < j < |fs| && fs[i] == fs[j]
    ensures multiset(fs)[fs[i]] >= 2
  {
    assert fs == fs[..j] + ([fs[j]] + fs[j + 1..]);
    assert fs[..j][i] == fs[i];
    assert fs[i] in multiset(fs[..j]);
  }

  lemma OnceWhenDistinct(es: seq<Event>, a: nat)
    requires DistinctIds(es) && a < |es|
    ensures multiset(es)[es[a]] == 1
  {
    assert es == es[..a] + ([es[a]] + es[a + 1..]);
    assert es[a] !in es[..a] && es[a] !in es[a + 1..];
  }

  /** The order in which the RPC returned the events does not survive sorting. */
  lemma SortIgnoresOrder(es: seq<Event>, fs: seq<Event>)
    requires DistinctIds(es) && multiset(es) == multiset(fs)
    ensures SortEvents(es) == SortEvents(fs)
  {
    SortSorts(es);
    SortSorts(fs);
    DistinctIsMultiset(es, SortEvents(es));
    SortedIsUnique(SortEvents(es), SortEvents(fs));
  }

  // ── Buckets ───────────────────────────────────────────────────────────────────

  function Unkeyed(es: seq<Event>): seq<Event>
  {
    if es == [] then []
    else Unkeyed(es[..|es| - 1]) + if es[|es| - 1].group.None? then [es[|es| - 1]] else []
  }

  function InGroup(es: seq<Event>, k: GroupKey): seq<Event>
  {
    if es == [] then []
    else InGroup(es[..|es| - 1], k) + if es[|es| - 1].group == Some(k) then [es[|es| - 1]] else []
  }

  /** The group keys in order of first appearance. */
  function Keys(es: seq<Event>): seq<GroupKey>
  {
    if es == [] then []
    else
      var keys := Keys(es[..|es| - 1]);
      var e := es[|es| - 1];
      if e.group.Some? && e.group.value !in keys then keys + [e.group.value] else keys
  }

  function Groups(es: seq<Event>): (gs: seq<seq<Event>>)
    ensures |gs| == |Keys(es)|
    ensures forall i :: 0 <= i < |gs| ==> gs[i] == InGroup(es, Keys(es)[i])
  {
    seq(|Keys(es)|, i requires 0 <= i < |Keys(es)| => InGroup(es, Keys(es)[i]))
  }

  /** The order in which a batch is handled when its groups run one after another. */
  function Plan(events: seq<Event>): seq<Event>
  {
    var es := SortEvents(events);
    Unkeyed(es) + Concat(Groups(es))
  }

  /** Events under different keys share neither a record nor a row: the key identifies the escrow. */
  ghost predicate KeysIdentify(es: multiset<Event>)
  {
    forall e, f | e in es && f in es && e.group.Some? && f.group.Some? && e.group != f.group :: Apart(e, f)
  }

  lemma {:induction false} InGroupMembers(es: seq<Event>, k: GroupKey)
    ensures forall i :: 0 <= i < |InGroup(es, k)| ==> InGroup(es, k)[i] in es && InGroup(es, k)[i].group == Some(k)
  {
    if es != [] {
      InGroupMembers(es[..|es| - 1], k);
    }
  }

  lemma {:induction false} KeysAreDistinct(es: seq<Event>)
    ensures forall i, j :: 0 <= i < j < |Keys(es)| ==> Keys(es)[i] != Keys(es)[j]
    ensures forall k :: k in Keys(es) <==> exists i :: 0 <= i < |es| && es[i].group == Some(k)
  {
    if es != [] {
      var n := |es| - 1;
      KeysAreDistinct(es[..n]);
      forall k ensures k in Keys(es) <==> exists i :: 0 <= i < |es| && es[i].group == Some(k) {
        if k in Keys(es) {
          if k in Keys(es[..n]) {
            var i :| 0 <= i < n && es[..n][i].group == Some(k);
            assert es[i].group == Some(k);
          } else {
            assert es[n].group == Some(k);
          }
        }
        if i :| 0 <= i < |es| && es[i].group == Some(k) {
          if i < n { assert es[..n][i].group == Some(k); }
        }
      }
    }
  }

  lemma GroupsAreApart(es: seq<Event>)
    requires KeysIdentify(multiset(es))
    ensures GroupsApart(Groups(es))
  {
    hide Apart;
    hide Groups;
    var gs := Groups(es);
    KeysAreDistinct(es);
    forall k, m, i, j | 0 <= k < |gs| && 0 <= m < |gs| && k != m && 0 <= i < |gs[k]| && 0 <= j < |gs[m]|
      ensures Apart(gs[k][i], gs[m][j])
    {
      InGroupMembers(es, Keys(es)[k]);
      InGroupMembers(es, Keys(es)[m]);
      assert gs[k][i] in multiset(es) && gs[m][j] in multiset(es);
    }
  }

  /** Each group is handled in (ledger, id) order. */
  lemma {:induction false} GroupsAreSorted(es: seq<Event>, k: GroupKey)
    requires Sorted(es)
    ensures Sorted(InGroup(es, k)) && forall i :: 0 <= i < |InGroup(es, k)| ==> InGroup(es, k)[i].group == Some(k)
  {
    if es != [] {
      var n := |es| - 1;
      assert Sorted(es[..n]);
      GroupsAreSorted(es[..n], k);
      InGroupMembers(es[..n], k);
    }
  }

  // ── A batch handles each event once ───────────────────────────────────────────

  lemma {:induction false} ConcatPut(gs: seq<seq<Event>>, i: nat, e: Event)
    requires i < |gs|
    ensures multiset(Concat(gs[i := gs[i] + [e]])) == multiset(Concat(gs)) + multiset{e}
  {
    var n := |gs| - 1;
    var hs := gs[i := gs[i] + [e]];
    if i < n {
      ConcatPut(gs[..n], i, e);
      assert hs[..n] == gs[..n][i := gs[..n][i] + [e]];
    } else {
      assert hs[..n] == gs[..n];
    }
  }

  lemma {:induction false} GroupOfAbsentKey(es: seq<Event>, k: GroupKey)
    requires k !in Keys(es)
    ensures InGroup(es, k) == []
  {
    if es != [] { GroupOfAbsentKey(es[..|es| - 1], k); }
  }

  lemma SameGroups(gs: seq<seq<Event>>, hs: seq<seq<Event>>)
    requires |gs| == |hs| && forall j :: 0 <= j < |gs| ==> gs[j] == hs[j]
    ensures gs == hs
  {
  }

  /** One more event under a known key joins that key's group. */
  lemma GroupGrows(es: seq<Event>, n: nat, i: nat)
    requires |es| == n + 1 && i < |Keys(es[..n])| && es[n].group == Some(Keys(es[..n])[i])
    ensures Groups(es) == Groups(es[..n])[i := Groups(es[..n])[i] + [es[n]]]
  {
    hide InGroup;
    KeysAreDistinct(es[..n]);
    var keys, gs, hs := Keys(es), Groups(es[..n]), Groups(es[..n])[i := Groups(es[..n])[i] + [es[n]]];
    assert keys == Keys(es[..n]);
    forall j | 0 <= j < |keys| ensures Groups(es)[j] == hs[j] {
      InGroupStep(es, n, keys[j]);
      if j != i { assert keys[j] != keys[i]; }
    }
    SameGroups(Groups(es), hs);
  }

  /** One more event under a new key opens a group. */
  lemma GroupOpens(es: seq<Event>, n: nat, k: GroupKey)
    requires |es| == n + 1 && es[n].group == Some(k) && k !in Keys(es[..n])
    ensures Groups(es) == Groups(es[..n]) + [[es[n]]]
  {
    hide InGroup;
    GroupOfAbsentKey(es[..n], k);
    var keys, hs := Keys(es), Groups(es[..n]) + [[es[n]]];
    assert keys == Keys(es[..n]) + [k];
    forall j | 0 <= j < |keys| ensures Groups(es)[j] == hs[j] {
      InGroupStep(es, n, keys[j]);
    }
    SameGroups(Groups(es), hs);
  }

  lemma InGroupStep(es: seq<Event>, n: nat, k: GroupKey)
    requires |es| == n + 1
    ensures InGroup(es, k) == InGroup(es[..n], k) + if es[n].group == Some(k) then [es[n]] else []
  {
  }

  lemma GroupsSkip(es: seq<Event>, n: nat)
    requires |es| == n + 1 && es[n].group.None?
    ensures Groups(es) == Groups(es[..n])
  {
    assert Keys(es) == Keys(es[..n]);
    assert forall k :: InGroup(es, k) == InGroup(es[..n], k);
  }

  /** One keyed event adds itself to the groups' events. */
  lemma KeyedStep(es: seq<Event>, n: nat, k: GroupKey)
    requires |es| == n + 1 && es[n].group == Some(k)
    ensures multiset(Concat(Groups(es))) == multiset(Concat(Groups(es[..n]))) + multiset{es[n]}
  {
    hide InGroup;
    var gs := Groups(es[..n]);
    if k in Keys(es[..n]) {
      var i :| 0 <= i < |Keys(es[..n])| && Keys(es[..n])[i] == k;
      GroupGrows(es, n, i);
      ConcatPut(gs, i, es[n]);
    } else {
      GroupOpens(es, n, k);
      assert (gs + [[es[n]]])[..|gs|] == gs;
    }
  }

  lemma {:induction false} BucketsKeepEvents(es: seq<Event>)
    ensures multiset(Unkeyed(es)) + multiset(Concat(Groups(es))) == multiset(es)
  {
    hide Groups;
    hide Concat;
    if es == [] {
      assert Groups(es) == [];
      assert Concat([]) == [] by { NoGroups(); }
    } else {
      var n := |es| - 1;
      BucketsKeepEvents(es[..n]);
      assert es == es[..n] + [es[n]];
      if es[n].group.None? {
        GroupsSkip(es, n);
      } else {
        KeyedStep(es, n, es[n].group.value);
      }
    }
  }

  lemma NoGroups()
    ensures Concat([]) == []
  {
  }

  /** A batch's plan holds each of its events exactly as often as the batch does. */
  lemma PlanKeepsEvents(events: seq<Event>)
    ensures multiset(Plan(events)) == multiset(events)
  {
    SortSorts(events);
    BucketsKeepEvents(SortEvents(events));
  }

  /** Handled one after the other, the events of the same key never go back in ledger and id, and those without a key
      are never behind one that has one. */
  ghost predicate InTurn(es: seq<Event>)
  {
    forall i, j :: 0 <= i < j < |es| ==>
      && (es[j].group == None ==> es[i].group == None)
      && (es[i].group == es[j].group ==>
            es[i].ledger < es[j].ledger || (es[i].ledger == es[j].ledger && es[i].rank <= es[j].rank))
  }

  lemma {:induction false} UnkeyedAreSorted(es: seq<Event>)
    requires Sorted(es)
    ensures Sorted(Unkeyed(es)) && forall i :: 0 <= i < |Unkeyed(es)| ==> Unkeyed(es)[i] in es && Unkeyed(es)[i].group == None
  {
    if es != [] {
      var n := |es| - 1;
      assert Sorted(es[..n]);
      UnkeyedAreSorted(es[..n]);
    }
  }

  lemma {:induction false} ConcatMember(gs: seq<seq<Event>>, e: Event)
    requires e in Concat(gs)
    ensures exists k :: 0 <= k < |gs| && e in gs[k]
  {
    var n := |gs| - 1;
    if e in gs[n] {
    } else {
      ConcatMember(gs[..n], e);
      var k :| 0 <= k < n && e in gs[..n][k];
      assert e in gs[k];
    }
  }

  /** Each run's events are of one key of its own, in order. */
  ghost predicate OneKeyEach(gs: seq<seq<Event>>, keys: seq<GroupKey>)
  {
    && |gs| == |keys| && Distinct(keys)
    && forall k :: 0 <= k < |gs| ==> Sorted(gs[k]) && forall e :: e in gs[k] ==> e.group == Some(keys[k])
  }

  lemma {:induction false} ConcatIsInTurn(gs: seq<seq<Event>>, keys: seq<GroupKey>)
    requires OneKeyEach(gs, keys)
    ensures InTurn(Concat(gs)) && forall e :: e in Concat(gs) ==> e.group.Some?
  {
    if gs != [] {
      var n := |gs| - 1;
      var front := Concat(gs[..n]);
      assert OneKeyEach(gs[..n], keys[..n]);
      ConcatIsInTurn(gs[..n], keys[..n]);
      forall i | 0 <= i < |front| ensures front[i].group != Some(keys[n]) {
        ConcatMember(gs[..n], front[i]);
        var k :| 0 <= k < n && front[i] in gs[..n][k];
        assert front[i] in gs[k];
      }
      assert Concat(gs) == front + gs[n];
      JoinIsInTurn(front, gs[n], keys[n]);
    }
  }

  lemma JoinIsInTurn(front: seq<Event>, last: seq<Event>, key: GroupKey)
    requires InTurn(front) && Sorted(last)
    requires forall i :: 0 <= i < |front| ==> front[i].group.Some? && front[i].group != Some(key)
    requires forall e :: e in last ==> e.group == Some(key)
    ensures InTurn(front + last)
  {
    forall j | 0 <= j < |last| ensures last[j].group == Some(key) { assert last[j] in last; }
  }

  lemma PlanIsInTurn(events: seq<Event>)
    ensures InTurn(Plan(events))
  {
    var es := SortEvents(events);
    SortSorts(events);
    UnkeyedAreSorted(es);
    KeysAreDistinct(es);
    forall k | 0 <= k < |Groups(es)|
      ensures Sorted(Groups(es)[k]) && forall e :: e in Groups(es)[k] ==> e.group == Some(Keys(es)[k])
    {
      GroupsAreSorted(es, Keys(es)[k]);
      InGroupMembers(es, Keys(es)[k]);
    }
    ConcatIsInTurn(Groups(es), Keys(es));
    hide Unkeyed;
    hide Groups;
    hide Keys;
    var keyed := Concat(Groups(es));
    forall j | 0 <= j < |keyed| ensures keyed[j].group.Some? { assert keyed[j] in keyed; }
  }

  /** The plan, and so the batch's result, depends on the events and not on the page order. */
  lemma PlanIgnoresPageOrder(es: seq<Event>, fs: seq<Event>)
    requires DistinctIds(es) && multiset(es) == multiset(fs)
    ensures Plan(es) == Plan(fs)
  {
    SortIgnoresOrder(es, fs);
  }

  /** The state after a batch: its id-less events, then its groups under `schedule`. */
  function Handled(s: State, events: seq<Event>, schedule: seq<nat>, sagas: bool): State
  {
    var es := SortEvents(events);
    Played(Groups(es), Run(s, Unkeyed(es), sagas), schedule, sagas).s
  }

  /**
   * The order-independence of a whole batch: any schedule of the groups that runs them to the end,
   * on the events in any page order, leaves the rows and the log of the sequential plan.
   */
  lemma BatchIsSequential(s: State, events: seq<Event>, paged: seq<Event>, schedule: seq<nat>, sagas: bool)
    requires DistinctIds(events) && multiset(paged) == multiset(events) && KeysIdentify(multiset(events))
    requires AllFinished(Groups(SortEvents(paged)), Played(Groups(SortEvents(paged)), Run(s, Unkeyed(SortEvents(paged)), sagas), schedule, sagas))
    ensures Handled(s, paged, schedule, sagas) == Run(s, Plan(events), sagas)
  {
    hide Groups;
    var es := SortEvents(paged);
    SortIgnoresOrder(events, paged);
    SortSorts(paged);
    GroupsAreApart(es);
    EveryScheduleIsSequential(Groups(es), Run(s, Unkeyed(es), sagas), schedule, sagas);
    RunAppend(s, Unkeyed(es), Concat(Groups(es)), sagas);
  }

  lemma RecordedInPlan(s: State, events: seq<Event>, i: nat)
    requires Recorded(s, Plan(events)) && i < |events|
    ensures IdOf(events[i]) in s.log
  {
    PlanKeepsEvents(events);
    assert events[i] in multiset(Plan(events));
    var j :| 0 <= j < |Plan(events)| && Plan(events)[j] == events[i];
  }

  lemma PlanRecordsAll(s: State, events: seq<Event>, again: seq<Event>, sagas: bool)
    requires forall e :: e in again ==> e in events
    ensures Recorded(Run(s, Plan(events), sagas), Plan(again))
  {
    hide Plan;
    var t := Run(s, Plan(events), sagas);
    RunRecords(s, Plan(events), sagas);
    PlanKeepsEvents(again);
    forall i | 0 <= i < |Plan(again)| ensures IdOf(Plan(again)[i]) in t.log {
      var e := Plan(again)[i];
      assert e in multiset(again) && e in again && e in events;
      var j :| 0 <= j < |events| && events[j] == e;
      RecordedInPlan(t, events, j);
    }
  }

  /** Handling events of a batch a second time, all or some of them, changes nothing. */
  lemma SecondBatchIsNoOp(s: State, events: seq<Event>, again: seq<Event>, sagas: bool)
    requires forall e :: e in again ==> e in events
    ensures Run(Run(s, Plan(events), sagas), Plan(again), sagas) == Run(s, Plan(events), sagas)
  {
    hide Plan;
    PlanRecordsAll(s, events, again, sagas);
    ReplayIsNoOp(Run(s, Plan(events), sagas), Plan(again), sagas);
  }

  // ── What a batch records, whatever its keys ───────────────────────────────────

  predicate Completes(s: State, events: seq<Event>, schedule: seq<nat>, sagas: bool)
  {
    var es := SortEvents(events);
    AllFinished(Groups(es), Played(Groups(es), Run(s, Unkeyed(es), sagas), schedule, sagas))
  }

  predicate HasId(es: seq<Event>, id: EventId)
  {
    exists i :: 0 <= i < |es| && IdOf(es[i]) == id
  }

  predicate GroupHasId(gs: seq<seq<Event>>, id: EventId)
  {
    exists k :: 0 <= k < |gs| && HasId(gs[k], id)
  }

  /** Behind a runner everything is recorded, and nothing but the batch's events is. */
  ghost predicate RecordsBehind(gs: seq<seq<Event>>, s0: State, b: Batch)
    requires |b.at| == |gs|
  {
    && (forall k, i :: 0 <= k < |gs| && 0 <= i < |gs[k]| && i < b.at[k].n ==> IdOf(gs[k][i]) in b.s.log)
    && (forall id :: id in s0.log ==> id in b.s.log)
    && (forall id :: id in b.s.log ==> id in s0.log || GroupHasId(gs, id))
  }

  lemma AdvanceRecords(s: State, es: seq<Event>, c: Cursor, sagas: bool)
    requires c.n < |es|
    ensures var (s', d) := Advance(s, es, c, sagas);
      && c.n <= d.n <= c.n + 1
      && (forall id :: id in s.log ==> id in s'.log)
      && (forall id :: id in s'.log ==> id in s.log || id == IdOf(es[c.n]))
      && (d.n == c.n + 1 ==> IdOf(es[c.n]) in s'.log)
  {
    hide Stride;
  }

  lemma StepRecords(gs: seq<seq<Event>>, s0: State, b: Batch, k: nat, sagas: bool)
    requires |b.at| == |gs| && RecordsBehind(gs, s0, b)
    ensures RecordsBehind(gs, s0, StepOf(gs, b, k, sagas))
  {
    hide Advance;
    if CanStep(gs, b, k) {
      AdvanceRecords(b.s, gs[k], b.at[k], sagas);
      assert HasId(gs[k], IdOf(gs[k][b.at[k].n]));
    }
  }

  lemma {:induction false} PlayedRecords(gs: seq<seq<Event>>, s0: State, schedule: seq<nat>, sagas: bool)
    ensures RecordsBehind(gs, s0, Played(gs, s0, schedule, sagas))
  {
    hide StepOf;
    if schedule != [] {
      hide RecordsBehind;
      var n := |schedule| - 1;
      PlayedRecords(gs, s0, schedule[..n], sagas);
      StepRecords(gs, s0, Played(gs, s0, schedule[..n], sagas), schedule[n], sagas);
    }
  }

  lemma {:induction false} RunRecordsOnly(s: State, es: seq<Event>, sagas: bool)
    ensures forall id :: id in Run(s, es, sagas).log <==> id in s.log || HasId(es, id)
  {
    hide Handle;
    RunRecords(s, es, sagas);
    RunKeepsRest(s, es, sagas);
    forall id ensures id in Run(s, es, sagas).log <==> id in s.log || HasId(es, id) {
      if !HasId(es, id) {
        assert LogAt(Run(s, es, sagas), id) == LogAt(s, id);
      }
    }
  }

  lemma {:induction false} ConcatHasId(gs: seq<seq<Event>>, k: nat, i: nat)
    requires k < |gs| && i < |gs[k]|
    ensures gs[k][i] in multiset(Concat(gs))
  {
    if k < |gs| - 1 { ConcatHasId(gs[..|gs| - 1], k, i); }
  }

  /** The batch's ids are those of its id-less events and of its groups. */
  lemma BucketsHaveId(es: seq<Event>, id: EventId)
    ensures HasId(es, id) <==> HasId(Unkeyed(es), id) || GroupHasId(Groups(es), id)
  {
    hide Groups;
    BucketsKeepEvents(es);
    if HasId(es, id) {
      var i :| 0 <= i < |es| && IdOf(es[i]) == id;
      assert es[i] in multiset(es);
      if es[i] in multiset(Unkeyed(es)) {
        assert es[i] in Unkeyed(es);
      } else {
        assert es[i] in Concat(Groups(es));
        var j :| 0 <= j < |Concat(Groups(es))| && Concat(Groups(es))[j] == es[i];
        var k, x := ConcatMembers(Groups(es), j);
        assert HasId(Groups(es)[k], id);
      }
    }
    if HasId(Unkeyed(es), id) {
      var i :| 0 <= i < |Unkeyed(es)| && IdOf(Unkeyed(es)[i]) == id;
      assert Unkeyed(es)[i] in multiset(es) && Unkeyed(es)[i] in es;
    }
    if GroupHasId(Groups(es), id) {
      var k :| 0 <= k < |Groups(es)| && HasId(Groups(es)[k], id);
      var i :| 0 <= i < |Groups(es)[k]| && IdOf(Groups(es)[k][i]) == id;
      ConcatHasId(Groups(es), k, i);
      assert Groups(es)[k][i] in multiset(es) && Groups(es)[k][i] in es;
    }
  }

  lemma SortHasId(events: seq<Event>, id: EventId)
    ensures HasId(SortEvents(events), id) <==> HasId(events, id)
  {
    SortSorts(events);
    var es := SortEvents(events);
    if HasId(es, id) {
      var i :| 0 <= i < |es| && IdOf(es[i]) == id;
      assert es[i] in multiset(events) && es[i] in events;
    }
    if HasId(events, id) {
      var i :| 0 <= i < |events| && IdOf(events[i]) == id;
      assert events[i] in multiset(es) && events[i] in es;
    }
  }

  lemma GroupsRecorded(gs: seq<seq<Event>>, s0: State, schedule: seq<nat>, id: EventId, sagas: bool)
    requires AllFinished(gs, Played(gs, s0, schedule, sagas))
    ensures id in Played(gs, s0, schedule, sagas).s.log <==> id in s0.log || GroupHasId(gs, id)
  {
    hide Played;
    PlayedRecords(gs, s0, schedule, sagas);
    if GroupHasId(gs, id) {
      var k :| 0 <= k < |gs| && HasId(gs[k], id);
      var i :| 0 <= i < |gs[k]| && IdOf(gs[k][i]) == id;
      assert Finished(gs[k], Played(gs, s0, schedule, sagas).at[k]);
    }
  }

  /** A finished batch adds exactly its own ids to the log, under any keys and any schedule. */
  lemma BatchRecords(s: State, events: seq<Event>, schedule: seq<nat>, id: EventId, sagas: bool)
    requires Completes(s, events, schedule, sagas)
    ensures id in Handled(s, events, schedule, sagas).log <==> id in s.log || HasId(events, id)
  {
    hide Groups;
    hide HasId;
    hide GroupHasId;
    var es := SortEvents(events);
    RunRecordsOnly(s, Unkeyed(es), sagas);
    GroupsRecorded(Groups(es), Run(s, Unkeyed(es), sagas), schedule, id, sagas);
    BucketsHaveId(es, id);
    SortHasId(events, id);
  }
}
