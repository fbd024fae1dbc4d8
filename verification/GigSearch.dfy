// Searching the gigs: filter, sort newest first, paginate.
module GigSearch {
  import opened Common
  import opened GigStore

  datatype Bounds = Bounds(min: Option<int>, max: Option<int>)

  /** A search whose page and limit are already clamped. */
  datatype Query = Query(status: GigStatus, page: nat, limit: nat, bounds: Bounds)

  datatype Page = Page(items: seq<Gig>, total: nat, page: nat, limit: nat)

  /** Page from 1, limit from 1 to 100 with 20 as default. */
  function Clamped(status: Option<GigStatus>, page: Option<int>, limit: Option<int>, bounds: Bounds): (q: Query)
    ensures q.page >= 1 && 1 <= q.limit <= 100 && q.bounds == bounds
    ensures page.Some? && page.value >= 1 ==> q.page == page.value
    ensures page.None? || page.value < 1 ==> q.page == 1
    ensures limit.Some? && 1 <= limit.value <= 100 ==> q.limit == limit.value
    ensures limit.Some? && limit.value < 1 ==> q.limit == 1
    ensures limit.Some? && limit.value > 100 ==> q.limit == 100
    ensures limit.None? ==> q.limit == 20
    ensures status.None? ==> q.status == Open
    ensures status.Some? ==> q.status == status.value
  {
    var p := if page.None? then 1 else if page.value < 1 then 1 else page.value;
    var l := if limit.None? then 20 else if limit.value < 1 then 1 else if limit.value > 100 then 100 else limit.value;
    Query(if status.Some? then status.value else Open, p, l, bounds)
  }

  predicate Within(b: Bounds, budget: int)
  {
    (b.min.Some? ==> budget >= b.min.value) && (b.max.Some? ==> budget <= b.max.value)
  }

  function WithStatus(rows: seq<Gig>, status: GigStatus): seq<Gig>
  {
    if rows == [] then []
    else
      var last := rows[|rows| - 1];
      WithStatus(rows[..|rows| - 1], status) + (if last.status == status then [last] else [])
  }

  function WithBudget(rows: seq<Gig>, b: Bounds): seq<Gig>
  {
    if rows == [] then []
    else
      var last := rows[|rows| - 1];
      WithBudget(rows[..|rows| - 1], b) + (if Within(b, last.budget) then [last] else [])
  }

  /** Puts `g` behind every gig at least as new, which keeps the sort stable. */
  function InsertNewest(sorted: seq<Gig>, g: Gig): seq<Gig>
  {
    if sorted == [] || sorted[|sorted| - 1].createdAt >= g.createdAt then sorted + [g]
    else InsertNewest(sorted[..|sorted| - 1], g) + [sorted[|sorted| - 1]]
  }

  function Newest(rows: seq<Gig>): seq<Gig>
  {
    if rows == [] then [] else InsertNewest(Newest(rows[..|rows| - 1]), rows[|rows| - 1])
  }

  function Matching(rows: seq<Gig>, q: Query): seq<Gig>
  {
    WithBudget(Newest(WithStatus(rows, q.status)), q.bounds)
  }

  function Slice(items: seq<Gig>, start: nat, limit: nat): seq<Gig>
  {
    var lo := if start < |items| then start else |items|;
    var hi := if start + limit < |items| then start + limit else |items|;
    items[lo..hi]
  }

  /** How many items `pages` pages hold. */
  function Skipped(pages: nat, limit: nat): nat
  {
    if pages == 0 then 0 else Skipped(pages - 1, limit) + limit
  }

  lemma {:induction false} SkippedIsProduct(pages: nat, limit: nat)
    ensures Skipped(pages, limit) == pages * limit
  {
    if pages > 0 {
      SkippedIsProduct(pages - 1, limit);
      assert pages * limit == (pages - 1) * limit + limit;
    }
  }

  function Uncached(rows: seq<Gig>, q: Query): Page
    requires q.page >= 1
  {
    var matching := Matching(rows, q);
    Page(Slice(matching, Skipped(q.page - 1, q.limit), q.limit), |matching|, q.page, q.limit)
  }

  // ── What a search returns ─────────────────────────────────────────────────────

  ghost predicate NewestFirst(gs: seq<Gig>)
  {
    forall i, j :: 0 <= i < j < |gs| ==> gs[i].createdAt >= gs[j].createdAt
  }

  lemma {:induction false} InsertKeepsGigs(sorted: seq<Gig>, g: Gig)
    ensures multiset(InsertNewest(sorted, g)) == multiset(sorted) + multiset{g}
  {
    if sorted != [] && sorted[|sorted| - 1].createdAt < g.createdAt {
      var n := |sorted| - 1;
      InsertKeepsGigs(sorted[..n], g);
      assert sorted == sorted[..n] + [sorted[n]];
    }
  }

  lemma {:induction false} InsertKeepsOrder(sorted: seq<Gig>, g: Gig)
    requires NewestFirst(sorted)
    ensures NewestFirst(InsertNewest(sorted, g))
    ensures multiset(InsertNewest(sorted, g)) == multiset(sorted) + multiset{g}
  {
    InsertKeepsGigs(sorted, g);
    if sorted != [] && sorted[|sorted| - 1].createdAt < g.createdAt {
      var n := |sorted| - 1;
      InsertKeepsOrder(sorted[..n], g);
      var rest := InsertNewest(sorted[..n], g);
      forall i | 0 <= i < |rest| ensures rest[i].createdAt >= sorted[n].createdAt {
        InsertedIsOldOrNew(sorted[..n], g, rest[i]);
      }
    }
  }

  lemma InsertedIsOldOrNew(sorted: seq<Gig>, g: Gig, x: Gig)
    requires x in InsertNewest(sorted, g)
    ensures x == g || x in sorted
  {
    InsertKeepsGigs(sorted, g);
    assert x in multiset(InsertNewest(sorted, g));
  }

  lemma {:induction false} NewestSorts(rows: seq<Gig>)
    ensures NewestFirst(Newest(rows)) && multiset(Newest(rows)) == multiset(rows)
  {
    if rows != [] {
      hide InsertNewest;
      hide NewestFirst;
      var n := |rows| - 1;
      NewestSorts(rows[..n]);
      InsertKeepsOrder(Newest(rows[..n]), rows[n]);
      assert rows == rows[..n] + [rows[n]];
    }
  }

  lemma {:induction false} StatusFilter(rows: seq<Gig>, status: GigStatus)
    ensures forall g :: multiset(WithStatus(rows, status))[g] == if g.status == status then multiset(rows)[g] else 0
  {
    if rows != [] {
      var n := |rows| - 1;
      StatusFilter(rows[..n], status);
      assert rows == rows[..n] + [rows[n]];
    }
  }

  lemma {:induction false} BudgetFilter(rows: seq<Gig>, b: Bounds)
    ensures forall g :: multiset(WithBudget(rows, b))[g] == if Within(b, g.budget) then multiset(rows)[g] else 0
  {
    if rows != [] {
      var n := |rows| - 1;
      BudgetFilter(rows[..n], b);
      assert rows == rows[..n] + [rows[n]];
    }
  }

  lemma {:induction false} BudgetKeepsOrder(rows: seq<Gig>, b: Bounds)
    requires NewestFirst(rows)
    ensures NewestFirst(WithBudget(rows, b))
    ensures forall g :: g in WithBudget(rows, b) ==> g in rows
  {
    if rows != [] {
      var n := |rows| - 1;
      BudgetKeepsOrder(rows[..n], b);
      var kept := WithBudget(rows[..n], b);
      assert forall g :: g in rows[..n] ==> g in rows;
      forall i | 0 <= i < |kept| ensures kept[i].createdAt >= rows[n].createdAt {
        assert kept[i] in rows[..n];
      }
    }
  }

  /** Of the status asked for, and neither below the least budget named nor above the greatest. */
  ghost predicate Wanted(q: Query, g: Gig)
  {
    && g.status == q.status
    && (forall least :: q.bounds.min == Some(least) ==> least <= g.budget)
    && (forall most :: q.bounds.max == Some(most) ==> g.budget <= most)
  }

  ghost function CreatedAt(rows: seq<Gig>, t: int): seq<Gig>
  {
    if rows == [] then []
    else
      var last := rows[|rows| - 1];
      CreatedAt(rows[..|rows| - 1], t) + (if last.createdAt == t then [last] else [])
  }

  lemma {:induction false} CreatedAtJoins(xs: seq<Gig>, g: Gig, t: int)
    ensures CreatedAt(xs + [g], t) == CreatedAt(xs, t) + (if g.createdAt == t then [g] else [])
  {
    assert (xs + [g])[..|xs|] == xs;
  }

  lemma {:induction false} InsertIsStable(sorted: seq<Gig>, g: Gig, t: int)
    ensures CreatedAt(InsertNewest(sorted, g), t) == CreatedAt(sorted + [g], t)
  {
    CreatedAtJoins(sorted, g, t);
    if sorted != [] && sorted[|sorted| - 1].createdAt < g.createdAt {
      var n := |sorted| - 1;
      InsertIsStable(sorted[..n], g, t);
      CreatedAtJoins(sorted[..n], g, t);
      CreatedAtJoins(InsertNewest(sorted[..n], g), sorted[n], t);
    }
  }

  lemma {:induction false} NewestIsStable(rows: seq<Gig>, t: int)
    ensures CreatedAt(Newest(rows), t) == CreatedAt(rows, t)
  {
    if rows != [] {
      var n := |rows| - 1;
      NewestIsStable(rows[..n], t);
      InsertIsStable(Newest(rows[..n]), rows[n], t);
      CreatedAtJoins(Newest(rows[..n]), rows[n], t);
    }
  }

  lemma {:induction false} BudgetJoins(xs: seq<Gig>, g: Gig, b: Bounds)
    ensures WithBudget(xs + [g], b) == WithBudget(xs, b) + (if Within(b, g.budget) then [g] else [])
  {
    assert (xs + [g])[..|xs|] == xs;
  }

  lemma {:induction false} FiltersCommute(rows: seq<Gig>, b: Bounds, t: int)
    ensures CreatedAt(WithBudget(rows, b), t) == WithBudget(CreatedAt(rows, t), b)
  {
    if rows != [] {
      var n := |rows| - 1;
      var last := rows[n];
      FiltersCommute(rows[..n], b, t);
      if Within(b, last.budget) { CreatedAtJoins(WithBudget(rows[..n], b), last, t); }
      if last.createdAt == t { BudgetJoins(CreatedAt(rows[..n], t), last, b); }
      assert CreatedAt(rows[..n], t) + [] == CreatedAt(rows[..n], t) && WithBudget(rows[..n], b) + [] == WithBudget(rows[..n], b);
    }
  }

  /** Gigs created at the same time are matched in the order in which they are listed. */
  lemma TiesKeepTheirOrder(rows: seq<Gig>, q: Query, t: int)
    ensures CreatedAt(Matching(rows, q), t) == WithBudget(CreatedAt(WithStatus(rows, q.status), t), q.bounds)
  {
    FiltersCommute(Newest(WithStatus(rows, q.status)), q.bounds, t);
    NewestIsStable(WithStatus(rows, q.status), t);
  }

  /** A page holds the matches from its own offset on, up to its limit, and tells how many there are. */
  lemma PageHolds(rows: seq<Gig>, q: Query, start: nat)
    requires q.page >= 1 && start == (q.page - 1) * q.limit
    ensures var p, all := Uncached(rows, q), Matching(rows, q);
      && p.total == |all| && p.page == q.page && p.limit == q.limit && |p.items| <= q.limit
      && (forall i :: 0 <= i < |p.items| ==> start + i < |all| && p.items[i] == all[start + i])
      && (|p.items| < q.limit ==> start + |p.items| >= |all|)
  {
    SkippedIsProduct(q.page - 1, q.limit);
    hide Matching;
    hide Skipped;
  }

  /** The matches are exactly the gigs of that status and budget, newest first. */
  lemma MatchingIsExact(rows: seq<Gig>, q: Query)
    ensures NewestFirst(Matching(rows, q))
    ensures forall g :: multiset(Matching(rows, q))[g] == (if Wanted(q, g) then multiset(rows)[g] else 0)
  {
    StatusFilter(rows, q.status);
    NewestSorts(WithStatus(rows, q.status));
    BudgetFilter(Newest(WithStatus(rows, q.status)), q.bounds);
    BudgetKeepsOrder(Newest(WithStatus(rows, q.status)), q.bounds);
  }

  ghost function FirstPages(rows: seq<Gig>, q: Query, k: nat): seq<Gig>
  {
    if k == 0 then [] else FirstPages(rows, q, k - 1) + Uncached(rows, q.(page := k)).items
  }

  lemma {:induction false} PagesTile(rows: seq<Gig>, q: Query, k: nat)
    ensures FirstPages(rows, q, k) == Slice(Matching(rows, q), 0, Skipped(k, q.limit))
  {
    hide Matching;
    if k > 0 {
      PagesTile(rows, q, k - 1);
      SamePages(rows, q, k);
      SliceJoins(Matching(rows, q), Skipped(k - 1, q.limit), q.limit);
    } else {
      assert Slice(Matching(rows, q), 0, 0) == [];
    }
  }

  lemma SliceJoins(items: seq<Gig>, done: nat, limit: nat)
    ensures Slice(items, 0, done + limit) == Slice(items, 0, done) + Slice(items, done, limit)
  {
  }

  lemma SamePages(rows: seq<Gig>, q: Query, k: nat)
    ensures Matching(rows, q.(page := k)) == Matching(rows, q)
  {
  }

  /** Read one after another, the pages list every match once and in order. */
  lemma PagesTileMatches(rows: seq<Gig>, q: Query, k: nat)
    ensures FirstPages(rows, q, k) == Slice(Matching(rows, q), 0, k * q.limit)
    ensures k * q.limit >= |Matching(rows, q)| ==> FirstPages(rows, q, k) == Matching(rows, q)
  {
    hide Matching;
    hide FirstPages;
    PagesTile(rows, q, k);
    SkippedIsProduct(k, q.limit);
    hide Skipped;
  }
}
