// The gig service as an object: retried mutations, the search and its cache, one call at a time.
module GigService {
  import opened Common
  import opened GigStore
  import opened GigRuns
  import opened GigSearch

  /** The cache key: everything but the bounds, and a hash in their place. */
  datatype CacheKey = CacheKey(status: GigStatus, page: nat, limit: nat, hash: nat)

  function KeyOf(hash: Bounds -> nat, q: Query): CacheKey
  {
    CacheKey(q.status, q.page, q.limit, hash(q.bounds))
  }

  ghost predicate Separates(hash: Bounds -> nat)
  {
    forall a, b :: hash(a) == hash(b) ==> a == b
  }

  ghost function RowsOf(gigs: map<GigId, Gig>, listing: seq<GigId>): seq<Gig>
  {
    if listing == [] then []
    else
      var id := listing[|listing| - 1];
      RowsOf(gigs, listing[..|listing| - 1]) + (if id in gigs then [gigs[id]] else [])
  }

  /** Some search that shares the entry's key gives, uncached, the very page stored. */
  ghost predicate Honest(hash: Bounds -> nat, rows: seq<Gig>, k: CacheKey, p: Page)
  {
    exists q: Query :: q.page >= 1 && KeyOf(hash, q) == k && p == Uncached(rows, q)
  }

  /**
   * What a cached search can return: the uncached page, unless the hash confuses its bounds with
   * others whose page differs.
   */
  lemma HonestIsExactIffUnconfused(hash: Bounds -> nat, rows: seq<Gig>, q: Query)
    requires q.page >= 1
    ensures (forall p :: Honest(hash, rows, KeyOf(hash, q), p) ==> p == Uncached(rows, q)) <==>
      (forall b: Bounds :: hash(b) == hash(q.bounds) ==> Uncached(rows, q.(bounds := b)) == Uncached(rows, q))
  {
    if forall p :: Honest(hash, rows, KeyOf(hash, q), p) ==> p == Uncached(rows, q) {
      forall b: Bounds | hash(b) == hash(q.bounds) ensures Uncached(rows, q.(bounds := b)) == Uncached(rows, q) {
        assert KeyOf(hash, q.(bounds := b)) == KeyOf(hash, q);
        assert Honest(hash, rows, KeyOf(hash, q), Uncached(rows, q.(bounds := b)));
      }
    }
    if forall b: Bounds :: hash(b) == hash(q.bounds) ==> Uncached(rows, q.(bounds := b)) == Uncached(rows, q) {
      forall p | Honest(hash, rows, KeyOf(hash, q), p) ensures p == Uncached(rows, q) {
        var q': Query :| q'.page >= 1 && KeyOf(hash, q') == KeyOf(hash, q) && p == Uncached(rows, q');
        assert q' == q.(bounds := q'.bounds);
      }
    }
  }

  // ── The listing ───────────────────────────────────────────────────────────────

  /** Every listed gig is stored, and they are listed oldest first. */
  ghost predicate Oldest(gigs: map<GigId, Gig>, ids: seq<GigId>)
  {
    && (forall i :: 0 <= i < |ids| ==> ids[i] in gigs)
    && (forall i, j :: 0 <= i < j < |ids| ==> gigs[ids[i]].createdAt <= gigs[ids[j]].createdAt)
  }

  /** The listing names every stored gig once, oldest first. */
  ghost predicate Listed(gigs: map<GigId, Gig>, ids: seq<GigId>)
  {
    Distinct(ids) && Oldest(gigs, ids) && forall id :: id in gigs ==> id in ids
  }

  function Dropped(ids: seq<GigId>, id: GigId): seq<GigId>
  {
    if ids == [] then []
    else Dropped(ids[..|ids| - 1], id) + if ids[|ids| - 1] == id then [] else [ids[|ids| - 1]]
  }

  lemma {:induction false} DroppedIsListed(gigs: map<GigId, Gig>, ids: seq<GigId>, id: GigId)
    requires Distinct(ids) && Oldest(gigs, ids)
    ensures Distinct(Dropped(ids, id)) && Oldest(gigs - {id}, Dropped(ids, id))
    ensures forall x :: x in Dropped(ids, id) <==> x in ids && x != id
  {
    if ids != [] {
      var n := |ids| - 1;
      DroppedIsListed(gigs, ids[..n], id);
      assert ids == ids[..n] + [ids[n]];
      var kept := Dropped(ids[..n], id);
      forall i | 0 <= i < |kept| ensures kept[i] != ids[n] && gigs[kept[i]].createdAt <= gigs[ids[n]].createdAt {
        assert kept[i] in ids[..n];
        var k :| 0 <= k < n && ids[k] == kept[i];
      }
    }
  }

  /** Rewriting a gig without its creation time keeps the listing right. */
  lemma RewrittenIsListed(gigs: map<GigId, Gig>, ids: seq<GigId>, g: Gig)
    requires Listed(gigs, ids) && g.id in gigs && gigs[g.id].createdAt == g.createdAt
    ensures Listed(gigs[g.id := g], ids)
  {
  }

  lemma WrittenIsFiled(db: Db, op: Op, seen: Gig, next: GigId)
    requires seen.id in db.gigs && forall id :: id in db.gigs ==> db.gigs[id].id == id && id < next
    ensures forall id :: id in Written(db, op, seen).gigs ==> Written(db, op, seen).gigs[id].id == id && id < next
  {
  }

  /** Each operation's batch and what it does to the listing go together. */
  lemma WrittenIsListed(db: Db, ids: seq<GigId>, op: Op, seen: Gig)
    requires Listed(db.gigs, ids) && seen.id in db.gigs && db.gigs[seen.id] == seen
    ensures Listed(Written(db, op, seen).gigs, if op.Remove? then Dropped(ids, seen.id) else ids)
  {
    if op.Remove? {
      DroppedIsListed(db.gigs, ids, seen.id);
    } else {
      RewrittenIsListed(db.gigs, ids, Rewritten(op, seen));
      hide Listed;
    }
  }

  function Inserted(ids: seq<GigId>, id: GigId, i: nat): seq<GigId>
    requires i <= |ids|
  {
    ids[..i] + [id] + ids[i..]
  }

  lemma InsertedIs(ids: seq<GigId>, id: GigId, i: nat)
    requires i <= |ids|
    ensures Inserted(ids, id, i) == ids[..i] + [id] + ids[i..]
  {
  }

  lemma InsertedMembers(ids: seq<GigId>, id: GigId, i: nat)
    requires i <= |ids| && Distinct(ids) && id !in ids
    ensures Distinct(Inserted(ids, id, i)) && forall x :: x in Inserted(ids, id, i) <==> x == id || x in ids
  {
    assert ids == ids[..i] + ids[i..];
  }

  /** A new gig goes behind the last one that is not newer. */
  lemma InsertedIsOldest(gigs: map<GigId, Gig>, ids: seq<GigId>, g: Gig, i: nat)
    requires Oldest(gigs, ids) && g.id !in gigs && i <= |ids|
    requires i > 0 ==> gigs[ids[i - 1]].createdAt <= g.createdAt
    requires forall j :: i <= j < |ids| ==> g.createdAt < gigs[ids[j]].createdAt
    ensures Oldest(gigs[g.id := g], Inserted(ids, g.id, i))
  {
    var more, now := Inserted(ids, g.id, i), gigs[g.id := g];
    forall a | 0 <= a < |more| ensures more[a] in now {
      if a != i { assert more[a] == ids[if a < i then a else a - 1]; }
    }
    forall a, b | 0 <= a < b < |more| ensures now[more[a]].createdAt <= now[more[b]].createdAt {
      if a != i { assert more[a] == ids[if a < i then a else a - 1]; }
      if b != i { assert more[b] == ids[if b < i then b else b - 1]; }
    }
  }

  lemma InsertedIsListed(gigs: map<GigId, Gig>, ids: seq<GigId>, g: Gig, i: nat)
    requires Listed(gigs, ids) && g.id !in gigs && i <= |ids| && (i > 0 ==> ids[i - 1] in gigs)
    requires i > 0 ==> gigs[ids[i - 1]].createdAt <= g.createdAt
    requires forall j :: i <= j < |ids| ==> ids[j] in gigs && g.createdAt < gigs[ids[j]].createdAt
    ensures Listed(gigs[g.id := g], Inserted(ids, g.id, i))
  {
    InsertedIsOldest(gigs, ids, g, i);
    InsertedMembers(ids, g.id, i);
    hide Oldest;
    hide Inserted;
    hide Distinct;
  }

  lemma ListedAreStored(gigs: map<GigId, Gig>, ids: seq<GigId>)
    requires Listed(gigs, ids)
    ensures forall i :: 0 <= i < |ids| ==> ids[i] in gigs
  {
  }

  class GigService {
    var gigs: map<GigId, Gig>
    var openBy: map<GigId, int>
    /** Every gig's id, in order of creation time. */
    var listing: seq<GigId>
    var cache: map<CacheKey, Page>
    var cacheKeys: set<CacheKey>
    var nextId: GigId
    const hash: Bounds -> nat

    ghost function Store(): Db
      reads this
    {
      Db(gigs, openBy)
    }

    ghost function Rows(): seq<Gig>
      reads this
    {
      RowsOf(gigs, listing)
    }

    ghost predicate Valid()
      reads this
    {
      && IndexExact(Store())
      && (forall id :: id in gigs ==> gigs[id].id == id && id < nextId)
      && Listed(gigs, listing)
      && cache.Keys <= cacheKeys
      && (forall k :: k in cache ==> Honest(hash, Rows(), k, cache[k]))
    }

    constructor (hash: Bounds -> nat)
      ensures Valid() && Store() == START.db && listing == [] && cache == map[] && this.hash == hash
    {
      this.hash := hash;
      gigs, openBy, listing, cache, cacheKeys, nextId := map[], map[], [], map[], {}, 0;
    }

    method Create(creator: nat, budget: int, now: int, windowHours: Option<nat>) returns (g: Gig)
      requires Valid()
      modifies this
      ensures Valid() && g.id !in old(gigs) && Store() == Added(old(Store()), g)
      ensures g == Gig(old(nextId), creator, budget, Open, now,
                       now + (if windowHours.Some? then windowHours.value else 72) * 60 * 60 * 1000, 1)
      ensures exists i :: 0 <= i <= |old(listing)| && listing == Inserted(old(listing), g.id, i)
      ensures Listed(gigs, listing) && cache == map[]
    {
      hide Listed; hide Honest; hide RowsOf; hide Inserted;
      var hours := if windowHours.Some? then windowHours.value else 72;
      g := Gig(nextId, creator, budget, Open, now, now + hours * 60 * 60 * 1000, 1);
      AddKeepsIndex(Store(), g);
      hide IndexExact;
      nextId := nextId + 1;
      var i := Place(now);
      InsertedIsListed(gigs, listing, g, i);
      gigs, listing := gigs[g.id := g], listing[..i] + [g.id] + listing[i..];
      assert listing == Inserted(old(listing), g.id, i) by { InsertedIs(old(listing), g.id, i); }
      openBy := openBy[g.id := g.respondBy];
      InvalidateSearchCache();
    }

    /** Where ZADD puts a gig created at `now`: behind the last one that is not newer. */
    method Place(now: int) returns (i: nat)
      requires Listed(gigs, listing)
      ensures i <= |listing| && (i > 0 ==> listing[i - 1] in gigs && gigs[listing[i - 1]].createdAt <= now)
      ensures forall j :: i <= j < |listing| ==> listing[j] in gigs && now < gigs[listing[j]].createdAt
    {
      ListedAreStored(gigs, listing);
      hide Listed;
      i := |listing|;
      while i > 0 && gigs[listing[i - 1]].createdAt > now
        invariant 0 <= i <= |listing|
        invariant forall j :: i <= j < |listing| ==> now < gigs[listing[j]].createdAt
      {
        i := i - 1;
      }
    }

    method FindAll() returns (all: seq<Gig>)
      ensures all == Rows()
    {
      all := [];
      for i := 0 to |listing|
        invariant all == RowsOf(gigs, listing[..i])
      {
        assert listing[..i + 1][..i] == listing[..i];
        if listing[i] in gigs { all := all + [gigs[listing[i]]]; }
      }
      assert listing[..|listing|] == listing;
    }

    /** A page from the cache when there is one, else computed and cached. */
    method Search(q: Query) returns (page: Page)
      requires Valid() && q.page >= 1
      modifies this`cache, this`cacheKeys
      ensures Valid() && Honest(hash, Rows(), KeyOf(hash, q), page)
      ensures Separates(hash) ==> page == Uncached(Rows(), q)
      ensures KeyOf(hash, q) in cache && cache[KeyOf(hash, q)] == page
      ensures forall k :: k in old(cache) ==> k in cache && cache[k] == old(cache)[k]
    {
      hide Uncached; hide IndexExact; hide RowsOf;
      var key := KeyOf(hash, q);
      if key in cache {
        page := cache[key];
        HonestIsExactIffUnconfused(hash, Rows(), q);
        return;
      }
      var all := FindAll();
      page := Uncached(all, q);
      assert Honest(hash, Rows(), key, page);
      cache := cache[key := page];
      cacheKeys := cacheKeys + {key};
    }

    /** An entry's time to live runs out. */
    method ExpireCached(key: CacheKey)
      requires Valid()
      modifies this`cache
      ensures Valid() && cache == old(cache) - {key}
    {
      hide IndexExact; hide Honest;
      cache := cache - {key};
    }

    method InvalidateSearchCache()
      requires cache.Keys <= cacheKeys
      modifies this`cache, this`cacheKeys
      ensures cache == map[] && cacheKeys == {}
    {
      cache := cache - cacheKeys;
      cacheKeys := {};
    }

    /**
     * Up to three attempts at one mutation. `aborted` says which attempts another writer's commit
     * aborts; an aborted attempt leaves no trace.
     */
    method MutateWithRetry(id: GigId, op: Op, aborted: nat -> bool) returns (r: Result<Option<Gig>>)
      requires Valid()
      modifies this
      ensures Valid()
      ensures id !in old(gigs) ==> r == Failure(NotFound)
      ensures id in old(gigs) && !Writes(op, old(gigs)[id]) ==>
        r == if op.Expire? then Success(None) else Failure(BadRequest)
      ensures id in old(gigs) && Writes(op, old(gigs)[id]) ==>
        if aborted(1) && aborted(2) && aborted(3) then r == Failure(Conflict)
        else
          && r == Success(if op.Remove? then None else Some(Rewritten(op, old(gigs)[id])))
          && Store() == Written(old(Store()), op, old(gigs)[id])
          && listing == (if op.Remove? then Dropped(old(listing), id) else old(listing))
          && cache == map[]
      ensures id in old(gigs) && (if op.Remove? then old(gigs)[id].status == Accepted else old(gigs)[id].status != Open) ==>
        r == if op.Expire? then Success(None) else Failure(BadRequest)
      ensures id in old(gigs) && (if op.Remove? then old(gigs)[id].status != Accepted else old(gigs)[id].status == Open) ==>
        if aborted(1) && aborted(2) && aborted(3) then r == Failure(Conflict)
        else
          && IsWritten(old(Store()), Store(), op, old(gigs)[id])
          && r == Success(if op.Remove? then None else Some(gigs[id]))
          && (op.Accept? ==> gigs[id].status == Accepted) && (op.Cancel? ==> gigs[id].status == Cancelled)
          && (op.Expire? ==> gigs[id].status == Expired) && (op.Update? ==> gigs[id].status == Open)
      ensures (r.Failure? || (op.Expire? && r.value.None?)) ==>
        Store() == old(Store()) && listing == old(listing) && cache == old(cache)
    {
      for attempt := 1 to 4
        invariant forall a :: 1 <= a < attempt ==> aborted(a)
        invariant attempt > 1 ==> id in gigs && Writes(op, gigs[id])
      {
        if id !in gigs { return Failure(NotFound); }
        var gig := gigs[id];
        if !Writes(op, gig) {
          if op.Expire? { return Success(None); }
          return Failure(BadRequest);
        }
        if !aborted(attempt) {
          WrittenInWords(Store(), op, gig);
          Persist(op, gig);
          return Success(if op.Remove? then None else Some(Rewritten(op, gig)));
        }
      }
      return Failure(Conflict);
    }

    /** The batch an operation executes, and the cache invalidation that follows it. */
    method Persist(op: Op, seen: Gig)
      requires Valid() && seen.id in gigs && gigs[seen.id] == seen && Writes(op, seen)
      modifies this
      ensures Valid() && Store() == Written(old(Store()), op, seen) && cache == map[]
      ensures IsWritten(old(Store()), Store(), op, seen)
      ensures listing == (if op.Remove? then Dropped(old(listing), seen.id) else old(listing))
    {
      hide Listed; hide IndexExact; hide Honest; hide RowsOf; hide Dropped;
      WriteKeepsIndex(Store(), op, seen);
      WrittenIsListed(Store(), listing, op, seen);
      WrittenIsFiled(Store(), op, seen, nextId);
      WrittenInWords(Store(), op, seen);
      hide Writes; hide IsWritten;
      match op {
        case Remove =>
          gigs := gigs - {seen.id};
          openBy := openBy - {seen.id};
          Unlist(seen.id);
        case Update(budget, respondBy) =>
          var gig := seen;
          if budget.To? { gig := gig.(budget := budget.value); }
          if respondBy.To? { gig := gig.(respondBy := respondBy.value); }
          gig := gig.(version := gig.version + 1);
          gigs := gigs[gig.id := gig];
          openBy := openBy[gig.id := gig.respondBy];
        case _ =>
          var status := if op.Accept? then Accepted else if op.Cancel? then Cancelled else Expired;
          var gig := seen.(status := status, version := seen.version + 1);
          gigs := gigs[gig.id := gig];
          openBy := openBy - {gig.id};
      }
      InvalidateSearchCache();
    }

    method Unlist(id: GigId)
      modifies this`listing
      ensures listing == Dropped(old(listing), id)
    {
      var kept := [];
      for i := 0 to |listing|
        invariant kept == Dropped(listing[..i], id)
      {
        assert listing[..i + 1][..i] == listing[..i];
        if listing[i] != id { kept := kept + [listing[i]]; }
      }
      assert listing[..|listing|] == listing;
      listing := kept;
    }
  }
}
