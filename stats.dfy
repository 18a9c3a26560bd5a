/** The stats reader (`controllers/statsController.js`): per-tag stats and a
    paginated stats listing, both read from the `uids` collection through an
    optional cache (`null` when the caller passes none). */
module StatsController {
  import opened Common
  import opened Store
  import opened Keys
  import opened Cache

  /** `CACHE_TTL`, in seconds. */
  const CacheTtl: nat := 60
  const DefaultLimit: nat := 100
  const MaxLimit: nat := 500

  /** `{ token, lastSeen }` of one tag. */
  datatype TagStats = TagStats(token: nat, lastSeen: int)

  datatype StatsItem = StatsItem(uid: string, token: nat, lastSeen: int)

  /** `{ data, nextCursor }` */
  datatype StatsListing = StatsListing(data: seq<StatsItem>, nextCursor: Option<int>)

  /** What the stats reader keeps in its cache and replies with. */
  datatype Reply = One(stats: TagStats) | Listing(listing: StatsListing)

  function StatsOf(rec: TagRecord): TagStats {
    TagStats(rec.token, rec.lastSeen)
  }

  function ItemOf(id: string, rec: TagRecord): StatsItem {
    StatsItem(id, rec.token, rec.lastSeen)
  }

  /** The uids of a listing's items, in order. */
  function ItemUids(data: seq<StatsItem>): seq<string> {
    seq(|data|, i requires 0 <= i < |data| => data[i].uid)
  }

  /** `Math.min(Math.max(parseInt(limit, 10) || 100, 1), 500)`, where
      `parsed` is what `parseInt` returns (`None` for NaN): always within
      [1, 500]; NaN and 0 fall back to 100, negatives rise to 1, larger
      values are capped at 500. */
  function ClampLimit(parsed: Option<int>): (limit: nat)
    ensures 1 <= limit <= MaxLimit
    ensures parsed.None? || parsed == Some(0) ==> limit == DefaultLimit
    ensures parsed.Some? && parsed.value < 0 ==> limit == 1
    ensures parsed.Some? && 1 <= parsed.value <= MaxLimit ==> limit == parsed.value
    ensures parsed.Some? && parsed.value > MaxLimit ==> limit == MaxLimit
  {
    var n := if parsed.None? || parsed.value == 0 then DefaultLimit as int else parsed.value;
    if n < 1 then 1 else if n > MaxLimit then MaxLimit else n
  }

  /** A well-formed listing of `uids`: a page of the store's ordered query,
      each item that document's `{uid, token, lastSeen}`, and `nextCursor`
      the last item's `lastSeen`, null exactly for an empty page. */
  ghost predicate IsListing(uids: map<string, TagRecord>, after: Option<int>, limit: nat, listing: StatsListing) {
    var data := listing.data;
    && IsPage(LastSeenIndex(uids), after, limit, ItemUids(data))
    && (forall i :: 0 <= i < |data| ==> data[i].uid in uids && data[i] == ItemOf(data[i].uid, uids[data[i].uid]))
    && (listing.nextCursor.None? <==> data == [])
    && (data != [] ==> listing.nextCursor == Some(data[|data| - 1].lastSeen))
  }

  /** The query and the projection `listAllStats` performs on a cache miss. */
  method ReadListing(db: Db, after: Option<int>, limit: nat) returns (listing: StatsListing)
    ensures IsListing(db.uids, after, limit, listing)
  {
    var ids := db.QueryByLastSeen(after, limit);
    var data := seq(|ids|, i requires 0 <= i < |ids| && ids[i] in db.uids reads db => ItemOf(ids[i], db.uids[ids[i]]));
    assert ItemUids(data) == ids;
    var nextCursor := if |data| > 0 then Some(data[|data| - 1].lastSeen) else None;
    listing := StatsListing(data, nextCursor);
  }

  /** `getStatsByUid(uid, cache)`: 400 for an empty uid; a cached reply as
      is, without reading the store; 404 for an absent tag, caching
      nothing; otherwise the tag's `{token, lastSeen}`, cached for 60 s. */
  method GetStatsByUid(db: Db, uid: string, cache: NodeCache?<Reply>) returns (r: Result<Reply>)
    modifies cache
    ensures uid == "" ==> r == Err(BadRequest)
    ensures uid != "" && cache != null && StatsUidKey(uid) in old(cache.entries) ==>
              r == Ok(old(cache.entries)[StatsUidKey(uid)].value)
    ensures uid != "" && (cache == null || StatsUidKey(uid) !in old(cache.entries)) ==>
              && (uid !in db.uids ==> r == Err(NotFound))
              && (uid in db.uids ==> r == Ok(One(StatsOf(db.uids[uid]))))
    ensures cache != null ==>
              cache.entries == if r.Ok? && StatsUidKey(uid) !in old(cache.entries)
                               then old(cache.entries)[StatsUidKey(uid) := Entry(r.value, Some(CacheTtl))]
                               else old(cache.entries)
  {
    if uid == "" {
      return Err(BadRequest);
    }
    var key := StatsUidKey(uid);
    if cache != null && cache.Has(key) {
      return Ok(cache.Get(key).value);
    }
    if uid !in db.uids {
      return Err(NotFound);
    }
    var result := One(StatsOf(db.uids[uid]));
    if cache != null {
      cache.Set(key, result, Some(CacheTtl));
    }
    return Ok(result);
  }

  /** `listAllStats({limit, startAfter}, cache)`, as written: the limit is
      clamped, the cache is consulted under the key built from the clamped
      limit and the raw cursor text, and only on a miss is the cursor
      checked (400 when it is not a date) and the store queried; a fresh
      listing is cached for 60 s. */
  method ListAllStats(db: Db, parsedLimit: Option<int>, startAfter: Cursor, cache: NodeCache?<Reply>)
    returns (r: Result<Reply>)
    modifies cache
    ensures var key := StatsListKey(ClampLimit(parsedLimit), startAfter);
            cache != null && key in old(cache.entries) ==>
              r == Ok(old(cache.entries)[key].value) && cache.entries == old(cache.entries)
    ensures var key := StatsListKey(ClampLimit(parsedLimit), startAfter);
            (cache == null || key !in old(cache.entries)) ==>
              && (startAfter.Given() && startAfter.instant.None? ==>
                    r == Err(BadRequest) && (cache != null ==> cache.entries == old(cache.entries)))
              && (!(startAfter.Given() && startAfter.instant.None?) ==>
                    && r.Ok? && r.value.Listing?
                    && IsListing(db.uids, startAfter.Bound(), ClampLimit(parsedLimit), r.value.listing)
                    && (cache != null ==> cache.entries == old(cache.entries)[key := Entry(r.value, Some(CacheTtl))]))
  {
    var limit := ClampLimit(parsedLimit);
    var key := StatsListKey(limit, startAfter);
    if cache != null && cache.Has(key) {
      return Ok(cache.Get(key).value);
    }
    if startAfter.Given() && startAfter.instant.None? {
      return Err(BadRequest);
    }
    var listing := ReadListing(db, startAfter.Bound(), limit);
    var response := Listing(listing);
    if cache != null {
      cache.Set(key, response, Some(CacheTtl));
    }
    return Ok(response);
  }

  /** The text `init` is not a date, yet it yields the very key under which
      the first page (no cursor) is cached: with that page cached,
      `ListAllStats` answers a request whose cursor is `init` with the first
      page, while with a cold cache the same request is rejected with 400. */
  lemma InitCursorCollides(limit: nat, instant: Option<int>)
    ensures var first := Cursor("", instant);
            var init := Cursor("init", None);
            && !first.Given()
            && init.Given() && init.instant.None?
            && StatsListKey(limit, first) == StatsListKey(limit, init)
  {
  }

  /** `listAllStats` with the cursor checked before the cache is consulted:
      a cursor that is not a date is rejected whatever the cache holds, so
      a cached reply can no longer stand in for a 400. */
  method ListAllStatsValidated(db: Db, parsedLimit: Option<int>, startAfter: Cursor, cache: NodeCache?<Reply>)
    returns (r: Result<Reply>)
    modifies cache
    ensures startAfter.Given() && startAfter.instant.None? ==>
              r == Err(BadRequest) && (cache != null ==> cache.entries == old(cache.entries))
    ensures var key := StatsListKey(ClampLimit(parsedLimit), startAfter);
            !(startAfter.Given() && startAfter.instant.None?) ==>
              && (cache != null && key in old(cache.entries) ==>
                    r == Ok(old(cache.entries)[key].value) && cache.entries == old(cache.entries))
              && ((cache == null || key !in old(cache.entries)) ==>
                    && r.Ok? && r.value.Listing?
                    && IsListing(db.uids, startAfter.Bound(), ClampLimit(parsedLimit), r.value.listing)
                    && (cache != null ==> cache.entries == old(cache.entries)[key := Entry(r.value, Some(CacheTtl))]))
  {
    if startAfter.Given() && startAfter.instant.None? {
      return Err(BadRequest);
    }
    r := ListAllStats(db, parsedLimit, startAfter, cache);
  }
}
