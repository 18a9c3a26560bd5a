/** The tag routes (`routes/tagRoutes.js`): request validation and the
    handlers' use of the shared in-memory cache around the tag registry.
    A handler either replies with a status and a body or forwards a thrown
    error to the application's error handler. */
module TagRoutes {
  import opened Common
  import opened Store
  import opened Keys
  import opened Cache
  import opened TagController

  /** What the handlers keep in the cache: the POST marker (`true`) and a tag
      read by GET `/:uid`. */
  datatype Cached = Seen | Tag(tag: TagRecord)

  datatype Body =
    | ValidationFailed
    | AlreadyProcessed
    | Processed(uid: string)
    | FromCache(cached: Cached)
    | TagData(tag: TagRecord)
    | TagList(listing: TagListing)

  datatype Response = Reply(status: int, body: Body) | Forward(error: Error)

  /** TTL, in seconds, of a tag cached by GET `/:uid`. */
  const TagTtl: nat := 120
  /** `limit` when the query string has none. */
  const DefaultListLimit: nat := 100

  predicate HexDigit(c: char) {
    '0' <= c <= '9' || 'a' <= c <= 'f' || 'A' <= c <= 'F'
  }

  predicate AllHex(s: string) {
    forall i :: 0 <= i < |s| ==> HexDigit(s[i])
  }

  /** `isHexadecimal()`: hexadecimal digits, optionally after a `0x` or `0h`
      prefix (either case). */
  predicate IsHexadecimal(s: string) {
    || (|s| >= 1 && AllHex(s))
    || (|s| >= 3 && s[0] == '0' && s[1] in {'x', 'X', 'h', 'H'} && AllHex(s[2..]))
  }

  /** The uid rule shared by POST `/` and GET `/:uid`: hexadecimal, 4 to 32
      characters. */
  predicate ValidUid(uid: string) {
    IsHexadecimal(uid) && 4 <= |uid| <= 32
  }

  /** `isIn(['nfc'])` */
  predicate ValidScanType(scanType: string) {
    scanType == "nfc"
  }

  /** The body rules of POST `/`; `isUrl` stands for the URL validator. */
  predicate ValidPost(body: ScanRequest, isUrl: string -> bool) {
    && ValidUid(body.uid)
    && isUrl(body.url)
    && body.deviceId != ""
    && ValidScanType(body.scanType)
  }

  /** POST `/`: a uid still in the cache is acknowledged with 200 and not
      saved again; otherwise the scan is saved and, only when that succeeds,
      the uid is marked in the cache (default TTL) and 201 returned. */
  method PostTag(db: Db, cache: NodeCache<Cached>, body: ScanRequest, now: int, isUrl: string -> bool)
    returns (resp: Response)
    modifies db`uids, cache
    ensures !ValidPost(body, isUrl) ==>
              resp == Reply(400, ValidationFailed) && db.uids == old(db.uids) && cache.entries == old(cache.entries)
    ensures ValidPost(body, isUrl) && body.uid in old(cache.entries) ==>
              resp == Reply(200, AlreadyProcessed) && db.uids == old(db.uids) && cache.entries == old(cache.entries)
    ensures ValidPost(body, isUrl) && body.uid !in old(cache.entries) ==>
              && db.uids == Saved(old(db.uids), body, now)
              && (body.url == "" ==> resp == Forward(BadRequest) && cache.entries == old(cache.entries))
              && (body.url != "" ==>
                    && resp == Reply(201, Processed(body.uid))
                    && cache.entries == old(cache.entries)[body.uid := Entry(Seen, None)])
  {
    if !ValidPost(body, isUrl) {
      return Reply(400, ValidationFailed);
    }
    if cache.Has(body.uid) {
      return Reply(200, AlreadyProcessed);
    }
    var saved := SaveUID(db, body, now);
    if saved.Err? {
      return Forward(saved.error);
    }
    cache.Set(body.uid, Seen, None);
    return Reply(201, Processed(saved.value));
  }

  /** GET `/:uid`: read-through on `tag_<uid>`; a miss reads the tag,
      caches it for 120 s and returns it, and a lookup error is forwarded
      with nothing cached. */
  method GetTag(db: Db, cache: NodeCache<Cached>, uid: string) returns (resp: Response)
    modifies cache
    ensures !ValidUid(uid) ==> resp == Reply(400, ValidationFailed) && cache.entries == old(cache.entries)
    ensures ValidUid(uid) && TagKey(uid) in old(cache.entries) ==>
              resp == Reply(200, FromCache(old(cache.entries)[TagKey(uid)].value))
              && cache.entries == old(cache.entries)
    ensures ValidUid(uid) && TagKey(uid) !in old(cache.entries) ==>
              && (uid !in db.uids ==> resp == Forward(NotFound) && cache.entries == old(cache.entries))
              && (uid in db.uids ==>
                    var tag := db.uids[uid].(uid := uid);
                    && resp == Reply(200, TagData(tag))
                    && cache.entries == old(cache.entries)[TagKey(uid) := Entry(Tag(tag), Some(TagTtl))])
  {
    if !ValidUid(uid) {
      return Reply(400, ValidationFailed);
    }
    var key := TagKey(uid);
    if cache.Has(key) {
      return Reply(200, FromCache(cache.Get(key).value));
    }
    var found := GetUID(db.uids, uid);
    if found.Err? {
      return Forward(found.error);
    }
    cache.Set(key, Tag(found.value), Some(TagTtl));
    return Reply(200, TagData(found.value));
  }

  /** GET `/`, as written: `limit` comes from the query string, so when the
      request gives one it is text, and the store client's `.limit()` refuses
      anything but an integer; the listing then throws and the error is
      forwarded. Without one, the default 100 and `startAfter` go to the
      listing, whose page is returned with 200 and whose error is forwarded. */
  method ListTags(db: Db, limit: Option<string>, startAfter: Cursor) returns (resp: Response)
    ensures limit.Some? ==> resp == Forward(Unclassified)
    ensures limit.None? ==>
              && (startAfter.Given() && startAfter.instant.None? ==> resp == Forward(Unclassified))
              && (resp.Reply? <==> !(startAfter.Given() && startAfter.instant.None?))
    ensures resp.Reply? ==>
              && resp.status == 200 && resp.body.TagList?
              && var data := resp.body.listing.data;
                 && IsPage(LastSeenIndex(db.uids), startAfter.Bound(), DefaultListLimit, UidsOf(data))
                 && (forall i :: 0 <= i < |data| ==> data[i].uid in db.uids && data[i] == Listed(data[i].uid, db.uids[data[i].uid]))
                 && (resp.body.listing.nextCursor.None? <==> data == [])
                 && (data != [] ==> resp.body.listing.nextCursor == Some(data[|data| - 1].lastSeen))
  {
    if limit.Some? {
      return Forward(Unclassified);
    }
    var tags := GetAllUIDs(db, DefaultListLimit, startAfter);
    if tags.Err? {
      return Forward(tags.error);
    }
    return Reply(200, TagList(tags.value));
  }

  /** GET `/` with the query's `limit` read as a number (100 when absent,
      otherwise unclamped), as the route's documentation advertises
      (`?limit=50`): only an invalid cursor is forwarded, and every other
      request gets 200 with a page of that size. */
  method ListTagsNumeric(db: Db, limit: Option<nat>, startAfter: Cursor) returns (resp: Response)
    ensures startAfter.Given() && startAfter.instant.None? ==> resp == Forward(Unclassified)
    ensures resp.Reply? <==> !(startAfter.Given() && startAfter.instant.None?)
    ensures resp.Reply? ==>
              && resp.status == 200 && resp.body.TagList?
              && var data := resp.body.listing.data;
                 var n := if limit.Some? then limit.value else DefaultListLimit;
                 && IsPage(LastSeenIndex(db.uids), startAfter.Bound(), n, UidsOf(data))
                 && (forall i :: 0 <= i < |data| ==> data[i].uid in db.uids && data[i] == Listed(data[i].uid, db.uids[data[i].uid]))
                 && (resp.body.listing.nextCursor.None? <==> data == [])
                 && (data != [] ==> resp.body.listing.nextCursor == Some(data[|data| - 1].lastSeen))
  {
    var n := if limit.Some? then limit.value else DefaultListLimit;
    var tags := GetAllUIDs(db, n, startAfter);
    if tags.Err? {
      return Forward(tags.error);
    }
    return Reply(200, TagList(tags.value));
  }

  /** A valid uid has no `_`, so the POST marker's key (the uid itself) is
      never a GET key `tag_<v>`: a POST neither hits nor refreshes the entry
      a GET cached. */
  lemma ValidUidIsNoTagKey(uid: string, v: string)
    requires ValidUid(uid)
    ensures uid != TagKey(v)
  {
    assert HexDigit(uid[3]) by {
      if !AllHex(uid) {
        assert uid[2..][1] == uid[3];
      }
    }
    assert TagKey(v)[3] == '_';
  }

  /** Nor does a valid uid coincide with a key of the stats reader, which all
      start with `stats:`. */
  lemma ValidUidIsNoStatsKey(uid: string, v: string, limit: nat, c: Cursor)
    requires ValidUid(uid)
    ensures uid != StatsUidKey(v) && uid != StatsListKey(limit, c)
  {
    assert HexDigit(uid[0]);
    assert StatsUidKey(v)[0] == 's' && StatsListKey(limit, c)[0] == 's';
  }

  /** A POST whose uid passes validation leaves every GET entry as it was. */
  lemma PostKeepsTagEntries(before: map<string, Entry<Cached>>, after: map<string, Entry<Cached>>, uid: string, v: string)
    requires ValidUid(uid)
    requires after == before || after == before[uid := Entry(Seen, None)]
    ensures TagKey(v) in after <==> TagKey(v) in before
    ensures TagKey(v) in before ==> after[TagKey(v)] == before[TagKey(v)]
  {
    ValidUidIsNoTagKey(uid, v);
  }
}
