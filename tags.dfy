/** The tag registry (`controllers/tagController.js`): the create-or-increment
    transaction run for every scan, the single-tag lookup and the paginated
    listing. A transaction is one atomic step on the `uids` collection. */
module TagController {
  import opened Common
  import opened Store

  /** What `saveUID` receives. A string is `""` when the property is missing
      (or otherwise falsy); `location` is `None` when the property is absent. */
  datatype ScanRequest = ScanRequest(uid: string, url: string, deviceId: string, scanType: string, location: Option<Value>)

  /** One scan as it happens: the request and the transaction's `Timestamp.now()`. */
  datatype Scan = Scan(req: ScanRequest, at: int)

  /** Any of the four required properties missing. */
  predicate MissingField(req: ScanRequest) {
    req.uid == "" || req.url == "" || req.deviceId == "" || req.scanType == ""
  }

  /** `location = null`: an absent location is stored as null. */
  function LocationOf(req: ScanRequest): Value {
    if req.location.Some? then req.location.value else Null
  }

  /** The history entry one scan contributes. */
  function EntryOf(req: ScanRequest, now: int): ScanEntry {
    ScanEntry(now, req.deviceId, req.scanType, LocationOf(req))
  }

  /** The document the transaction leaves behind: `tx.set` of a fresh record
      when the snapshot does not exist, `tx.update` with `increment(1)` and
      `arrayUnion(entry)` when it does. */
  function ApplyScan(current: Option<TagRecord>, req: ScanRequest, now: int): (r: TagRecord)
    ensures current.None? ==>
              && r.uid == req.uid && r.token == 1
              && r.firstSeen == now && r.lastSeen == now
              && r.historial == [EntryOf(req, now)]
    ensures current.Some? ==>
              && r.uid == current.value.uid
              && r.token == current.value.token + 1
              && r.firstSeen == current.value.firstSeen
              && r.lastSeen == now
              && current.value.historial <= r.historial
              && |r.historial| <= |current.value.historial| + 1
              && (EntryOf(req, now) in current.value.historial <==> r.historial == current.value.historial)
    ensures EntryOf(req, now) in r.historial
    ensures && r.urlAccedida == req.url && r.lastDevice == req.deviceId
            && r.lastScanType == req.scanType && r.lastLocation == LocationOf(req)
  {
    var entry := EntryOf(req, now);
    match current
    case None =>
      TagRecord(req.uid, req.url, 1, now, now, [entry], req.deviceId, req.scanType, LocationOf(req))
    case Some(rec) =>
      rec.(token := rec.token + 1, urlAccedida := req.url, lastSeen := now,
           historial := ArrayUnion(rec.historial, entry),
           lastDevice := req.deviceId, lastScanType := req.scanType, lastLocation := LocationOf(req))
  }

  /** The `uids` collection after `saveUID(req)` at time `now`. */
  function Saved(uids: map<string, TagRecord>, req: ScanRequest, now: int): (r: map<string, TagRecord>)
    ensures MissingField(req) ==> r == uids
    ensures !MissingField(req) ==>
              && r.Keys == uids.Keys + {req.uid}
              && r[req.uid] == ApplyScan(Lookup(uids, req.uid), req, now)
    ensures forall id :: id in uids && id != req.uid ==> id in r && r[id] == uids[id]
  {
    if MissingField(req) then uids else uids[req.uid := ApplyScan(Lookup(uids, req.uid), req, now)]
  }

  /** `saveUID`: validate, then run the read-and-write transaction on the
      tag's document; replies `{uid}`. */
  method SaveUID(db: Db, req: ScanRequest, now: int) returns (r: Result<string>)
    modifies db`uids
    ensures MissingField(req) ==> r == Err(BadRequest) && db.uids == old(db.uids)
    ensures !MissingField(req) ==> r == Ok(req.uid)
    ensures db.uids == Saved(old(db.uids), req, now)
  {
    if MissingField(req) {
      return Err(BadRequest);
    }
    var snapshot := Lookup(db.uids, req.uid);
    db.uids := db.uids[req.uid := ApplyScan(snapshot, req, now)];
    return Ok(req.uid);
  }

  /** The `uids` collection after a sequence of scans, in the order the
      store serialised their transactions. */
  function Replay(uids: map<string, TagRecord>, scans: seq<Scan>): map<string, TagRecord>
    decreases |scans|
  {
    if scans == [] then uids else Replay(Saved(uids, scans[0].req, scans[0].at), scans[1..])
  }

  /** Valid scans of one tag. */
  ghost predicate ScansOf(uid: string, scans: seq<Scan>) {
    forall i :: 0 <= i < |scans| ==> !MissingField(scans[i].req) && scans[i].req.uid == uid
  }

  /** Scans of an existing tag: the counter rises by one per scan, the
      history keeps its old entries as a prefix and gains each scan's entry
      at most once, `firstSeen` stays and `lastSeen` is the last scan's time.
      Other tags are untouched. */
  lemma {:induction false} ReplayExisting(uids: map<string, TagRecord>, uid: string, scans: seq<Scan>)
    requires uid in uids && ScansOf(uid, scans)
    ensures uid in Replay(uids, scans)
    ensures var rec := Replay(uids, scans)[uid];
            && rec.token == uids[uid].token + |scans|
            && uids[uid].historial <= rec.historial
            && |rec.historial| <= |uids[uid].historial| + |scans|
            && (forall i :: 0 <= i < |scans| ==> EntryOf(scans[i].req, scans[i].at) in rec.historial)
            && rec.firstSeen == uids[uid].firstSeen
            && rec.lastSeen == (if scans == [] then uids[uid].lastSeen else scans[|scans| - 1].at)
    ensures forall id :: id in uids && id != uid ==> id in Replay(uids, scans) && Replay(uids, scans)[id] == uids[id]
    decreases |scans|
  {
    if scans != [] {
      var next := Saved(uids, scans[0].req, scans[0].at);
      assert ScansOf(uid, scans[1..]) by {
        forall i | 0 <= i < |scans[1..]| ensures !MissingField(scans[1..][i].req) && scans[1..][i].req.uid == uid {
          assert scans[1..][i] == scans[i + 1];
        }
      }
      ReplayExisting(next, uid, scans[1..]);
      var rec := Replay(uids, scans)[uid];
      assert Replay(uids, scans) == Replay(next, scans[1..]);
      forall i | 0 <= i < |scans| ensures EntryOf(scans[i].req, scans[i].at) in rec.historial {
        if i > 0 {
          assert scans[i] == scans[1..][i - 1];
        } else {
          assert EntryOf(scans[0].req, scans[0].at) in next[uid].historial;
        }
      }
      if |scans| > 1 {
        assert scans[|scans| - 1] == scans[1..][|scans[1..]| - 1];
      }
    }
  }

  /** N valid scans of a tag the store has never seen leave it with
      `token == N`, a history of at most N entries holding every scan's
      entry, `firstSeen` the first scan's time and `lastSeen` the last's,
      whatever order the scans were serialised in. */
  lemma {:induction false} RepeatedScans(uids: map<string, TagRecord>, uid: string, scans: seq<Scan>)
    requires uid !in uids && scans != [] && ScansOf(uid, scans)
    ensures uid in Replay(uids, scans)
    ensures var rec := Replay(uids, scans)[uid];
            && rec.token == |scans|
            && 1 <= |rec.historial| <= |scans|
            && (forall i :: 0 <= i < |scans| ==> EntryOf(scans[i].req, scans[i].at) in rec.historial)
            && rec.firstSeen == scans[0].at
            && rec.lastSeen == scans[|scans| - 1].at
  {
    var first := Saved(uids, scans[0].req, scans[0].at);
    assert ScansOf(uid, scans[1..]) by {
      forall i | 0 <= i < |scans[1..]| ensures !MissingField(scans[1..][i].req) && scans[1..][i].req.uid == uid {
        assert scans[1..][i] == scans[i + 1];
      }
    }
    ReplayExisting(first, uid, scans[1..]);
    assert Replay(uids, scans) == Replay(first, scans[1..]);
    var rec := Replay(uids, scans)[uid];
    forall i | 0 <= i < |scans| ensures EntryOf(scans[i].req, scans[i].at) in rec.historial {
      if i > 0 {
        assert scans[i] == scans[1..][i - 1];
      }
    }
    if |scans| > 1 {
      assert scans[|scans| - 1] == scans[1..][|scans[1..]| - 1];
    }
  }

  /** `arrayUnion` drops an entry equal to one already present: two scans of
      one tag by the same device at the same instant count twice but leave a
      single history entry, so `token == |historial|` is not an invariant. */
  lemma TokenCanExceedHistory()
    ensures var s := Scan(ScanRequest("a1b2", "https://x.test", "d1", "nfc", None), 7);
            var after := Replay(map[], [s, s]);
            "a1b2" in after && after["a1b2"].token == 2 && |after["a1b2"].historial| == 1
  {
    var s := Scan(ScanRequest("a1b2", "https://x.test", "d1", "nfc", None), 7);
    var once := Saved(map[], s.req, s.at);
    assert Replay(map[], [s, s]) == Replay(once, [s]);
    assert Replay(once, [s]) == Saved(once, s.req, s.at);
  }

  /** `getUID`: 400 for an empty uid, 404 for an absent document, otherwise
      the document's fields with `uid` the document id. */
  function GetUID(uids: map<string, TagRecord>, uid: string): (r: Result<TagRecord>)
    ensures r == Err(BadRequest) <==> uid == ""
    ensures r == Err(NotFound) <==> uid != "" && uid !in uids
    ensures r.Ok? <==> uid != "" && uid in uids
    ensures r.Ok? ==> r.value == uids[uid].(uid := uid)
  {
    if uid == "" then Err(BadRequest)
    else if uid !in uids then Err(NotFound)
    else Ok(uids[uid].(uid := uid))
  }

  /** One element of a listing: a tag document without its `last*` device fields. */
  datatype ListedTag = ListedTag(uid: string, urlAccedida: string, token: nat, firstSeen: int, lastSeen: int, historial: seq<ScanEntry>)

  datatype TagListing = TagListing(data: seq<ListedTag>, nextCursor: Option<int>)

  function Listed(id: string, rec: TagRecord): ListedTag {
    ListedTag(id, rec.urlAccedida, rec.token, rec.firstSeen, rec.lastSeen, rec.historial)
  }

  function UidsOf(data: seq<ListedTag>): (ids: seq<string>)
    ensures |ids| == |data| && forall i :: 0 <= i < |data| ==> ids[i] == data[i].uid
  {
    seq(|data|, i requires 0 <= i < |data| => data[i].uid)
  }

  /** `getAllUIDs`: one page of tags, newest `lastSeen` first, strictly older
      than the cursor when one is given, and the `lastSeen` of its last
      element as `nextCursor` (null for an empty page). A cursor that is not
      a date makes `Timestamp.fromDate` throw. */
  method GetAllUIDs(db: Db, limit: nat, startAfter: Cursor) returns (r: Result<TagListing>)
    ensures startAfter.Given() && startAfter.instant.None? ==> r == Err(Unclassified)
    ensures r.Ok? <==> !(startAfter.Given() && startAfter.instant.None?)
    ensures r.Ok? ==>
              var data := r.value.data;
              && IsPage(LastSeenIndex(db.uids), startAfter.Bound(), limit, UidsOf(data))
              && (forall i :: 0 <= i < |data| ==> data[i].uid in db.uids && data[i] == Listed(data[i].uid, db.uids[data[i].uid]))
              && (r.value.nextCursor.None? <==> data == [])
              && (data != [] ==> r.value.nextCursor == Some(data[|data| - 1].lastSeen))
  {
    if startAfter.Given() && startAfter.instant.None? {
      return Err(Unclassified);
    }
    var ids := db.QueryByLastSeen(startAfter.Bound(), limit);
    var data := seq(|ids|, i requires 0 <= i < |ids| && ids[i] in db.uids reads db => Listed(ids[i], db.uids[ids[i]]));
    assert UidsOf(data) == ids;
    var nextCursor := if |data| > 0 then Some(data[|data| - 1].lastSeen) else None;
    return Ok(TagListing(data, nextCursor));
  }
}
