/** The document store as the controllers see it: three collections held as
    maps from document id to document, and the one ordered range query the
    listings issue (`orderBy('lastSeen', 'desc').limit(n).startAfter(c)`). */
module Store {
  import opened Common

  /** One element of a tag's `historial`. */
  datatype ScanEntry = ScanEntry(timestamp: int, deviceId: string, scanType: string, location: Value)

  /** A document of the `uids` collection. */
  datatype TagRecord = TagRecord(
    uid: string,
    urlAccedida: string,
    token: nat,
    firstSeen: int,
    lastSeen: int,
    historial: seq<ScanEntry>,
    lastDevice: string,
    lastScanType: string,
    lastLocation: Value)

  /** A document of the `stats_web` collection. A counter that no event has
      incremented yet is absent from the stored document; it reads as 0 here. */
  datatype StatsDoc = StatsDoc(
    lastSeen: int,
    lastPage: Value,
    platform: Value,
    source: Value,
    lastSessionId: Value,
    history: seq<int>,
    pageViews: nat,
    totalClicks: nat)

  /** A document of the `nfc_events` collection: its fields by name. */
  type Fields = map<string, Value>

  /** The `arrayUnion(x)` field transform: x is appended unless an equal
      element is already present, so the array is a set that keeps
      insertion order. */
  function ArrayUnion<T(==)>(s: seq<T>, x: T): (r: seq<T>)
    ensures x in r
    ensures s <= r && |r| <= |s| + 1
    ensures x in s <==> r == s
    ensures forall y :: y in r ==> y in s || y == x
  {
    if x in s then s else s + [x]
  }

  /** The document stored under `id`, if any: what a snapshot holds. */
  function Lookup<V>(docs: map<string, V>, id: string): Option<V> {
    if id in docs then Some(docs[id]) else None
  }

  /** The `lastSeen` of every tag document: the key the listings sort by. */
  function LastSeenIndex(uids: map<string, TagRecord>): (index: map<string, int>)
    ensures index.Keys == uids.Keys
    ensures forall id :: id in index ==> index[id] == uids[id].lastSeen
  {
    map id | id in uids :: uids[id].lastSeen
  }

  /** A document a query with cursor `after` may return: `startAfter(c)` on
      a descending order means strictly older than c. */
  ghost predicate Eligible(index: map<string, int>, after: Option<int>, id: string) {
    id in index && (after.Some? ==> index[id] < after.value)
  }

  ghost predicate Distinct(ids: seq<string>) {
    forall i, j :: 0 <= i < j < |ids| ==> ids[i] != ids[j]
  }

  /** What the store promises of `orderBy(lastSeen, desc).limit(limit)
      .startAfter(after)`: at most `limit` distinct eligible documents,
      newest first, and no eligible document left out unless the page is
      full and that document is no newer than the last one returned. */
  ghost predicate IsPage(index: map<string, int>, after: Option<int>, limit: nat, ids: seq<string>) {
    && |ids| <= limit
    && (forall i :: 0 <= i < |ids| ==> Eligible(index, after, ids[i]))
    && Distinct(ids)
    && (forall i, j :: 0 <= i < j < |ids| ==> index[ids[i]] >= index[ids[j]])
    && (forall id :: Eligible(index, after, id) && id !in ids ==>
          |ids| == limit && (|ids| > 0 ==> index[id] <= index[ids[|ids| - 1]]))
  }

  /** Every finite non-empty set of documents has a newest one. */
  lemma {:induction false} NewestExists(pool: set<string>, index: map<string, int>)
    requires pool != {} && pool <= index.Keys
    ensures exists m :: m in pool && forall o :: o in pool ==> index[o] <= index[m]
  {
    var x :| x in pool;
    if pool != {x} {
      var rest := pool - {x};
      NewestExists(rest, index);
      var m :| m in rest && forall o :: o in rest ==> index[o] <= index[m];
      if index[x] > index[m] {
        assert forall o :: o in pool ==> index[o] <= index[x];
      } else {
        assert forall o :: o in pool ==> index[o] <= index[m];
      }
    }
  }

  class Db {
    var uids: map<string, TagRecord>
    var events: map<string, Fields>
    var stats: map<string, StatsDoc>

    constructor ()
      ensures uids == map[] && events == map[] && stats == map[]
    {
      uids, events, stats := map[], map[], map[];
    }

    /** `collection('uids').orderBy('lastSeen', 'desc').limit(limit)`,
        followed by `.startAfter(after)` when a cursor is given. The ids of
        the returned documents, in order. */
    method QueryByLastSeen(after: Option<int>, limit: nat) returns (ids: seq<string>)
      ensures IsPage(LastSeenIndex(uids), after, limit, ids)
    {
      var index := LastSeenIndex(uids);
      var pool := set id | id in index && (after.None? || index[id] < after.value);
      ids := [];
      while |ids| < limit && pool != {}
        invariant |ids| <= limit
        invariant forall id :: id in pool ==> Eligible(index, after, id)
        invariant forall i :: 0 <= i < |ids| ==> Eligible(index, after, ids[i]) && ids[i] !in pool
        invariant Distinct(ids)
        invariant forall i, j :: 0 <= i < j < |ids| ==> index[ids[i]] >= index[ids[j]]
        invariant forall id :: Eligible(index, after, id) ==> id in pool || id in ids
        invariant forall id, i :: id in pool && 0 <= i < |ids| ==> index[id] <= index[ids[i]]
        decreases pool
      {
        NewestExists(pool, index);
        var top :| top in pool && forall o :: o in pool ==> index[o] <= index[top];
        ids := ids + [top];
        pool := pool - {top};
      }
    }
  }

  /** No two documents share a `lastSeen`. */
  ghost predicate NoTies(index: map<string, int>) {
    forall a, b :: a in index && b in index && a != b ==> index[a] != index[b]
  }

  /** Without ties, the documents a cursor admits are split exactly into the
      page and those strictly older than the page's last item, which is the
      cursor the listings hand back. */
  lemma PageThenRest(index: map<string, int>, after: Option<int>, limit: nat, ids: seq<string>)
    requires NoTies(index) && IsPage(index, after, limit, ids) && ids != []
    ensures forall id :: Eligible(index, after, id) <==>
              id in ids || Eligible(index, Some(index[ids[|ids| - 1]]), id)
    ensures forall id :: id in ids ==> !Eligible(index, Some(index[ids[|ids| - 1]]), id)
  {
    var last := ids[|ids| - 1];
    forall id | id in ids ensures !Eligible(index, Some(index[last]), id) {
      var i :| 0 <= i < |ids| && ids[i] == id;
      assert i == |ids| - 1 || index[ids[i]] >= index[last];
    }
    forall id | Eligible(index, after, id) && id !in ids
      ensures Eligible(index, Some(index[last]), id)
    {
      assert index[id] <= index[last] && id != last;
    }
  }

  /** The pages a client walks through: each one read with the cursor the
      previous one produced, stopping at the first empty page. */
  ghost predicate IsPageChain(index: map<string, int>, after: Option<int>, limit: nat, pages: seq<seq<string>>)
    decreases |pages|
  {
    && pages != []
    && IsPage(index, after, limit, pages[0])
    && (if pages[0] == [] then |pages| == 1
        else
          var head := pages[0];
          head[|head| - 1] in index &&
          IsPageChain(index, Some(index[head[|head| - 1]]), limit, pages[1..]))
  }

  ghost function Concat(pages: seq<seq<string>>): seq<string> {
    if pages == [] then [] else pages[0] + Concat(pages[1..])
  }

  lemma DistinctAppend(a: seq<string>, b: seq<string>)
    requires Distinct(a) && Distinct(b)
    requires forall x :: x in a ==> x !in b
    ensures Distinct(a + b)
  {
    forall i, j | 0 <= i < j < |a + b| ensures (a + b)[i] != (a + b)[j] {
      if j >= |a| && i < |a| {
        assert (a + b)[i] in a && (a + b)[j] in b;
      }
    }
  }

  /** Following `nextCursor` until an empty page yields every document the
      first cursor admits exactly once, provided no two documents share a
      `lastSeen`. */
  lemma {:induction false} ChainCoversEachOnce(index: map<string, int>, after: Option<int>, limit: nat, pages: seq<seq<string>>)
    requires limit > 0 && NoTies(index) && IsPageChain(index, after, limit, pages)
    ensures forall id :: id in Concat(pages) <==> Eligible(index, after, id)
    ensures Distinct(Concat(pages))
    decreases |pages|
  {
    var head := pages[0];
    if head == [] {
      assert Concat(pages) == [];
    } else {
      var next := Some(index[head[|head| - 1]]);
      ChainCoversEachOnce(index, next, limit, pages[1..]);
      PageThenRest(index, after, limit, head);
      assert Concat(pages) == head + Concat(pages[1..]);
      DistinctAppend(head, Concat(pages[1..]));
    }
  }

  /** With two documents sharing a `lastSeen`, a full page can end on one of
      them and the cursor then excludes the other for good. */
  lemma TiedDocumentIsSkipped()
    ensures var index := map["a" := 5, "b" := 5];
            && IsPage(index, None, 1, ["a"])
            && Eligible(index, None, "b") && "b" !in ["a"]
            && !Eligible(index, Some(index["a"]), "b")
  {
  }
}
