/** Event ingestion (`controllers/eventController.js`): a bounded batch is
    merge-written to `nfc_events`, then every event with a `uid` is folded
    into that uid's `stats_web` document. The concurrent stats writes are
    modelled as a sequential fold in which any single write may fail; the
    set `failed` names the events whose stats write fails. */
module EventController {
  import opened Common
  import opened Store

  /** `BATCH_LIMIT` */
  const BatchLimit := 500

  /** An event as posted: its properties by name. */
  type Event = map<string, Value>

  /** An element of the posted array: `None` for `null` or `undefined`, on
      which reading `evt.id` throws. Any other element that is not an object
      has no properties and reads as the empty event. */
  type Item = Option<Event>

  // ---------------------------------------------------------------------
  // Phase 1: the merge-write batch

  /** The document an event is written under: its `id`, when that is a
      non-empty string. Events with a falsy `id` are skipped. */
  function DocIdOf(evt: Event): Option<string> {
    match Field(evt, "id")
    case Str(s) => if s != "" then Some(s) else None
    case _ => None
  }

  /** A truthy `id` that is not a string: `doc(evt.id)` throws. */
  predicate BadId(evt: Event) {
    Truthy(Field(evt, "id")) && !Field(evt, "id").Str?
  }

  /** `set({...evt, receivedAt: serverTimestamp()}, {merge: true})` on a
      document: the event's fields overwrite, the server time stamps
      `receivedAt`, every other stored field stays. */
  function MergeEvent(stored: Option<Fields>, evt: Event, now: int): (r: Fields)
    ensures r.Keys == (if stored.Some? then stored.value.Keys else {}) + evt.Keys + {"receivedAt"}
    ensures forall f :: f in evt && f != "receivedAt" ==> r[f] == evt[f]
    ensures r["receivedAt"] == Time(now)
    ensures stored.Some? ==> forall f :: f in stored.value && f !in evt && f != "receivedAt" ==> r[f] == stored.value[f]
  {
    (if stored.Some? then stored.value else map[]) + evt + map["receivedAt" := Time(now)]
  }

  /** The `nfc_events` collection once the first `n` events of the batch
      have been applied in order. */
  function Committed(docs: map<string, Fields>, events: seq<Event>, n: nat, now: int): map<string, Fields>
    requires n <= |events|
    decreases n
  {
    if n == 0 then docs
    else
      var prev := Committed(docs, events, n - 1, now);
      match DocIdOf(events[n - 1])
      case None => prev
      case Some(k) => prev[k := MergeEvent(Lookup(prev, k), events[n - 1], now)]
  }

  /** Some event among the first `n` is written under `k`. */
  ghost predicate WritesTo(events: seq<Event>, n: nat, k: string)
    requires n <= |events|
  {
    exists i :: 0 <= i < n && DocIdOf(events[i]) == Some(k)
  }

  /** Exactly the events with an id are written, under that id: the
      documents after the batch are the old ones plus one per id, and a
      document no event names is untouched. */
  lemma {:induction false} CommittedKeys(docs: map<string, Fields>, events: seq<Event>, n: nat, now: int)
    requires n <= |events|
    ensures forall k :: k in Committed(docs, events, n, now) <==> k in docs || WritesTo(events, n, k)
    ensures forall k :: k in docs && !WritesTo(events, n, k) ==> Committed(docs, events, n, now)[k] == docs[k]
    decreases n
  {
    if n > 0 {
      CommittedKeys(docs, events, n - 1, now);
      forall k ensures WritesTo(events, n, k) <==> WritesTo(events, n - 1, k) || DocIdOf(events[n - 1]) == Some(k) {
        if WritesTo(events, n, k) {
          var i :| 0 <= i < n && DocIdOf(events[i]) == Some(k);
          if i < n - 1 {
            assert WritesTo(events, n - 1, k);
          }
        }
      }
    }
  }

  /** Merge semantics across the batch: a stored field that no event written
      to the same document carries survives, and every written document is
      stamped with the commit time. */
  lemma {:induction false} CommittedPreserves(docs: map<string, Fields>, events: seq<Event>, n: nat, now: int, k: string, f: string)
    requires n <= |events|
    requires k in docs && f in docs[k] && f != "receivedAt"
    requires forall i :: 0 <= i < n && DocIdOf(events[i]) == Some(k) ==> f !in events[i]
    ensures k in Committed(docs, events, n, now)
    ensures f in Committed(docs, events, n, now)[k]
    ensures Committed(docs, events, n, now)[k][f] == docs[k][f]
    decreases n
  {
    if n > 0 {
      CommittedPreserves(docs, events, n - 1, now, k, f);
    }
  }

  /** The last event written to a document decides every field it carries,
      and `receivedAt` is the commit time. */
  lemma {:induction false} CommittedLastWriter(docs: map<string, Fields>, events: seq<Event>, n: nat, now: int, i: nat)
    requires i < n <= |events| && DocIdOf(events[i]).Some?
    requires forall j :: i < j < n ==> DocIdOf(events[j]) != DocIdOf(events[i])
    ensures DocIdOf(events[i]).value in Committed(docs, events, n, now)
    ensures var doc := Committed(docs, events, n, now)[DocIdOf(events[i]).value];
            && (forall f :: f in events[i] && f != "receivedAt" ==> f in doc && doc[f] == events[i][f])
            && "receivedAt" in doc && doc["receivedAt"] == Time(now)
    decreases n
  {
    if n - 1 > i {
      CommittedLastWriter(docs, events, n - 1, now, i);
    }
  }

  // ---------------------------------------------------------------------
  // Phase 2: the stats fold

  /** What one event's merge-write to `stats_web/<uid>` sets. */
  datatype StatsDelta = StatsDelta(
    lastSeen: int,
    lastPage: Value,
    platform: Value,
    source: Value,
    lastSessionId: Value,
    pageView: bool,
    buttonClick: bool)

  datatype StatsUpdate = StatsUpdate(uid: string, delta: StatsDelta)

  /** What building the stats write for one event does: nothing for an
      event without a `uid`, throw (a non-string `uid` for `doc`, or a
      timestamp that is not a date for `Timestamp.fromDate`), or issue a write. */
  datatype Planned = Skip | Throws | Issue(update: StatsUpdate)

  /** The fields of one event's stats write, at instant `t`. */
  function DeltaOf(evt: Event, t: int): (d: StatsDelta)
    ensures d.lastSeen == t
    ensures d.pageView <==> Field(evt, "eventType") == Str("pageView")
    ensures d.buttonClick <==> Field(evt, "eventType") == Str("buttonClick")
    ensures Truthy(Field(evt, "page")) ==> d.lastPage == Field(evt, "page")
    ensures !Truthy(Field(evt, "page")) && Truthy(Field(evt, "url")) ==> d.lastPage == Field(evt, "url")
    ensures !Truthy(Field(evt, "page")) && !Truthy(Field(evt, "url")) ==> d.lastPage == Null
    ensures d.platform == if Truthy(Chain(Field(evt, "metadata"), "platform"))
                          then Chain(Field(evt, "metadata"), "platform") else Str("unknown")
    ensures d.source == if Truthy(Field(evt, "source")) then Field(evt, "source") else Str("NFC")
    ensures d.lastSessionId == if Truthy(Field(evt, "sessionId")) then Field(evt, "sessionId") else Null
  {
    StatsDelta(
      t,
      Or(Field(evt, "page"), Or(Field(evt, "url"), Null)),
      Or(Chain(Field(evt, "metadata"), "platform"), Str("unknown")),
      Or(Field(evt, "source"), Str("NFC")),
      Or(Field(evt, "sessionId"), Null),
      Field(evt, "eventType") == Str("pageView"),
      Field(evt, "eventType") == Str("buttonClick"))
  }

  /** The stats write one event gives rise to; `dateOf(v)` is the instant
      `new Date(v)` denotes, `None` for an Invalid Date. */
  function PlanOf(evt: Event, dateOf: Value -> Option<int>): (p: Planned)
    ensures p.Skip? <==> !Truthy(Field(evt, "uid"))
    ensures p.Throws? <==> Truthy(Field(evt, "uid")) &&
                           (!Field(evt, "uid").Str? || dateOf(Field(evt, "timestamp")).None?)
    ensures p.Issue? ==> && Field(evt, "uid") == Str(p.update.uid) && p.update.uid != ""
                         && dateOf(Field(evt, "timestamp")).Some?
                         && p.update.delta == DeltaOf(evt, dateOf(Field(evt, "timestamp")).value)
  {
    var uid := Field(evt, "uid");
    if !Truthy(uid) then Skip
    else if !uid.Str? then Throws
    else
      match dateOf(Field(evt, "timestamp"))
      case None => Throws
      case Some(t) => Issue(StatsUpdate(uid.s, DeltaOf(evt, t)))
  }

  function PageViewsOf(stored: Option<StatsDoc>): nat {
    if stored.Some? then stored.value.pageViews else 0
  }

  function ClicksOf(stored: Option<StatsDoc>): nat {
    if stored.Some? then stored.value.totalClicks else 0
  }

  /** A merge-write of a delta: `last*`, `platform` and `source` are
      overwritten, the timestamp is union-added to `history`, and each
      counter goes up by one exactly when the delta carries its increment. */
  function MergeStats(stored: Option<StatsDoc>, d: StatsDelta): (r: StatsDoc)
    ensures r.pageViews == PageViewsOf(stored) + (if d.pageView then 1 else 0)
    ensures r.totalClicks == ClicksOf(stored) + (if d.buttonClick then 1 else 0)
    ensures && r.lastSeen == d.lastSeen && r.lastPage == d.lastPage && r.platform == d.platform
            && r.source == d.source && r.lastSessionId == d.lastSessionId
    ensures r.history == ArrayUnion(if stored.Some? then stored.value.history else [], d.lastSeen)
  {
    var history := ArrayUnion(if stored.Some? then stored.value.history else [], d.lastSeen);
    StatsDoc(d.lastSeen, d.lastPage, d.platform, d.source, d.lastSessionId, history,
             PageViewsOf(stored) + (if d.pageView then 1 else 0),
             ClicksOf(stored) + (if d.buttonClick then 1 else 0))
  }

  /** The `stats_web` collection after one update lands. */
  function ApplyUpdate(stats: map<string, StatsDoc>, u: StatsUpdate): map<string, StatsDoc> {
    stats[u.uid := MergeStats(Lookup(stats, u.uid), u.delta)]
  }

  /** The `stats_web` collection after the updates land in the given order. */
  function ApplyUpdates(stats: map<string, StatsDoc>, us: seq<StatsUpdate>): map<string, StatsDoc>
    decreases |us|
  {
    if us == [] then stats else ApplyUpdate(ApplyUpdates(stats, us[..|us| - 1]), us[|us| - 1])
  }

  lemma ApplyUpdatesSnoc(stats: map<string, StatsDoc>, us: seq<StatsUpdate>, u: StatsUpdate)
    ensures ApplyUpdates(stats, us + [u]) == ApplyUpdate(ApplyUpdates(stats, us), u)
  {
    assert (us + [u])[..|us|] == us;
  }

  /** The updates that land among those issued for the first `n` events. */
  function Landed(events: seq<Event>, n: nat, dateOf: Value -> Option<int>, failed: set<nat>): seq<StatsUpdate>
    requires n <= |events|
    decreases n
  {
    if n == 0 then []
    else
      var p := PlanOf(events[n - 1], dateOf);
      Landed(events, n - 1, dateOf, failed) + (if p.Issue? && n - 1 !in failed then [p.update] else [])
  }

  /** How many events are processed before one throws (all of them when none does). */
  function Reached(events: seq<Event>, dateOf: Value -> Option<int>): (k: nat)
    ensures k <= |events|
    ensures forall j :: 0 <= j < k ==> !PlanOf(events[j], dateOf).Throws?
    ensures k < |events| ==> PlanOf(events[k], dateOf).Throws?
    decreases |events|
  {
    if events == [] || PlanOf(events[0], dateOf).Throws? then 0
    else
      var k := 1 + Reached(events[1..], dateOf);
      assert forall j :: 1 <= j < |events| ==> events[j] == events[1..][j - 1];
      k
  }

  // ---------------------------------------------------------------------
  // Counters

  function PageViews(stats: map<string, StatsDoc>, uid: string): nat {
    PageViewsOf(Lookup(stats, uid))
  }

  function Clicks(stats: map<string, StatsDoc>, uid: string): nat {
    ClicksOf(Lookup(stats, uid))
  }

  /** The update is to `uid` and increments `pageViews` (`totalClicks` when `clicks`). */
  predicate Counts(u: StatsUpdate, uid: string, clicks: bool) {
    u.uid == uid && (if clicks then u.delta.buttonClick else u.delta.pageView)
  }

  /** How many of the updates count for `uid`. */
  function Hits(us: seq<StatsUpdate>, uid: string, clicks: bool): nat
    decreases |us|
  {
    if us == [] then 0
    else Hits(us[..|us| - 1], uid, clicks) + (if Counts(us[|us| - 1], uid, clicks) then 1 else 0)
  }

  lemma HitsSingle(x: StatsUpdate, uid: string, clicks: bool)
    ensures Hits([x], uid, clicks) == if Counts(x, uid, clicks) then 1 else 0
  {
    assert [x][..0] == [];
  }

  /** After a sequence of updates each counter is its old value plus the
      number of updates to that uid carrying its increment. */
  lemma {:induction false} CountersAfterUpdates(stats: map<string, StatsDoc>, us: seq<StatsUpdate>, uid: string)
    ensures PageViews(ApplyUpdates(stats, us), uid) == PageViews(stats, uid) + Hits(us, uid, false)
    ensures Clicks(ApplyUpdates(stats, us), uid) == Clicks(stats, uid) + Hits(us, uid, true)
    decreases |us|
  {
    if us != [] {
      CountersAfterUpdates(stats, us[..|us| - 1], uid);
    }
  }

  lemma {:induction false} HitsAppend(a: seq<StatsUpdate>, b: seq<StatsUpdate>, uid: string, clicks: bool)
    ensures Hits(a + b, uid, clicks) == Hits(a, uid, clicks) + Hits(b, uid, clicks)
    decreases |b|
  {
    if b != [] {
      assert (a + b)[..|a + b| - 1] == a + b[..|b| - 1];
      HitsAppend(a, b[..|b| - 1], uid, clicks);
    } else {
      assert a + b == a;
    }
  }

  /** Taking the same element out of two equal multisets leaves equal multisets. */
  lemma CancelOne(init: seq<StatsUpdate>, x: StatsUpdate, a: seq<StatsUpdate>, b: seq<StatsUpdate>)
    requires multiset(init + [x]) == multiset(a + [x] + b)
    ensures multiset(init) == multiset(a + b)
  {
    assert multiset(init + [x]) == multiset(init) + multiset{x};
    assert multiset(a + [x] + b) == multiset(a + b) + multiset{x};
    assert multiset(init) == multiset(init + [x]) - multiset{x};
    assert multiset(a + b) == multiset(a + [x] + b) - multiset{x};
  }

  /** The hit count depends only on which updates there are, not on their order. */
  lemma {:induction false} HitsIgnoreOrder(us1: seq<StatsUpdate>, us2: seq<StatsUpdate>, uid: string, clicks: bool)
    requires multiset(us1) == multiset(us2)
    ensures Hits(us1, uid, clicks) == Hits(us2, uid, clicks)
    decreases |us1|
  {
    if us1 == [] {
      assert |us2| == |multiset(us2)| == 0;
    } else {
      var x := us1[|us1| - 1];
      var init1 := us1[..|us1| - 1];
      assert us1 == init1 + [x];
      assert x in multiset(us2);
      var j :| 0 <= j < |us2| && us2[j] == x;
      var a, b := us2[..j], us2[j + 1..];
      assert us2 == a + [x] + b;
      CancelOne(init1, x, a, b);
      HitsIgnoreOrder(init1, a + b, uid, clicks);
      HitsSingle(x, uid, clicks);
      HitsAppend(init1, [x], uid, clicks);
      HitsAppend(a + [x], b, uid, clicks);
      HitsAppend(a, [x], uid, clicks);
      HitsAppend(a, b, uid, clicks);
    }
  }

  /** The stats writes are issued concurrently: whatever order they land
      in, every uid ends with the same counters. */
  lemma CountersIgnoreOrder(stats: map<string, StatsDoc>, us1: seq<StatsUpdate>, us2: seq<StatsUpdate>, uid: string)
    requires multiset(us1) == multiset(us2)
    ensures PageViews(ApplyUpdates(stats, us1), uid) == PageViews(ApplyUpdates(stats, us2), uid)
    ensures Clicks(ApplyUpdates(stats, us1), uid) == Clicks(ApplyUpdates(stats, us2), uid)
  {
    CountersAfterUpdates(stats, us1, uid);
    CountersAfterUpdates(stats, us2, uid);
    HitsIgnoreOrder(us1, us2, uid, false);
    HitsIgnoreOrder(us1, us2, uid, true);
  }

  /** The event is of type `pageView` (`buttonClick` when `clicks`) for `uid`. */
  predicate Matches(e: Event, uid: string, clicks: bool) {
    && uid != "" && Field(e, "uid") == Str(uid)
    && Field(e, "eventType") == Str(if clicks then "buttonClick" else "pageView")
  }

  /** How many of the first `n` events match and have their write land. */
  function MatchingEvents(events: seq<Event>, n: nat, uid: string, clicks: bool, failed: set<nat>): nat
    requires n <= |events|
    decreases n
  {
    if n == 0 then 0
    else MatchingEvents(events, n - 1, uid, clicks, failed) +
           (if n - 1 !in failed && Matches(events[n - 1], uid, clicks) then 1 else 0)
  }

  /** Up to the first event that throws, each counter of a uid rises by
      exactly the number of its events of the matching type whose write
      lands; events of other types, or without a uid, move no counter. */
  lemma {:induction false} BatchCounters(stats: map<string, StatsDoc>, events: seq<Event>, n: nat,
                                         dateOf: Value -> Option<int>, failed: set<nat>, uid: string)
    requires n <= Reached(events, dateOf)
    ensures PageViews(ApplyUpdates(stats, Landed(events, n, dateOf, failed)), uid)
            == PageViews(stats, uid) + MatchingEvents(events, n, uid, false, failed)
    ensures Clicks(ApplyUpdates(stats, Landed(events, n, dateOf, failed)), uid)
            == Clicks(stats, uid) + MatchingEvents(events, n, uid, true, failed)
  {
    CountersAfterUpdates(stats, Landed(events, n, dateOf, failed), uid);
    LandedHits(events, n, dateOf, failed, uid, false);
    LandedHits(events, n, dateOf, failed, uid, true);
  }

  /** For an event that does not throw, its write counts for `uid` exactly
      when the event matches. */
  lemma PlanMatches(evt: Event, dateOf: Value -> Option<int>, uid: string, clicks: bool)
    requires !PlanOf(evt, dateOf).Throws?
    ensures var p := PlanOf(evt, dateOf);
            p.Issue? && Counts(p.update, uid, clicks) <==> Matches(evt, uid, clicks)
  {
  }

  lemma {:induction false} LandedHits(events: seq<Event>, n: nat, dateOf: Value -> Option<int>,
                                      failed: set<nat>, uid: string, clicks: bool)
    requires n <= Reached(events, dateOf)
    ensures Hits(Landed(events, n, dateOf, failed), uid, clicks) == MatchingEvents(events, n, uid, clicks, failed)
    decreases n
  {
    if n > 0 {
      LandedHits(events, n - 1, dateOf, failed, uid, clicks);
      var p := PlanOf(events[n - 1], dateOf);
      var prev := Landed(events, n - 1, dateOf, failed);
      PlanMatches(events[n - 1], dateOf, uid, clicks);
      if p.Issue? && n - 1 !in failed {
        assert Landed(events, n, dateOf, failed) == prev + [p.update];
        HitsAppend(prev, [p.update], uid, clicks);
        HitsSingle(p.update, uid, clicks);
      } else {
        assert Landed(events, n, dateOf, failed) == prev + [];
        assert prev + [] == prev;
      }
    }
  }

  // ---------------------------------------------------------------------
  // The operation

  /** Whether the payload passes the size checks: an array of 1 to 500 events. */
  predicate SizeOk(payload: Option<seq<Item>>) {
    payload.Some? && 0 < |payload.value| <= BatchLimit
  }

  /** Building the batch throws on this element: it is `null` or
      `undefined`, or its truthy `id` is not a string. */
  predicate StageThrows(item: Item) {
    item.None? || BadId(item.value)
  }

  /** The events of a batch none of whose elements is `null` or `undefined`. */
  function Present(items: seq<Item>): seq<Event> {
    seq(|items|, i requires 0 <= i < |items| => if items[i].Some? then items[i].value else map[])
  }

  /** `events.forEach(...)` building the batch: the staged `nfc_events`
      collection, or `None` when an element throws (a `null` element, or a
      truthy `id` that is not a string) before anything is committed. */
  method StageBatch(docs: map<string, Fields>, items: seq<Item>, now: int) returns (staged: Option<map<string, Fields>>)
    ensures staged.None? <==> exists i :: 0 <= i < |items| && StageThrows(items[i])
    ensures staged.Some? ==> staged.value == Committed(docs, Present(items), |items|, now)
  {
    var batch := docs;
    var i := 0;
    while i < |items|
      invariant 0 <= i <= |items|
      invariant forall j :: 0 <= j < i ==> !StageThrows(items[j])
      invariant batch == Committed(docs, Present(items), i, now)
    {
      if items[i].None? {
        assert StageThrows(items[i]);
        return None;
      }
      var evt := items[i].value;
      assert Present(items)[i] == evt;
      var id := Field(evt, "id");
      if Truthy(id) {
        if !id.Str? {
          assert StageThrows(items[i]);
          return None;
        }
        batch := batch[id.s := MergeEvent(Lookup(batch, id.s), evt, now)];
      }
      i := i + 1;
    }
    return Some(batch);
  }

  /** The stats fan-out: issue each event's write in order; a write in
      `failed` changes nothing and is not reported, a write that throws
      while being built stops the fan-out. True when none threw. */
  method FanOutStats(db: Db, events: seq<Event>, dateOf: Value -> Option<int>, failed: set<nat>) returns (ok: bool)
    modifies db`stats
    ensures ok <==> Reached(events, dateOf) == |events|
    ensures db.stats == ApplyUpdates(old(db.stats), Landed(events, Reached(events, dateOf), dateOf, failed))
  {
    var s := 0;
    while s < |events|
      invariant 0 <= s <= Reached(events, dateOf)
      decreases |events| - s
      invariant db.stats == ApplyUpdates(old(db.stats), Landed(events, s, dateOf, failed))
    {
      var plan := PlanOf(events[s], dateOf);
      ghost var before := Landed(events, s, dateOf, failed);
      if plan.Throws? {
        assert s == Reached(events, dateOf);
        return false;
      }
      assert s < Reached(events, dateOf);
      if plan.Issue? && s !in failed {
        assert Landed(events, s + 1, dateOf, failed) == before + [plan.update];
        ApplyUpdatesSnoc(old(db.stats), before, plan.update);
        db.stats := ApplyUpdate(db.stats, plan.update);
      } else {
        assert Landed(events, s + 1, dateOf, failed) == before + [];
        assert before + [] == before;
      }
      s := s + 1;
    }
    return true;
  }

  /** `batchInsert(events)`. `payload` is `None` when `events` is not an
      array; `now` is the commit's server time. The reply counts every
      event of the batch, those skipped for lacking an id included, and does
      not depend on which stats writes fail. */
  method BatchInsert(db: Db, payload: Option<seq<Item>>, now: int, dateOf: Value -> Option<int>, failed: set<nat>)
    returns (r: Result<nat>)
    modifies db`events, db`stats
    ensures !SizeOk(payload) ==>
              r == Err(BadRequest) && db.events == old(db.events) && db.stats == old(db.stats)
    ensures SizeOk(payload) && (exists i :: 0 <= i < |payload.value| && StageThrows(payload.value[i])) ==>
              r == Err(Unclassified) && db.events == old(db.events) && db.stats == old(db.stats)
    ensures SizeOk(payload) && (forall i :: 0 <= i < |payload.value| ==> !StageThrows(payload.value[i])) ==>
              var events := Present(payload.value);
              var k := Reached(events, dateOf);
              && db.events == Committed(old(db.events), events, |events|, now)
              && db.stats == ApplyUpdates(old(db.stats), Landed(events, k, dateOf, failed))
              && r == (if k == |events| then Ok(|events|) else Err(Unclassified))
  {
    if payload.None? || |payload.value| == 0 {
      return Err(BadRequest);
    }
    var items := payload.value;
    if |items| > BatchLimit {
      return Err(BadRequest);
    }
    var staged := StageBatch(db.events, items, now);
    if staged.None? {
      return Err(Unclassified);
    }
    db.events := staged.value;
    var events := Present(items);
    var ok := FanOutStats(db, events, dateOf, failed);
    return if ok then Ok(|events|) else Err(Unclassified);
  }
}
