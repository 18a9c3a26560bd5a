# fidelizacionQ-tap core, in Dafny

A model of the request-handling core of the fidelizacionQ-tap service, an
Express application that records NFC tag scans and web events in Firestore.
It covers:

- the tag registry (`controllers/tagController.js`): the create-or-increment
  transaction run on every scan, the single-tag lookup and the paginated
  listing ordered by `lastSeen`;
- event ingestion (`controllers/eventController.js`): the size-checked batch
  of merge-writes to `nfc_events` and the fan-out of per-uid stats writes to
  `stats_web`;
- the stats reader (`controllers/statsController.js`): per-tag stats and a
  paginated stats listing, read through an optional cache;
- the tag routes (`routes/tagRoutes.js`): request validation, the POST
  handler that skips a uid still in the cache, and the read-through GET.

The document store is the class `Store.Db`, whose three collections
(`uids`, `nfc_events`, `stats_web`) are maps from document id to document.
A Firestore transaction or batch commit is one atomic update of those maps.
The ordered query the listings issue is `Store.Db.QueryByLastSeen`, a
selection loop proved to return exactly what the store promises of
`orderBy('lastSeen', 'desc').limit(n).startAfter(c)` (the ghost predicate
`Store.IsPage`). The in-memory `NodeCache` is the class `Cache.NodeCache`,
a map from key to value and TTL.

Timestamps are integers. Parsing a date is a parameter of the model: a
cursor is the text the client sent together with the instant it denotes
(`None` for an Invalid Date), and event ingestion receives a function
`dateOf` that maps a property value to its instant. A missing or falsy
string property is the empty string. Event bodies are maps from property
name to a JSON-like `Common.Value`, and `Common.Truthy` follows JavaScript
truthiness. An element of a posted batch is either such a map or `null`
(`undefined` alike); an element that is any other non-object value has no
properties and is the empty map.

Files: `common.dfy` (shared values), `store.dfy` (documents, the store and
paging), `cache.dfy`, `keys.dfy` (cache keys), `tags.dfy`, `events.dfy`,
`stats.dfy`, `routes.dfy`.

## Model

| member | source | states |
|---|---|---|
| Store.ArrayUnion | controllers/tagController.js:59 | the added element is present afterwards, the old array is a prefix of the new one, it grows by at most one, and it is unchanged exactly when the element was already there |
| Store.Db.QueryByLastSeen | controllers/tagController.js:77-88 | the ids returned are at most `limit` distinct documents, all strictly older than the cursor, newest first; an eligible document is left out only when the page is full and it is no newer than the last one returned |
| Store.PageThenRest | controllers/tagController.js:104-106 | without two documents sharing a `lastSeen`, the documents a cursor admits are exactly the page plus those strictly older than the page's last item, and none of the page is older than that item |
| Store.ChainCoversEachOnce | controllers/tagController.js:76-107 | following `nextCursor` until an empty page returns every document the first cursor admits, and each only once, when no two documents share a `lastSeen` |
| Store.TiedDocumentIsSkipped | controllers/tagController.js:79-85 | with two documents sharing a `lastSeen`, a full page can end on one of them and the next cursor then excludes the other |
| Keys.DecimalRoundTrip | controllers/statsController.js:54 | the limit rendered into a listing key reads back as the same number |
| Keys.StatsListKeyInjective | controllers/statsController.js:54 | two listing keys are equal only for the same limit and the same cursor segment (`startAfter`, or `init` when there is none) |
| Keys.StatsKeysDisjoint | controllers/statsController.js:20-54 | a per-tag stats key is never a listing key |
| TagController.ApplyScan | controllers/tagController.js:35-64 | a new tag gets `token` 1, `firstSeen` = `lastSeen` = now and a one-entry history; an existing tag gets `token` + 1, `lastSeen` = now, the same `firstSeen`, its old history as a prefix of the new one; in both cases the scan's entry is in the history and the url, device, scan type and location (null when absent) are the request's |
| TagController.Saved | controllers/tagController.js:22-65 | a request missing uid, url, deviceId or scanType leaves the collection as it was; otherwise only the scanned tag's document changes, to the result of the scan |
| TagController.SaveUID | controllers/tagController.js:22-68 | 400 and an unchanged store when a required field is missing; otherwise the reply is the uid and the collection is the one `Saved` describes |
| TagController.ReplayExisting | controllers/tagController.js:55-63 | N scans of an existing tag, in whatever order the transactions are serialised, raise `token` by N, keep the old history as a prefix, add every scan's entry and at most N entries, keep `firstSeen`, and leave other tags untouched |
| TagController.RepeatedScans | controllers/tagController.js:42-63 | N scans of a new tag leave `token` = N, between 1 and N history entries holding every scan's entry, `firstSeen` the first scan's time and `lastSeen` the last's |
| TagController.TokenCanExceedHistory | controllers/tagController.js:59 | two identical scans give `token` 2 but a single history entry, so `token` equal to the history's length is not an invariant |
| TagController.GetUID | controllers/tagController.js:112-143 | 400 exactly for an empty uid, 404 exactly for an absent document, otherwise the document's fields with `uid` the document id |
| TagController.GetAllUIDs | controllers/tagController.js:76-107 | an error exactly when the cursor is given but is not a date, and a successful listing for every other call: a page of the store's ordered query, each item the document's listed fields, and `nextCursor` the last item's `lastSeen`, null exactly for an empty page |
| EventController.MergeEvent | controllers/eventController.js:31-34 | the event's fields overwrite, `receivedAt` is the server time, every other stored field is kept |
| EventController.CommittedKeys | controllers/eventController.js:28-35 | after the batch the collection holds the old documents plus one per event id, and a document no event names is untouched |
| EventController.CommittedPreserves | controllers/eventController.js:31-34 | a stored field that no event written to the same document carries survives the batch |
| EventController.CommittedLastWriter | controllers/eventController.js:28-35 | the last event written to a document decides every field it carries, and `receivedAt` is the commit time |
| EventController.DeltaOf | controllers/eventController.js:45-56 | `lastPage` is page, else url, else null; `platform` is metadata.platform, else "unknown"; `source` is source, else "NFC"; `lastSessionId` is sessionId, else null; the page-view increment is present exactly for `pageView` and the click increment exactly for `buttonClick` |
| EventController.PlanOf | controllers/eventController.js:41-59 | an event without a truthy uid issues no stats write; one whose uid is not a string or whose timestamp is not a date throws; any other writes to the document named by its uid with the delta of its timestamp |
| EventController.MergeStats | controllers/eventController.js:53-58 | each counter rises by one exactly when the delta carries its increment, the other fields are overwritten, and `history` is the stored history with the timestamp added by `Store.ArrayUnion` (appended only when absent) |
| EventController.Reached | controllers/eventController.js:41-59 | the fan-out processes the events before the first one that throws, all of them when none does |
| EventController.CountersAfterUpdates | controllers/eventController.js:55-58 | after a sequence of stats writes each counter of a uid is its old value plus the number of writes to that uid carrying its increment |
| EventController.CountersIgnoreOrder | controllers/eventController.js:58-62 | the counters a uid ends with do not depend on the order in which the concurrent stats writes land |
| EventController.BatchCounters | controllers/eventController.js:41-62 | `pageViews` of a uid rises by the number of its `pageView` events whose write lands and `totalClicks` by its `buttonClick` events; other events move neither counter |
| EventController.StageBatch | controllers/eventController.js:27-35 | the staged collection is the batch applied in order, or nothing when an element is `null` or an event's truthy id is not a string |
| EventController.FanOutStats | controllers/eventController.js:41-62 | the stats collection receives exactly the writes that land up to the first event that throws; the result is true exactly when no event throws |
| EventController.BatchInsert | controllers/eventController.js:14-65 | a non-array, empty or over-500 batch fails with 400 and writes nothing; a `null` element or a non-string id fails before the commit and writes nothing; otherwise the events are committed and the stats fan-out applied, and the reply is the full length of the batch unless a stats write throws, whatever writes fail |
| StatsController.ClampLimit | controllers/statsController.js:52 | the limit lies in [1, 500]; non-numeric or zero input gives 100, negative input 1, input in range itself, larger input 500 |
| StatsController.ReadListing | controllers/statsController.js:59-86 | a page of the store's ordered query projected to `{uid, token, lastSeen}`, with `nextCursor` the last item's `lastSeen`, null exactly for an empty page |
| StatsController.GetStatsByUid | controllers/statsController.js:13-40 | 400 for an empty uid; a cached `stats:uid:<uid>` value is returned as is; an absent tag gives 404 and caches nothing; otherwise `{token, lastSeen}` of the tag, cached for 60 s; no other cache entry changes |
| StatsController.ListAllStats | controllers/statsController.js:50-94 | with the clamped limit: a cached listing under `stats:list:<limit>:<cursor>` is returned unchanged; on a miss a cursor that is not a date gives 400, otherwise the fresh listing is returned and cached for 60 s |
| StatsController.InitCursorCollides | controllers/statsController.js:54-69 | a request with no cursor and a request with the (invalid) cursor `init` use the same cache key |
| StatsController.ListAllStatsValidated | controllers/statsController.js:50-94 | as `ListAllStats`, except that a cursor that is not a date gives 400 whatever the cache holds |
| TagRoutes.PostTag | routes/tagRoutes.js:29-56 | an invalid body gives 400; a uid in the cache gives 200 without saving; otherwise the scan is saved, and only when the save succeeds the uid is marked in the cache and 201 returned, a failed save being forwarded with the cache unchanged |
| TagRoutes.GetTag | routes/tagRoutes.js:62-86 | an invalid uid gives 400; a cached `tag_<uid>` is returned without reading the store; otherwise the tag is read and cached for 120 s, and an absent tag is forwarded as 404 with nothing cached |
| TagRoutes.ListTags | routes/tagRoutes.js:93-101 | as written: a request that gives `limit` is forwarded as an error, because the query-string text reaches the store's `.limit()`; without `limit`, 100 and `startAfter` go to the listing, an invalid cursor is forwarded, and exactly every other request gets 200 with the page, each item the document's listed fields and `nextCursor` the last item's `lastSeen`, null exactly for an empty page |
| TagRoutes.ListTagsNumeric | routes/tagRoutes.js:89-101 | with `limit` read as a number (100 when absent, not clamped): an invalid cursor is forwarded, and exactly every other request gets 200 with a page of that size and its `nextCursor` |
| TagRoutes.ValidUidIsNoTagKey | routes/tagRoutes.js:46-74 | a uid that passes validation (hexadecimal, 4 to 32 characters) is never a `tag_<uid>` key, so a POST neither hits nor refreshes the entry a GET cached |
| TagRoutes.ValidUidIsNoStatsKey | routes/tagRoutes.js:34-46 | a valid uid is never a stats cache key |
| TagRoutes.PostKeepsTagEntries | routes/tagRoutes.js:46-53 | the cache update of a POST leaves every `tag_<uid>` entry as it was |

## Left out

- Firestore transaction retries, `batch.commit` failures and the true concurrency of `Promise.allSettled`: a transaction is one atomic step and the stats fan-out a sequential fold in which the writes listed in `failed` are lost; `EventController.CountersIgnoreOrder` covers the order in which they land.
- Date handling (`toISOString`, `new Date`, `Timestamp.fromDate`, `Timestamp.now`, `serverTimestamp`): timestamps are integers, and whether a text is a date is an input (`Common.Cursor`, `dateOf`). The listings return the integer instants rather than ISO strings.
- TTL expiry and the cache's `checkperiod`: an entry keeps the TTL it was stored with but never expires.
- Express middleware and wiring (`apiKeyAuth`, `rateLimiter`, `asyncHandler`, the error handler, `res.status().json()`): a handler's result is a status and a body, or the error it forwards.
- The URL validator (`isURL`) is a parameter of `TagRoutes.ValidPost`; a POST body's `uid`, `url`, `deviceId` and `scanType` are strings (`location` is any value or absent); a JSON body giving one of those four a non-string value is not modelled.
- The dead `if (!tag)` branch at routes/tagRoutes.js:80-82: `getUID` throws on an absent tag, so the 404 there comes from the forwarded error.
- The `req.app.get('cache') || cache` choice: the routes use one cache, passed in.
- TagRoutes.ListTags: that the store client's `.limit()` refuses a text limit comes from the Firestore client library, which is not part of this model; the model takes it as given and forwards such a request as `Common.Unclassified`. `TagRoutes.ListTagsNumeric` is the route with the limit read as a number.
- Nested maps in an event are replaced as a whole by a merge write; Firestore's per-field deep merge of nested maps is not modelled.
- Document ids that Firestore refuses (a `/` in the id, an over-long id) are not modelled.
- Among documents with the same `lastSeen` the store breaks ties by document name; the model leaves that order open (`Store.IsPage` allows any).
- A `stats_web` counter that no event has incremented is absent from the stored document; it reads as 0 here.
- services/firebase.js is not part of this model.

Where the service's documentation and its code disagree, the model follows the code:

- `token` equals the number of scans, but the history is a union: two identical entries collapse, so `token` and the history's length can differ (`TagController.TokenCanExceedHistory`).
- `insertedCount` is the length of the whole batch, events skipped for lacking an id included.
- An invalid `startAfter` makes `getAllUIDs` throw an error without a status (forwarded as `Common.Unclassified`), while `listAllStats` answers 400.
- `getAllUIDs` receives `limit` unclamped from GET `/`.
- A stats write that throws while it is being built fails `batchInsert` after the batch of events has been committed (controllers/eventController.js:44-48 run inside the synchronous `.map`, before `allSettled`): a truthy `uid` that is not a string, or a `timestamp` that is not a date, makes the call fail, although aggregation errors are meant never to fail it. `EventController.BatchInsert` follows the code.
- `getStatsByUid` and `listAllStats` read the `uids` collection (controllers/statsController.js:25, controllers/statsController.js:59), never `stats_web`: the counters `batchInsert` maintains are not what the stats reader returns.
- `nextCursor` is null only for an empty page (controllers/tagController.js:105, controllers/statsController.js:84-86); a short last page still carries a cursor, and the page after it is empty.

## Findings

| source | as written | input that shows it | evidently intended | confidence | as-written member | corrected member |
|---|---|---|---|---|---|---|
| controllers/statsController.js:54-69 | the cache is consulted before the cursor is checked, and a missing cursor is keyed as `init` | with the first page cached, `startAfter=init` (not a date) returns the first page; with a cold cache the same request gets 400 | a cursor that is not a date is rejected whatever the cache holds | medium, not executed | StatsController.ListAllStats | StatsController.ListAllStatsValidated |
| routes/tagRoutes.js:98-99 | `limit` is taken from the query string as text and handed to `getAllUIDs`, whose `.limit()` accepts only an integer | `GET /?limit=50`, the request the route's own comment advertises, is forwarded as an error; only a request without `limit` lists | `limit` converted to a number, giving a page of that size | medium, not executed | TagRoutes.ListTags | TagRoutes.ListTagsNumeric |
