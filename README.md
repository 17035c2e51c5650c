# Push-notification dispatch, modelled in Dafny

This project models the dispatch core of a push-notification backend and
proves properties of the model. The core has three parts:

- **The transport adapter** (`sendFCMNotification`). It checks the device
  token locally, builds one multi-platform message, makes one call to the push
  provider and turns the provider's answer into `{success, token, errorCode}`.
- **The immediate broadcast** (`POST /api/admin/send-notification`). It
  validates the request and reads every target user's stored tokens. It adds
  one tracking record to `notifications` and sends once per collected token.
  Tokens the provider reports as not registered are traced back to their
  owners, and those users' token lists are rewritten without them.
- **The scheduler tick** (`processScheduledNotifications`). It reads
  `scheduledNotifications`. For each document that is due, in order, it sends
  to every truthy embedded token, flips the document to `sent`, appends an
  audit log entry and adds a tracking record.

Modules, one file each:

- `wrappers.dfy`: `Option`.
- `js_values.dfy`: the JavaScript values the code inspects:
  - token values, and stored token entries (a bare string or a `{token, platform}` object);
  - truthiness;
  - `String.prototype.trim` on the JavaScript white-space set;
  - `image || null`.
- `js_objects.dfy`: an insertion-ordered JavaScript object. `Object.entries`
  walks its keys in insertion order.
- `fcm.dfy`: the adapter as a pure function of the request and a transport.
  The transport is a function from the outgoing message to the provider's
  answer.
- `doc_store.dfy`: the document store.
  - Its contents are the value `Db`: users and their token lists,
    `scheduledNotifications`, `logs`, `notifications`, and `available`, the
    number of further store calls the backend will serve. This is how store
    failures are modelled: with `available` calls served, the call after them
    throws. Any failure point of a run is reached this way.
  - Each store call is a function on `Db`.
  - The class `DocumentStore` holds the state and has one method per call,
    proved equal to that function.
  - `add` gives the n-th added record the id `AutoId(n)`.
- `admin_routes.dfy`:
  - `AdminRoutes`: the handler. Each phase is a function over `Db` and a
    method with the source's loop, proved equal to it. `Handle` is the whole
    handler as a function; `SendNotification` is the method.
  - `AdminRoutesProperties`: what the handler promises.
- `scheduler.dfy`:
  - `ScheduledDispatch`: the tick. `Visit`, `Walk` and `Tick` are the
    specification. `SendItem`, `SendDue` and `ProcessScheduled` are the
    methods with the source's loops, proved equal to them.
  - `ScheduledDispatchProperties`: what a tick promises.

Behaviour of the code that the model keeps as written:

- The whole broadcast handler runs inside one `try` (routes/adminRoutes.js:15,
  110-113). A failed store call answers 500 at once, whether it is a user
  read before the tracking record or an eviction write. Earlier writes and
  sends stay as they are, and later users are not pruned.
- The eviction write (routes/adminRoutes.js:91-97) replaces the user's token
  list with the list read at the start, minus the flagged entries. It is not
  a set subtraction against the current list.
- Only `messaging/registration-token-not-registered` triggers eviction
  (routes/adminRoutes.js:78).
- Only object-form token entries can be evicted. The lookup compares `t.token`
  (routes/adminRoutes.js:80), and a bare string entry has no `.token`.
- A token that appears twice in a user's list has only its first entry
  flagged. The lookup is `find` (routes/adminRoutes.js:80), and removal goes
  by object identity (routes/adminRoutes.js:92), modelled as positions in the
  list.
- The scheduler's log entry always has status `sent` (server.js:172). It does
  not record per-token outcomes.
- The whole tick runs inside one `try` (server.js:125, 195-197), so any failed
  store call ends it. The documents already handled keep their new state; the
  rest stay untouched.
- A scheduled document's own `id` field, when present, replaces the document
  id (server.js:127). It is used both in `notifId` (server.js:151) and in the
  status update (server.js:158). The idempotence and marking results therefore
  assume that no document carries a different `id` field (`OwnIds`).

## Model

| member | source | states |
|---|---|---|
| JsValues.OrNull | routes/adminRoutes.js:43 | `imageUrl \|\| null` keeps exactly the non-empty URLs and maps everything else to null |
| JsValues.TrimEmptyIffBlank | utils/sendFCMNotification.js:6 | `trim()` of a string is empty exactly when every character is JavaScript white space |
| JsObjects.Put | routes/adminRoutes.js:26 | assigning a key sets its entry; a new key is appended to the key order, an existing key keeps its place |
| Fcm.BuildMessage | utils/sendFCMNotification.js:17-76 | (definition) the message for an accepted token: target, notification block, the Android, APNs and web-push blocks, and the data block |
| Fcm.AcceptsTokenIff | utils/sendFCMNotification.js:6-13 | the guard passes exactly the tokens that are truthy, strings and not blank |
| Fcm.DataPayload | utils/sendFCMNotification.js:71-75 | the data block keeps every caller key other than the two reserved ones; `notifId` is the caller's or `""`; `click_action` is always the open action |
| Fcm.DataPayloadOfNotifId | utils/sendFCMNotification.js:71-75 | a caller that passes only `notifId` gets exactly `{notifId, click_action}` |
| Fcm.DataPayloadFixesReserved | utils/sendFCMNotification.js:71-75 | a data block that already holds the two reserved keys, with the open action, is sent unchanged |
| Fcm.ErrorCode | utils/sendFCMNotification.js:96 | the error code is the provider's code whenever that is non-empty, and `unknown-error` otherwise; it is never empty |
| Fcm.Normalise | utils/sendFCMNotification.js:82-97 | the outcome carries the input token; it succeeds exactly when the provider delivered; a success has the message id, a failure has the error code |
| Fcm.Send | utils/sendFCMNotification.js:4-99 | a rejected token gives `invalid-token` with no transport call; an accepted one gives exactly one call, addressed to that token, showing title, body and image on every platform block, with the merged data; the outcome follows the provider's answer; the outcome always carries the input token |
| Fcm.NotRegisteredReachedTransport | utils/sendFCMNotification.js:6-97 | a not-registered outcome comes only from an accepted string token whose single transport call was refused with that code |
| DocStore.AutoIdInjective | routes/adminRoutes.js:40 | two records added to `notifications` get the same id exactly when they are the same addition |
| DocStore.NextIdFresh | routes/adminRoutes.js:40 | in a valid store, the id the next added record receives is held by no existing record |
| DocStore.ReadUser | routes/adminRoutes.js:21-22 | a served read of a valid uid returns that user's stored tokens, or `[]` when there are none |
| DocStore.AddNotification | routes/adminRoutes.js:40-47 | a served add appends the record under a fresh id and returns that id; a failed add changes nothing; the store stays valid |
| DocStore.WriteUserTokens | routes/adminRoutes.js:95-97 | a served update of an existing user replaces that user's list and nothing else but the call budget; an update of a missing user fails |
| DocStore.ReadScheduled | server.js:126-127 | a served read returns the scheduled documents in order |
| DocStore.MarkSent | server.js:158-161 | a served update of a named document sets it to `sent` with `sentAt`; a missing document fails and changes only the call budget |
| DocStore.AddLog | server.js:164-174 | a served add appends the entry to `logs`; a failed add changes nothing |
| DocStore.DocumentStore.ReadUserTokens | routes/adminRoutes.js:21-22 | the method's reply and new state are those of `ReadUser` |
| DocStore.DocumentStore.AddNotificationRecord | routes/adminRoutes.js:40-47 | the method's reply and new state are those of `AddNotification` |
| DocStore.DocumentStore.SetUserTokens | routes/adminRoutes.js:95-97 | the method's reply and new state are those of `WriteUserTokens` |
| DocStore.DocumentStore.LoadScheduled | server.js:126-127 | the method's reply and new state are those of `ReadScheduled` |
| DocStore.DocumentStore.UpdateSent | server.js:158-161 | the method's reply and new state are those of `MarkSent` |
| DocStore.DocumentStore.AddLogEntry | server.js:164-174 | the method's reply and new state are those of `AddLog` |
| AdminRoutes.Malformed | routes/adminRoutes.js:11 | (definition) the 400 guard: `userIds` missing or empty, or `title` or `body` empty |
| AdminRoutes.ReadTokens | routes/adminRoutes.js:20-28 | (definition) the collection loop with one store read per uid, stopping at the first failed read |
| AdminRoutes.Fanout | routes/adminRoutes.js:49-72 | (definition) the send loop: one adapter call per collected entry, results in order |
| AdminRoutes.Classify | routes/adminRoutes.js:75-87 | (definition) the classification loops over results and `Object.entries(userTokenMap)` |
| AdminRoutes.Prune | routes/adminRoutes.js:91-93 | (definition) the `filter` keeping the entries not flagged for removal |
| AdminRoutes.EvictAll | routes/adminRoutes.js:90-100 | (definition) the update loop over `Object.entries(invalidTokensByUser)`, stopping at the first failed write |
| AdminRoutes.CollectFromSpec | routes/adminRoutes.js:20-28 | `userTokens` is the concatenation of the users' stored lists in `userIds` order; `userTokenMap` has an entry, the stored list, for exactly the uids with a non-empty list |
| AdminRoutes.ReadTokensSpec | routes/adminRoutes.js:15-28 | the reads succeed exactly when there are enough served calls and every uid is a valid document id; they change nothing but the call budget; on success they give the collection above |
| AdminRoutes.CollectTokens | routes/adminRoutes.js:16-28 | the collection loop computes what `ReadTokens` specifies |
| AdminRoutes.FanoutResults | routes/adminRoutes.js:49-72 | one result per collected token, in order; the i-th is the adapter's outcome for the i-th token with the record's id; each carries its token |
| AdminRoutes.DispatchCall | routes/adminRoutes.js:53-69 | one send makes one transport call, addressed to its token, when the token passes the guard and none otherwise, and that call carries the request's content and the tracking id |
| AdminRoutes.FanoutCalls | routes/adminRoutes.js:52-69 | the send loop makes one transport call per accepted token, in order, addressed to exactly those tokens, each carrying the request's content and the tracking id |
| AdminRoutes.SendToAll | routes/adminRoutes.js:49-72 | the send loop computes what `Fanout` specifies |
| AdminRoutes.FirstMatch | routes/adminRoutes.js:80 | `find` returns the first matching position, and none exactly when nothing matches |
| AdminRoutes.ClassifyAtSpec | routes/adminRoutes.js:79-85 | one result adds, to each user's list, the position of that user's first entry matching the token, and creates entries only for such users |
| AdminRoutes.ClassifySpec | routes/adminRoutes.js:75-87 | `invalidTokensByUser` lists, per user, exactly the flagged positions, and has an entry for exactly the users with one |
| AdminRoutes.FlaggedSpec | routes/adminRoutes.js:77-87 | every flagged position holds a truthy entry matching some not-registered outcome; every not-registered outcome that matches an entry flags its first match |
| AdminRoutes.FlaggedAreRecords | routes/adminRoutes.js:80 | when not-registered tokens are strings, only object entries holding that token are flagged; bare string entries never are |
| AdminRoutes.EvictsExactlyNotRegistered | routes/adminRoutes.js:77-87 | for a list without repeated tokens, a position is flagged exactly when it is an object entry whose token some outcome reported as not registered |
| AdminRoutes.ClassifyInvalid | routes/adminRoutes.js:75-87 | the classification loops compute what `Classify` specifies |
| AdminRoutes.Kept | routes/adminRoutes.js:91-93 | the kept positions are increasing, in range, and exactly those not flagged |
| AdminRoutes.PruneIsSubsequence | routes/adminRoutes.js:91-93 | the rewritten list is the snapshot at exactly the kept positions, in order |
| AdminRoutes.Pick | routes/adminRoutes.js:83 | the reported entries are the snapshot's entries at the flagged positions, in order |
| AdminRoutes.EvictAllSpec | routes/adminRoutes.js:90-100 | the eviction loop touches only user token lists; users outside the loop keep their lists; with enough served calls it succeeds and every user in the loop gets the snapshot minus the flagged entries |
| AdminRoutes.EvictInvalid | routes/adminRoutes.js:90-100 | the eviction loop computes what `EvictAll` specifies |
| AdminRoutes.Handle | routes/adminRoutes.js:7-114 | a malformed request gets 400 with the fixed message and no store access and no sends; a 500 carries the fixed message |
| AdminRoutes.SendNotification | routes/adminRoutes.js:7-114 | the handler's response, transport calls and new store are those of `Handle` |
| AdminRoutesProperties.FanoutNotRegisteredAreStrings | routes/adminRoutes.js:52-71 | every not-registered result of the send loop is for a string token |
| AdminRoutesProperties.PhasesSpec | routes/adminRoutes.js:20-28 | after successful reads, the snapshot map holds exactly the requested users with tokens, each with its stored list |
| AdminRoutesProperties.TrackingRecordSpec | routes/adminRoutes.js:31-47 | the record has the request's title and body, `imageUrl \|\| null`, type `manual`, the request time, and one unseen, unclicked delivery entry per uid in order, users without tokens included |
| AdminRoutesProperties.HandleStoresRecord | routes/adminRoutes.js:40-47 | once anything was sent or the answer is 200, exactly one tracking record was appended under the next id, and the scheduled documents and logs are unchanged |
| AdminRoutesProperties.HandleDelivers | routes/adminRoutes.js:11-52 | once anything was sent or the answer is 200, the request was well formed, the reads and the record succeeded, and the rest is the delivery phase with the record's id |
| AdminRoutesProperties.HandleRecordBeforeSends | routes/adminRoutes.js:40-69 | whenever a send happened, the tracking record had been added, and every transport call carries that record's id and the request's content |
| AdminRoutesProperties.HandleOkSends | routes/adminRoutes.js:52-108 | a 200 reports `tokensSent` equal to the number of collected tokens and to the number of results; the i-th result is the adapter's outcome for the i-th token; the transport calls go, in order, to exactly the accepted tokens, each with the record's id and the request's content |
| AdminRoutesProperties.ReportedAreNotRegistered | routes/adminRoutes.js:77-87 | every token the report lists for a user is an object entry of that user's stored list whose token was reported not registered |
| AdminRoutesProperties.PickedAreNotRegistered | routes/adminRoutes.js:80-83 | every entry picked at a flagged position is an object entry of the list whose token was reported not registered |
| AdminRoutesProperties.ReportOfSnapshot | routes/adminRoutes.js:75-87 | the report built from the snapshot lists, for exactly the users with a flagged entry, those entries |
| AdminRoutesProperties.EvictionOfSnapshot | routes/adminRoutes.js:90-97 | a successful eviction rewrites exactly the users with a flagged entry, each to its list minus those entries |
| AdminRoutesProperties.HandleOkPrunes | routes/adminRoutes.js:90-97 | after a 200, each requested user with a flagged entry has its list minus the flagged entries; every other user is unchanged |
| AdminRoutesProperties.HandleOkReports | routes/adminRoutes.js:75-106 | after a 200, `invalidTokens` lists, for exactly the requested users with a flagged entry, the flagged entries |
| AdminRoutesProperties.HandleOkNotRegisteredAreStrings | routes/adminRoutes.js:63-71 | after a 200, every not-registered result is for a string token |
| AdminRoutesProperties.HandleOkReportsOnlyNotRegistered | routes/adminRoutes.js:77-106 | after a 200, every reported entry belongs to its user's stored list and was reported not registered |
| AdminRoutesProperties.DeliverKeepsRest | routes/adminRoutes.js:49-100 | the sends, classification and eviction change only user token lists and the call budget |
| AdminRoutesProperties.DeliverCalls | routes/adminRoutes.js:52-69 | the send phase makes one transport call per accepted token, in order, addressed to exactly those tokens, each with the record's id and the request's content |
| AdminRoutesProperties.HandlePreservesValid | routes/adminRoutes.js:15-113 | the handler, on any path, keeps the store valid |
| AdminRoutesProperties.DispatchTwice | routes/adminRoutes.js:40-47 | two successful identical requests add two records with distinct ids, the same delivery list, and the same content apart from the id and the time |
| AdminRoutesProperties.HandleSucceedsWhenServed | routes/adminRoutes.js:15-108 | a well-formed request with valid uids answers 200, whatever the provider answers, whenever the store serves 2·\|userIds\|+1 calls: one read per uid, the add, and one write per uid, which covers every eviction write |
| AdminRoutesProperties.HandleOkIff | routes/adminRoutes.js:11-108 | the response is 200 exactly when the request is well formed, every uid is a valid document id, and the store serves one read per uid, the add and one write per user with a not-registered token (`EvictedUsers`, the keys of `invalidTokensByUser`) |
| AdminRoutesProperties.BroadcastExample | routes/adminRoutes.js:7-114 | a two-user broadcast where the provider refuses one token answers 200 with three results and that one not registered |
| AdminRoutesProperties.BroadcastExampleEviction | routes/adminRoutes.js:75-108 | in that broadcast, only the refused token is reported and removed, from its owner only |
| ScheduledDispatch.Due | server.js:130-136 | (definition) status `scheduled` and a scheduled time at or before `now` |
| ScheduledDispatch.EffectiveId | server.js:127 | (definition) the id the document's own data sets, or else its document id, as the spread in the mapping gives |
| ScheduledDispatch.Visit | server.js:130-193 | (definition) one iteration of the outer loop: the token loop, the status update, the log entry and the tracking record, stopping at a failed store call |
| ScheduledDispatch.Walk | server.js:129-194 | (definition) the outer loop over the snapshot, stopping at the first failed store call |
| ScheduledDispatch.Tick | server.js:122-198 | (definition) the snapshot read followed by the outer loop |
| ScheduledDispatch.ItemCallsSpec | server.js:140-155 | the token loop sends, in order, to exactly the tokens that are truthy and pass the guard, each call with the document's title, body, image and `{notifId: id, click_action}` |
| ScheduledDispatch.SendItem | server.js:140-155 | the token loop computes what `ItemCalls` specifies |
| ScheduledDispatch.WalkStops | server.js:125-197 | once a store call has failed, the remaining documents change nothing |
| ScheduledDispatch.SendDue | server.js:137-192 | handling one due document does what `Visit` specifies |
| ScheduledDispatch.ProcessScheduled | server.js:122-198 | the tick's new store and transport calls are those of `Tick` |
| ScheduledDispatchProperties.DueDocs | server.js:130-136 | the due documents are documents of the snapshot, each scheduled with a time not after now |
| ScheduledDispatchProperties.VisitFrame | server.js:132-190 | one document leaves the users as they were, only flips statuses to `sent`, only appends logs and records, and keeps the store valid |
| ScheduledDispatchProperties.WalkFrame | server.js:129-194 | the same holds for the whole loop |
| ScheduledDispatchProperties.VisitDue | server.js:132-190 | a due document is handled without failure exactly when three calls are served and its id names a document; its sends are the token loop's; then one log entry and one record with the next id are appended |
| ScheduledDispatchProperties.WalkComplete | server.js:129-194 | a loop without failure makes the token loops' calls of the due documents in order and appends one log entry and one record per due document, in order |
| ScheduledDispatchProperties.WalkCompletesIff | server.js:125-197 | the loop completes exactly when the store serves three calls per due document and every due document's id names a document |
| ScheduledDispatchProperties.WalkMarksDue | server.js:129-161 | a completed loop has marked sent exactly the due documents it walked |
| ScheduledDispatchProperties.WalkNoneDue | server.js:130-136 | a snapshot with no due document makes no call and changes nothing |
| ScheduledDispatchProperties.VisitTouchesOnly | server.js:158-161 | handling one document changes no other scheduled document |
| ScheduledDispatchProperties.WalkAbortKeepsUnreached | server.js:195-197 | a loop a failure ended has handled the documents before the failing one as a complete loop would, and left every later one unchanged |
| ScheduledDispatchProperties.TickFrame | server.js:122-198 | whatever happens, a tick leaves the users alone, only flips statuses to `sent`, only appends logs and records, and keeps the store valid |
| ScheduledDispatchProperties.TickComplete | server.js:122-198 | a tick completes exactly when the store serves the read and three calls per due document, and every due id names a document; then it makes the due documents' sends and appends their logs and records in order |
| ScheduledDispatchProperties.TickMarksExactlyDue | server.js:130-161 | a completed tick marks sent exactly the due documents and leaves every other document as it was |
| ScheduledDispatchProperties.TickAbortKeepsUnreached | server.js:125-197 | a failed tick leaves every document after the failing one still as it was, so the next tick still finds it |
| ScheduledDispatchProperties.TickIdempotent | server.js:130-161 | after a completed tick, a tick at any later instant, complete or not, leaves every document the first one sent as it is, and its calls, log entries and records are only for documents that were not due at the first tick; complete, it sends, logs and records exactly the documents then due |
| ScheduledDispatchProperties.TickSameInstantIdle | server.js:130-161 | a second tick at the same instant after a completed one sends nothing and changes nothing but the call budget |
| ScheduledDispatchProperties.WalkKeepsNotDue | server.js:129-194 | the loop, complete or not, leaves every document that is not due, and every document after the walked ones, as it was |
| ScheduledDispatchProperties.TickKeepsNotDue | server.js:130-161 | any tick, complete or not, leaves every document that is not due as it was; a sent document is never updated again |
| ScheduledDispatchProperties.WalkCallsPrefix | server.js:129-197 | the loop's transport calls, complete or not, are a prefix of the calls of the due documents' token loops in order |
| ScheduledDispatchProperties.TickCallsPrefix | server.js:122-198 | a tick's transport calls, complete or not, are a prefix of the calls of its due documents' token loops in order |
| ScheduledDispatchProperties.WalkLogsPrefix | server.js:129-197 | the loop's log entries, complete or not, are a prefix of the due documents' entries in order: a document that is not due is never logged |
| ScheduledDispatchProperties.WalkRecordsPrefix | server.js:129-197 | the loop's tracking records, complete or not, are a prefix of the due documents' records with their ids: a document that is not due never gets a record |
| ScheduledDispatchProperties.TickLogsPrefix | server.js:122-198 | a tick's log entries, complete or not, are a prefix of its due documents' entries in order |
| ScheduledDispatchProperties.TickRecordsPrefix | server.js:122-198 | a tick's tracking records, complete or not, are a prefix of its due documents' records, under the same ids |
| ScheduledDispatchProperties.ExampleItemCalls | server.js:140-155 | a document due five minutes ago with one embedded string token makes exactly one transport call, to that token, even though the provider refuses it |
| ScheduledDispatchProperties.TickSingleDue | server.js:122-198 | a store with one due document and enough served calls gets its sends, the status flip, one log entry and one record with id `0` |
| ScheduledDispatchProperties.SchedulerExample | server.js:122-198 | that outcome, for a concrete due document, any users, and a provider that refuses every token |

## Left out

- The Stripe webhook (server.js:18-95), utils/sendInvoiceEmail.js and firebase/firebaseAdmin.js are not part of this model. They are signature checks, PDF rendering, mail delivery and SDK set-up, all calls into code outside the core.
- The `setInterval` timer (server.js:201), overlapping ticks and requests: each tick and each request is one sequential run over the store, as the code awaits every call in turn.
- Express routing, HTTP status codes, JSON serialisation and console output. The answer is the datatype `Response` (400, 500, or 200 with its body), and `details: err.message` of a 500 is not modelled.
- The cosmetic platform fields (priority, sounds, channel, icon, vibrate pattern, mutable-content) are fixed constants of the message. The SDK's own validation of a message is part of the transport function.
- The transport is a deterministic function of the message. A provider that answers the same message differently on two calls is not modelled.
- The clock: one `now` per tick or request. The source reads `new Date()` again for `sentAt`, `timestamp` and `createdAt`; the model stamps all of them with the same `now`.
- Store-generated ids are the decimal position of the addition (`AutoId`). Real auto-ids are random strings; the properties use only that they are fresh.
- Store failures: a failed call is one past the `available` budget, or an invalid document path. The error's content is not modelled.
- Token values: numbers are integers, so `NaN` and fractions are not modelled. Objects and arrays in the token position are one `Composite` value, never equal to anything. A `null` element inside a token list, which throws in the source, is not modelled.
- Request and document fields: `userIds` elements, `title` and `body` are strings. `imageUrl` is absent, a falsy value or a string: a truthy `imageUrl` that is not a string, such as a number or an object, is not modelled, although the code stores it in the record and passes it to the SDK. A non-string `title` that is truthy is not modelled. An `id` field in the data of a scheduled document is a string when present.
- JavaScript key order for integer-like keys (objects list those first, in numeric order) is not modelled. `Obj` keeps plain insertion order.
- `AdminRoutes.EvictsExactlyNotRegistered`: the exact characterisation is stated for a list without repeated tokens. With repeated tokens `FlaggedSpec` still holds: only the first matching entry is flagged, as `find` does.
- `ScheduledDispatchProperties.TickIdempotent`: stated for a valid store whose documents carry no overriding `id` field. With such a field the status update goes to another document, or fails. The second tick may be at any instant.
- `ScheduledDispatchProperties.TickSameInstantIdle`: stated under the same two conditions as `TickIdempotent`, for the same reason.
- `ScheduledDispatchProperties.TickKeepsNotDue`: stated under the same two conditions as `TickIdempotent`, for the same reason.
- `ScheduledDispatchProperties.TickMarksExactlyDue`: stated under the same two conditions as `TickIdempotent`, for the same reason.
- `ScheduledDispatchProperties.TickAbortKeepsUnreached`: stated under the same two conditions as `TickIdempotent`, for the same reason.
- `ScheduledDispatchProperties.WalkMarksDue`: stated for snapshots of a store with unique document ids whose documents carry no overriding `id` field, the conditions `DbValid` and `OwnIds` give for a whole tick.
- `ScheduledDispatchProperties.WalkAbortKeepsUnreached`: stated under the same conditions as `WalkMarksDue`, for the same reason.
- `ScheduledDispatchProperties.WalkKeepsNotDue`: stated under the same conditions as `WalkMarksDue`, for the same reason.
- `ScheduledDispatchProperties.VisitTouchesOnly`: stated for a document whose `id` field, if any, equals its document id, found at the first position with that id.
- Document paths: a valid document id (`ValidDocId`) is non-empty and holds no `/`. A Firestore path such as `a/b/c` names a nested document; nested paths are not modelled, and a read or update of such an id fails in the model.
