/**
 * The scheduled-notification tick of server.js (`processScheduledNotifications`):
 * one read of the `scheduledNotifications` collection; then, for every document
 * of that snapshot that is due, in order, one adapter call per truthy token, the
 * status flip to "sent", a log entry and a tracking record. The whole tick runs
 * inside one try block: the first store call that fails ends it, and whatever
 * was sent or written before stays as it is.
 */
module ScheduledDispatch {
  import opened Wrappers
  import opened JsValues
  import opened Fcm
  import opened DocStore

  const KIND_SCHEDULED: string := "scheduled"
  const CHANNEL_FCM: string := "FCM"

  /** `notif.status === "scheduled" && scheduledTime && scheduledTime <= now` */
  predicate Due(d: ScheduledDoc, now: int) {
    d.status == STATUS_SCHEDULED && d.scheduledAt.Some? && d.scheduledAt.value <= now
  }

  /** `notif.id` of `{id: d.id, ...d.data()}`: an `id` field in the data wins over the document id. */
  function EffectiveId(d: ScheduledDoc): string {
    if d.idField.Some? then d.idField.value else d.docId
  }

  /** The `data` argument of every send for `d`. */
  function ItemData(d: ScheduledDoc): map<string, string> {
    map[NOTIF_ID_KEY := EffectiveId(d), CLICK_ACTION_KEY := OPEN_ACTION]
  }

  /** The adapter call for the token `v` of `d`. */
  function ItemRequest(d: ScheduledDoc, v: TokenValue): SendRequest {
    SendRequest(v, d.title, d.body, OrNull(d.imageUrl), ItemData(d))
  }

  /** The transport calls of the token loop over `entries`: falsy tokens are
      skipped, every other token goes through the adapter, whose outcome is
      discarded. */
  function ItemCalls(d: ScheduledDoc, entries: seq<TokenEntry>, transport: Message -> TransportResult): seq<Message>
    decreases |entries|
  {
    if entries == [] then []
    else
      var prev := ItemCalls(d, entries[..|entries| - 1], transport);
      var v := Normalize(entries[|entries| - 1]);
      if Falsy(v) then prev else prev + Send(ItemRequest(d, v), transport).calls
  }

  /** One call per token that passes the guard, addressed to it, in order, each
      carrying the document's effective id and showing its content; falsy and
      blank tokens make no call. */
  lemma {:induction false} ItemCallsSpec(d: ScheduledDoc, entries: seq<TokenEntry>, transport: Message -> TransportResult)
    ensures var calls := ItemCalls(d, entries, transport);
      && Addressees(calls) == AcceptedTokens(entries)
      && |calls| == CountAccepted(entries)
      && (forall m :: m in calls ==> CarriesRequest(m, d.title, d.body, OrNull(d.imageUrl), EffectiveId(d)))
  {
    if entries != [] {
      var n := |entries|;
      var init, last := entries[..n - 1], entries[n - 1];
      ItemCallsSpec(d, init, transport);
      CountAcceptedSnoc(init, last);
      assert entries == init + [last];
      var v := Normalize(last);
      var prev := ItemCalls(d, init, transport);
      var a := Send(ItemRequest(d, v), transport);
      AcceptsTokenIff(v);
      if !Falsy(v) {
        AddresseesAppend(prev, a.calls);
        DataPayloadFixesReserved(EffectiveId(d));
        if AcceptsToken(v) {
          assert Addressees(a.calls) == [v.s] by {
            assert a.calls[..0] == [];
          }
        }
        forall m | m in prev + a.calls
          ensures CarriesRequest(m, d.title, d.body, OrNull(d.imageUrl), EffectiveId(d))
        {
          if m !in prev {
            assert m == a.calls[0];
          }
        }
      }
    }
  }

  /** The inner `for (const tokenObj of notif.userTokens || [])` loop. */
  method SendItem(d: ScheduledDoc, transport: Message -> TransportResult) returns (calls: seq<Message>)
    ensures calls == ItemCalls(d, d.userTokens, transport)
  {
    calls := [];
    for i := 0 to |d.userTokens|
      invariant calls == ItemCalls(d, d.userTokens[..i], transport)
    {
      var tokenObj := d.userTokens[i];
      var token := Normalize(tokenObj);
      assert d.userTokens[..i + 1] == d.userTokens[..i] + [tokenObj];
      ItemCallsSnoc(d, d.userTokens[..i], tokenObj, transport);
      if Falsy(token) {
        continue;
      }
      var attempt := Send(ItemRequest(d, token), transport);
      calls := calls + attempt.calls;
    }
    assert d.userTokens[..|d.userTokens|] == d.userTokens;
  }

  lemma ItemCallsSnoc(d: ScheduledDoc, entries: seq<TokenEntry>, e: TokenEntry, transport: Message -> TransportResult)
    ensures ItemCalls(d, entries + [e], transport)
         == ItemCalls(d, entries, transport) + if Falsy(Normalize(e)) then [] else Send(ItemRequest(d, Normalize(e)), transport).calls
  {
    assert (entries + [e])[..|entries|] == entries;
  }

  /** The log entry written for a sent document. */
  function LogFor(d: ScheduledDoc, now: int): LogEntry {
    LogEntry(d.title, d.body, OrNull(d.imageUrl), d.userTokens, d.userIds, KIND_SCHEDULED, CHANNEL_FCM, STATUS_SENT, now)
  }

  /** The tracking record written for a sent document, before the store gives it its id. */
  function RecordFor(d: ScheduledDoc, now: int): NotificationRecord {
    NotificationRecord("", d.title, d.body, OrNull(d.imageUrl), KIND_SCHEDULED, Delivery(d.userIds), now)
  }

  /** The store, the transport calls so far, and whether a store call has failed. */
  datatype Progress = Progress(db: Db, calls: seq<Message>, aborted: bool)

  /** One iteration of the outer loop. */
  function Visit(p: Progress, d: ScheduledDoc, now: int, transport: Message -> TransportResult): Progress {
    if !Due(d, now) then p
    else
      var calls := p.calls + ItemCalls(d, d.userTokens, transport);
      var marked := MarkSent(p.db, EffectiveId(d), now);
      if marked.value.None? then Progress(marked.db, calls, true)
      else
        var logged := AddLog(marked.db, LogFor(d, now));
        if logged.value.None? then Progress(logged.db, calls, true)
        else
          var added := AddNotification(logged.db, RecordFor(d, now));
          Progress(added.db, calls, added.value.None?)
  }

  /** The outer loop over the snapshot `docs`, stopping at the first failed store call. */
  function Walk(db: Db, docs: seq<ScheduledDoc>, now: int, transport: Message -> TransportResult): Progress
    decreases |docs|
  {
    if docs == [] then Progress(db, [], false)
    else
      var prev := Walk(db, docs[..|docs| - 1], now, transport);
      if prev.aborted then prev else Visit(prev, docs[|docs| - 1], now, transport)
  }

  /** The whole tick at instant `now`. */
  function Tick(db: Db, now: int, transport: Message -> TransportResult): Progress {
    var read := ReadScheduled(db);
    if read.value.None? then Progress(read.db, [], true)
    else Walk(read.db, read.value.value, now, transport)
  }

  lemma {:induction false} WalkStops(db: Db, docs: seq<ScheduledDoc>, now: int, transport: Message -> TransportResult, k: nat)
    requires k <= |docs| && Walk(db, docs[..k], now, transport).aborted
    ensures Walk(db, docs, now, transport) == Walk(db, docs[..k], now, transport)
    decreases |docs| - k
  {
    if k < |docs| {
      var n := |docs|;
      assert docs[..n - 1][..k] == docs[..k];
      WalkStops(db, docs[..n - 1], now, transport, k);
      var prev := Walk(db, docs[..n - 1], now, transport);
      assert prev.aborted;
      assert Walk(db, docs, now, transport) == prev;
    } else {
      assert docs[..k] == docs;
    }
  }

  /** The body of the outer loop for a due document: its token loop, then
      the status flip, the log entry and the tracking record, stopping at the
      first store call that fails. `done` is the calls made before. */
  method SendDue(store: DocumentStore, notif: ScheduledDoc, now: int, transport: Message -> TransportResult,
                 ghost done: seq<Message>)
    returns (sent: seq<Message>, ok: bool)
    requires Due(notif, now)
    modifies store
    ensures Progress(store.State(), done + sent, !ok) == Visit(Progress(old(store.State()), done, false), notif, now, transport)
  {
    sent := SendItem(notif, transport);
    ok := store.UpdateSent(EffectiveId(notif), now);
    if !ok {
      return;
    }
    ok := store.AddLogEntry(LogFor(notif, now));
    if !ok {
      return;
    }
    var recordId := store.AddNotificationRecord(RecordFor(notif, now));
    ok := recordId.Some?;
  }

  lemma WalkSnoc(db: Db, docs: seq<ScheduledDoc>, d: ScheduledDoc, now: int, transport: Message -> TransportResult)
    ensures var prev := Walk(db, docs, now, transport);
      Walk(db, docs + [d], now, transport) == if prev.aborted then prev else Visit(prev, d, now, transport)
  {
    assert (docs + [d])[..|docs|] == docs;
  }

  /** `processScheduledNotifications`; the returned calls are the transport calls made. */
  method ProcessScheduled(store: DocumentStore, now: int, transport: Message -> TransportResult)
    returns (calls: seq<Message>)
    modifies store
    ensures store.State() == Tick(old(store.State()), now, transport).db
    ensures calls == Tick(old(store.State()), now, transport).calls
  {
    calls := [];
    var docs := store.LoadScheduled();
    if docs.None? {
      return;
    }
    ghost var start := store.State();
    var snapshot := docs.value;
    var i := 0;
    while i < |snapshot|
      invariant 0 <= i <= |snapshot|
      invariant Walk(start, snapshot[..i], now, transport) == Progress(store.State(), calls, false)
    {
      var notif := snapshot[i];
      assert snapshot[..i + 1] == snapshot[..i] + [notif];
      WalkSnoc(start, snapshot[..i], notif, now, transport);
      if Due(notif, now) {
        var sent, ok := SendDue(store, notif, now, transport, calls);
        calls := calls + sent;
        if !ok {
          WalkStops(start, snapshot, now, transport, i + 1);
          return;
        }
      }
      i := i + 1;
    }
    assert snapshot[..i] == snapshot;
  }
}

module ScheduledDispatchProperties {
  import opened Wrappers
  import opened JsValues
  import opened Fcm
  import opened DocStore
  import opened ScheduledDispatch

  /** The due documents of a snapshot, in snapshot order. */
  function DueDocs(docs: seq<ScheduledDoc>, now: int): (ds: seq<ScheduledDoc>)
    ensures |ds| <= |docs|
    ensures forall d :: d in ds ==> d in docs && Due(d, now)
    decreases |docs|
  {
    if docs == [] then []
    else
      var last := docs[|docs| - 1];
      DueDocs(docs[..|docs| - 1], now) + if Due(last, now) then [last] else []
  }

  /** The log entries of a list of sent documents. */
  function LogsFor(ds: seq<ScheduledDoc>, now: int): seq<LogEntry> {
    seq(|ds|, k requires 0 <= k < |ds| => LogFor(ds[k], now))
  }

  /** The tracking records of a list of sent documents, stored from position `base` on. */
  function RecordsFrom(ds: seq<ScheduledDoc>, now: int, base: nat): seq<NotificationRecord> {
    seq(|ds|, k requires 0 <= k < |ds| => RecordFor(ds[k], now).(id := AutoId(base + k)))
  }

  /** The transport calls for a list of sent documents, document after document. */
  function CallsFor(ds: seq<ScheduledDoc>, transport: Message -> TransportResult): seq<Message>
    decreases |ds|
  {
    if ds == [] then []
    else CallsFor(ds[..|ds| - 1], transport) + ItemCalls(ds[|ds| - 1], ds[|ds| - 1].userTokens, transport)
  }

  /** Some document of `scheduled` has the id `id`. */
  predicate Names(scheduled: seq<ScheduledDoc>, id: string) {
    exists i :: 0 <= i < |scheduled| && scheduled[i].docId == id
  }

  /** `b` is `a` after some store calls of the tick: the users are as they
      were, each scheduled document is as it was or marked sent at `now`, and
      the logs and records only grew. */
  ghost predicate Advanced(a: Db, b: Db, now: int) {
    && b.users == a.users
    && |b.scheduled| == |a.scheduled|
    && (forall i :: 0 <= i < |a.scheduled| ==>
          b.scheduled[i] == a.scheduled[i] || b.scheduled[i] == MarkedSent(a.scheduled[i], now))
    && a.logs <= b.logs
    && a.notifications <= b.notifications
  }

  lemma AdvancedTrans(a: Db, b: Db, c: Db, now: int)
    requires Advanced(a, b, now) && Advanced(b, c, now)
    ensures Advanced(a, c, now)
  {
    forall i | 0 <= i < |a.scheduled|
      ensures c.scheduled[i] == a.scheduled[i] || c.scheduled[i] == MarkedSent(a.scheduled[i], now)
    {
      assert b.scheduled[i] == a.scheduled[i] || b.scheduled[i] == MarkedSent(a.scheduled[i], now);
    }
  }

  /** Document ids never change, so the documents an id names stay the same. */
  lemma AdvancedNames(a: Db, b: Db, now: int, id: string)
    requires Advanced(a, b, now)
    ensures Names(b.scheduled, id) <==> Names(a.scheduled, id)
  {
    assert forall i :: 0 <= i < |a.scheduled| ==> b.scheduled[i].docId == a.scheduled[i].docId;
  }

  lemma MarkSentAdvances(db: Db, id: string, now: int)
    ensures var r := MarkSent(db, id, now).db;
      Advanced(db, r, now) && (DbValid(db) ==> DbValid(r))
  {
    var marked := MarkSent(db, id, now);
    if marked.value.Some? {
      var i := FindDoc(db.scheduled, id).value;
      assert marked.db.scheduled == db.scheduled[i := MarkedSent(db.scheduled[i], now)];
      assert forall j :: 0 <= j < |db.scheduled| ==> marked.db.scheduled[j].docId == db.scheduled[j].docId;
    }
  }

  lemma AddsAdvance(db: Db, e: LogEntry, rec: NotificationRecord, now: int)
    ensures var r := AddLog(db, e).db; Advanced(db, r, now) && (DbValid(db) ==> DbValid(r))
    ensures var r := AddNotification(db, rec).db; Advanced(db, r, now) && (DbValid(db) ==> DbValid(r))
  {
  }

  /** One iteration changes the store only as the tick may, and keeps its invariant. */
  lemma VisitFrame(p: Progress, d: ScheduledDoc, now: int, transport: Message -> TransportResult)
    ensures var q := Visit(p, d, now, transport);
      && Advanced(p.db, q.db, now)
      && p.calls <= q.calls
      && (DbValid(p.db) ==> DbValid(q.db))
  {
    if Due(d, now) {
      var marked := MarkSent(p.db, EffectiveId(d), now);
      MarkSentAdvances(p.db, EffectiveId(d), now);
      if marked.value.Some? {
        var logged := AddLog(marked.db, LogFor(d, now));
        AddsAdvance(marked.db, LogFor(d, now), RecordFor(d, now), now);
        AdvancedTrans(p.db, marked.db, logged.db, now);
        if logged.value.Some? {
          var added := AddNotification(logged.db, RecordFor(d, now));
          AddsAdvance(logged.db, LogFor(d, now), RecordFor(d, now), now);
          AdvancedTrans(p.db, logged.db, added.db, now);
        }
      }
    } else {
      assert Visit(p, d, now, transport) == p;
    }
  }

  /** Whatever happens, the tick leaves the users alone, flips statuses only to
      "sent", only appends to the logs and records, and keeps the store's invariant. */
  lemma {:induction false} WalkFrame(db: Db, docs: seq<ScheduledDoc>, now: int, transport: Message -> TransportResult)
    ensures var r := Walk(db, docs, now, transport).db;
      Advanced(db, r, now) && (DbValid(db) ==> DbValid(r))
  {
    if docs != [] {
      var init := docs[..|docs| - 1];
      WalkFrame(db, init, now, transport);
      var prev := Walk(db, init, now, transport);
      if !prev.aborted {
        VisitFrame(prev, docs[|docs| - 1], now, transport);
        AdvancedTrans(db, prev.db, Visit(prev, docs[|docs| - 1], now, transport).db, now);
      }
    }
  }

  /** Visiting a due document completes exactly when the store serves its three
      calls and its effective id names a stored document; it then appends the
      document's calls, log entry and tracking record. */
  lemma VisitDue(p: Progress, d: ScheduledDoc, now: int, transport: Message -> TransportResult)
    requires Due(d, now)
    ensures var q := Visit(p, d, now, transport);
      && (!q.aborted <==> 3 <= p.db.available && Names(p.db.scheduled, EffectiveId(d)))
      && q.calls == p.calls + ItemCalls(d, d.userTokens, transport)
      && (!q.aborted ==>
            && q.db.logs == p.db.logs + [LogFor(d, now)]
            && q.db.notifications == p.db.notifications + [RecordFor(d, now).(id := AutoId(|p.db.notifications|))]
            && q.db.available + 3 == p.db.available)
  {
    assert FindDoc(p.db.scheduled, EffectiveId(d)).Some? <==> Names(p.db.scheduled, EffectiveId(d));
  }

  /** What a tick over `docs` that completed has done to `db`. */
  predicate SentAll(db: Db, docs: seq<ScheduledDoc>, r: Progress, now: int, transport: Message -> TransportResult) {
    var due := DueDocs(docs, now);
    && r.calls == CallsFor(due, transport)
    && r.db.logs == db.logs + LogsFor(due, now)
    && r.db.notifications == db.notifications + RecordsFrom(due, now, |db.notifications|)
    && r.db.available + 3 * |due| == db.available
  }

  lemma CompleteStep(db: Db, prev: Progress, init: seq<ScheduledDoc>, last: ScheduledDoc, now: int,
                     transport: Message -> TransportResult)
    requires SentAll(db, init, prev, now, transport)
    requires !Visit(prev, last, now, transport).aborted
    ensures SentAll(db, init + [last], Visit(prev, last, now, transport), now, transport)
  {
    var docs := init + [last];
    assert docs[..|docs| - 1] == init;
    if Due(last, now) {
      CompleteDue(db, prev, init, last, now, transport);
    } else {
      assert DueDocs(docs, now) == DueDocs(init, now) + [];
      assert DueDocs(docs, now) == DueDocs(init, now);
      assert Visit(prev, last, now, transport) == prev;
      assert SentAll(db, docs, prev, now, transport);
    }
  }

  lemma CompleteDue(db: Db, prev: Progress, init: seq<ScheduledDoc>, last: ScheduledDoc, now: int,
                    transport: Message -> TransportResult)
    requires SentAll(db, init, prev, now, transport)
    requires Due(last, now) && !Visit(prev, last, now, transport).aborted
    ensures SentAll(db, init + [last], Visit(prev, last, now, transport), now, transport)
  {
    VisitDue(prev, last, now, transport);
    SentAllSnoc(db, prev, Visit(prev, last, now, transport), init, last, now, transport);
  }

  /** Sending one more due document extends what the tick has done by that
      document's calls, log entry, tracking record and three store calls. */
  lemma SentAllSnoc(db: Db, prev: Progress, q: Progress, init: seq<ScheduledDoc>, last: ScheduledDoc, now: int,
                    transport: Message -> TransportResult)
    requires SentAll(db, init, prev, now, transport) && Due(last, now)
    requires q.calls == prev.calls + ItemCalls(last, last.userTokens, transport)
    requires q.db.logs == prev.db.logs + [LogFor(last, now)]
    requires q.db.notifications == prev.db.notifications + [RecordFor(last, now).(id := AutoId(|prev.db.notifications|))]
    requires q.db.available + 3 == prev.db.available
    ensures SentAll(db, init + [last], q, now, transport)
  {
    var pre := DueDocs(init, now);
    DueDocsSnoc(init, last, now);
    CallsForSnoc(pre, last, transport);
    LogsSnoc(db.logs, prev.db.logs, pre, last, now);
    RecordsSnoc(db.notifications, prev.db.notifications, pre, last, now);
  }

  lemma LogsSnoc(base: seq<LogEntry>, prev: seq<LogEntry>, pre: seq<ScheduledDoc>, last: ScheduledDoc, now: int)
    requires prev == base + LogsFor(pre, now)
    ensures prev + [LogFor(last, now)] == base + LogsFor(pre + [last], now)
  {
    assert LogsFor(pre + [last], now) == LogsFor(pre, now) + [LogFor(last, now)];
  }

  lemma RecordsSnoc(base: seq<NotificationRecord>, prev: seq<NotificationRecord>, pre: seq<ScheduledDoc>,
                    last: ScheduledDoc, now: int)
    requires prev == base + RecordsFrom(pre, now, |base|)
    ensures prev + [RecordFor(last, now).(id := AutoId(|prev|))] == base + RecordsFrom(pre + [last], now, |base|)
  {
    assert RecordsFrom(pre + [last], now, |base|)
        == RecordsFrom(pre, now, |base|) + [RecordFor(last, now).(id := AutoId(|base| + |pre|))];
  }

  lemma DueDocsSnoc(docs: seq<ScheduledDoc>, last: ScheduledDoc, now: int)
    ensures DueDocs(docs + [last], now) == DueDocs(docs, now) + if Due(last, now) then [last] else []
  {
    assert (docs + [last])[..|docs|] == docs;
  }

  lemma CallsForSnoc(ds: seq<ScheduledDoc>, last: ScheduledDoc, transport: Message -> TransportResult)
    ensures CallsFor(ds + [last], transport) == CallsFor(ds, transport) + ItemCalls(last, last.userTokens, transport)
  {
    assert (ds + [last])[..|ds|] == ds;
  }

  /** A tick over a snapshot that no store call interrupted sent every due
      document, in order: its calls, one log entry and one tracking record each,
      three store calls each. */
  lemma {:induction false} WalkComplete(db: Db, docs: seq<ScheduledDoc>, now: int, transport: Message -> TransportResult)
    requires !Walk(db, docs, now, transport).aborted
    ensures var r := Walk(db, docs, now, transport);
      var due := DueDocs(docs, now);
      && r.calls == CallsFor(due, transport)
      && r.db.logs == db.logs + LogsFor(due, now)
      && r.db.notifications == db.notifications + RecordsFrom(due, now, |db.notifications|)
      && r.db.available + 3 * |due| == db.available
  {
    if docs != [] {
      var n := |docs|;
      var init, last := docs[..n - 1], docs[n - 1];
      var prev := Walk(db, init, now, transport);
      assert Walk(db, docs, now, transport) == Visit(prev, last, now, transport);
      WalkComplete(db, init, now, transport);
      assert docs == init + [last];
      CompleteStep(db, prev, init, last, now, transport);
    }
  }

  /** A tick over a snapshot runs to the end exactly when the store serves
      three calls per due document and every due document's effective id names
      a stored document. */
  lemma {:induction false} WalkCompletesIff(db: Db, docs: seq<ScheduledDoc>, now: int, transport: Message -> TransportResult)
    ensures var due := DueDocs(docs, now);
      !Walk(db, docs, now, transport).aborted <==>
        3 * |due| <= db.available && forall d :: d in due ==> Names(db.scheduled, EffectiveId(d))
  {
    if docs != [] {
      var n := |docs|;
      var init, last := docs[..n - 1], docs[n - 1];
      var prev := Walk(db, init, now, transport);
      assert Walk(db, docs, now, transport) == (if prev.aborted then prev else Visit(prev, last, now, transport));
      var pre := DueDocs(init, now);
      WalkCompletesIff(db, init, now, transport);
      if Due(last, now) {
        assert DueDocs(docs, now) == pre + [last];
        if !prev.aborted {
          WalkComplete(db, init, now, transport);
          WalkFrame(db, init, now, transport);
          AdvancedNames(db, prev.db, now, EffectiveId(last));
          VisitDue(prev, last, now, transport);
        }
      } else {
        assert DueDocs(docs, now) == pre + [];
      }
    }
  }

  /** Visiting a due document whose id is its own marks the first document
      with that id, and no other. */
  lemma VisitMarksOwn(p: Progress, d: ScheduledDoc, k: nat, now: int, transport: Message -> TransportResult)
    requires k < |p.db.scheduled| && p.db.scheduled[k].docId == d.docId && EffectiveId(d) == d.docId
    requires forall j :: 0 <= j < k ==> p.db.scheduled[j].docId != d.docId
    requires Due(d, now) && !Visit(p, d, now, transport).aborted
    ensures Visit(p, d, now, transport).db.scheduled == p.db.scheduled[k := MarkedSent(p.db.scheduled[k], now)]
  {
    FindFirst(p.db.scheduled, d.docId, k);
  }

  /** `cur` is `orig` with exactly the due documents among the first `n` marked sent. */
  ghost predicate MarkedUpTo(orig: seq<ScheduledDoc>, cur: seq<ScheduledDoc>, n: nat, now: int) {
    && n <= |orig| == |cur|
    && (forall i :: 0 <= i < n ==> cur[i] == if Due(orig[i], now) then MarkedSent(orig[i], now) else orig[i])
    && (forall i :: n <= i < |orig| ==> cur[i] == orig[i])
  }

  lemma MarkedUpToNext(orig: seq<ScheduledDoc>, cur: seq<ScheduledDoc>, n: nat, now: int)
    requires 0 < n <= |orig| && MarkedUpTo(orig, cur, n - 1, now)
    ensures forall j :: 0 <= j < n - 1 ==> cur[j].docId == orig[j].docId
    ensures cur[n - 1] == orig[n - 1]
    ensures Due(orig[n - 1], now) ==> MarkedUpTo(orig, cur[n - 1 := MarkedSent(cur[n - 1], now)], n, now)
    ensures !Due(orig[n - 1], now) ==> MarkedUpTo(orig, cur, n, now)
  {
    assert forall j :: 0 <= j < n - 1 ==> cur[j].docId == orig[j].docId by {
      forall j | 0 <= j < n - 1
        ensures cur[j].docId == orig[j].docId
      {
        assert cur[j] == if Due(orig[j], now) then MarkedSent(orig[j], now) else orig[j];
      }
    }
  }

  /** When ids are unique and no document overrides its id, a tick over the
      first documents of the store that completed marked exactly the due
      ones among them as sent and left every other document as it was. */
  lemma {:induction false} WalkMarksDue(db: Db, docs: seq<ScheduledDoc>, now: int, transport: Message -> TransportResult)
    requires DistinctDocIds(db.scheduled)
    requires |docs| <= |db.scheduled| && docs == db.scheduled[..|docs|]
    requires forall i :: 0 <= i < |docs| ==> EffectiveId(docs[i]) == docs[i].docId
    requires !Walk(db, docs, now, transport).aborted
    ensures MarkedUpTo(db.scheduled, Walk(db, docs, now, transport).db.scheduled, |docs|, now)
  {
    if docs != [] {
      var n := |docs|;
      var init, last := docs[..n - 1], docs[n - 1];
      assert init == db.scheduled[..n - 1];
      WalkMarksDue(db, init, now, transport);
      var prev := Walk(db, init, now, transport);
      assert Walk(db, docs, now, transport) == Visit(prev, last, now, transport);
      assert last == db.scheduled[n - 1];
      MarkedUpToNext(db.scheduled, prev.db.scheduled, n, now);
      if Due(last, now) {
        VisitMarksOwn(prev, last, n - 1, now, transport);
      } else {
        assert Visit(prev, last, now, transport) == prev;
      }
    } else {
      assert Walk(db, docs, now, transport).db == db;
    }
  }

  /** A tick with no due document in its snapshot makes no call and changes nothing. */
  lemma {:induction false} WalkNoneDue(db: Db, docs: seq<ScheduledDoc>, now: int, transport: Message -> TransportResult)
    requires forall i :: 0 <= i < |docs| ==> !Due(docs[i], now)
    ensures Walk(db, docs, now, transport) == Progress(db, [], false)
  {
    if docs != [] {
      WalkNoneDue(db, docs[..|docs| - 1], now, transport);
    }
  }

  /** A visit touches at most the first document with the visited document's own id. */
  lemma VisitTouchesOnly(p: Progress, d: ScheduledDoc, k: nat, now: int, transport: Message -> TransportResult)
    requires k < |p.db.scheduled| && p.db.scheduled[k].docId == d.docId && EffectiveId(d) == d.docId
    requires forall j :: 0 <= j < k ==> p.db.scheduled[j].docId != d.docId
    ensures var after := Visit(p, d, now, transport).db.scheduled;
      |after| == |p.db.scheduled| && forall j :: 0 <= j < |after| && j != k ==> after[j] == p.db.scheduled[j]
  {
    FindFirst(p.db.scheduled, d.docId, k);
  }

  /** `after` is `before` with the due documents before position `k` marked
      sent at `now`, position `k` in any state, and the documents after `k`
      untouched. */
  ghost predicate HandledBefore(before: seq<ScheduledDoc>, after: seq<ScheduledDoc>, k: int, now: int) {
    && |after| == |before|
    && (forall i :: 0 <= i < k && i < |before| ==>
          after[i] == if Due(before[i], now) then MarkedSent(before[i], now) else before[i])
    && (forall i :: 0 <= i < |before| && k < i ==> after[i] == before[i])
  }

  /** When ids are unique and no document overrides its id, a tick over the
      first documents of the store that a failed store call ended has handled
      the documents before the failing one exactly as a complete tick would,
      and has not touched any document after it. */
  lemma {:induction false} WalkAbortKeepsUnreached(db: Db, docs: seq<ScheduledDoc>, now: int,
                                                   transport: Message -> TransportResult)
    requires DistinctDocIds(db.scheduled)
    requires |docs| <= |db.scheduled| && docs == db.scheduled[..|docs|]
    requires forall i :: 0 <= i < |docs| ==> EffectiveId(docs[i]) == docs[i].docId
    requires Walk(db, docs, now, transport).aborted
    ensures var r := Walk(db, docs, now, transport).db;
      exists k :: 0 <= k < |docs| && HandledBefore(db.scheduled, r.scheduled, k, now)
  {
    var n := |docs|;
    var init, last := docs[..n - 1], docs[n - 1];
    assert init == db.scheduled[..n - 1];
    var prev := Walk(db, init, now, transport);
    if prev.aborted {
      WalkAbortKeepsUnreached(db, init, now, transport);
    } else {
      WalkMarksDue(db, init, now, transport);
      assert last == db.scheduled[n - 1];
      VisitTouchesOnly(prev, last, n - 1, now, transport);
      assert Walk(db, docs, now, transport) == Visit(prev, last, now, transport);
      var r := Walk(db, docs, now, transport).db;
      assert HandledBefore(db.scheduled, r.scheduled, n - 1, now);
    }
  }

  // ---------------------------------------------------------------------------
  // The tick as a whole

  /** No document of `docs` has an `id` field other than its document id. */
  predicate OwnIds(docs: seq<ScheduledDoc>) {
    forall i :: 0 <= i < |docs| ==> EffectiveId(docs[i]) == docs[i].docId
  }

  /** Whatever happens, a tick leaves the users alone, flips statuses only from
      what they were to "sent" at `now`, only appends to the logs and records,
      and keeps the store's invariant. */
  lemma TickFrame(db: Db, now: int, transport: Message -> TransportResult)
    ensures var t := Tick(db, now, transport).db;
      Advanced(db, t, now) && (DbValid(db) ==> DbValid(t))
  {
    var read := ReadScheduled(db);
    if read.value.Some? {
      WalkFrame(read.db, read.value.value, now, transport);
    }
  }

  /** A tick runs to the end exactly when the store serves its read and three
      calls per due document and every due document's effective id names a
      stored document; it then has sent every due document in store order, and
      appended one log entry and one tracking record for each. */
  lemma TickComplete(db: Db, now: int, transport: Message -> TransportResult)
    ensures var t := Tick(db, now, transport);
      var due := DueDocs(db.scheduled, now);
      && (!t.aborted <==>
            1 + 3 * |due| <= db.available && forall d :: d in due ==> Names(db.scheduled, EffectiveId(d)))
      && (!t.aborted ==>
            && t.calls == CallsFor(due, transport)
            && t.db.logs == db.logs + LogsFor(due, now)
            && t.db.notifications == db.notifications + RecordsFrom(due, now, |db.notifications|)
            && t.db.available + 1 + 3 * |due| == db.available)
  {
    var read := ReadScheduled(db);
    if read.value.Some? {
      WalkCompletesIff(read.db, read.value.value, now, transport);
      if !Tick(db, now, transport).aborted {
        WalkComplete(read.db, read.value.value, now, transport);
      }
    }
  }

  /** In a store whose documents keep their own ids, a tick that completed
      has marked exactly the due documents as sent at `now`. */
  lemma TickMarksExactlyDue(db: Db, now: int, transport: Message -> TransportResult)
    requires DbValid(db) && OwnIds(db.scheduled)
    requires !Tick(db, now, transport).aborted
    ensures var t := Tick(db, now, transport).db;
      && |t.scheduled| == |db.scheduled|
      && forall i :: 0 <= i < |db.scheduled| ==>
           t.scheduled[i] == if Due(db.scheduled[i], now) then MarkedSent(db.scheduled[i], now) else db.scheduled[i]
  {
    var read := ReadScheduled(db);
    assert db.scheduled[..|db.scheduled|] == db.scheduled;
    WalkMarksDue(read.db, db.scheduled, now, transport);
  }

  /** In a store whose documents keep their own ids, a tick that a failed store
      call ended has left every document after the failing one as it was. */
  lemma TickAbortKeepsUnreached(db: Db, now: int, transport: Message -> TransportResult)
    requires DbValid(db) && OwnIds(db.scheduled)
    requires Tick(db, now, transport).aborted
    ensures var t := Tick(db, now, transport).db;
      exists k :: 0 <= k <= |db.scheduled| && HandledBefore(db.scheduled, t.scheduled, k, now)
  {
    var read := ReadScheduled(db);
    if read.value.None? {
      assert HandledBefore(db.scheduled, Tick(db, now, transport).db.scheduled, 0, now);
    } else {
      assert db.scheduled[..|db.scheduled|] == db.scheduled;
      WalkAbortKeepsUnreached(read.db, db.scheduled, now, transport);
    }
  }

  /** `cur` is `orig` with at most the due documents among the first `n` changed. */
  ghost predicate KeptNotDue(orig: seq<ScheduledDoc>, cur: seq<ScheduledDoc>, n: nat, now: int) {
    && |cur| == |orig|
    && forall i :: 0 <= i < |orig| && (n <= i || !Due(orig[i], now)) ==> cur[i] == orig[i]
  }

  /** When ids are unique and no document overrides its id, a tick over the
      first documents of the store, complete or not, leaves every document
      that is not due, and every document after them, as it was. */
  lemma {:induction false} WalkKeepsNotDue(db: Db, docs: seq<ScheduledDoc>, now: int,
                                           transport: Message -> TransportResult)
    requires DistinctDocIds(db.scheduled)
    requires |docs| <= |db.scheduled| && docs == db.scheduled[..|docs|]
    requires forall i :: 0 <= i < |docs| ==> EffectiveId(docs[i]) == docs[i].docId
    ensures KeptNotDue(db.scheduled, Walk(db, docs, now, transport).db.scheduled, |docs|, now)
  {
    if docs == [] {
      assert Walk(db, docs, now, transport).db == db;
    } else {
      var n := |docs|;
      var init, last := docs[..n - 1], docs[n - 1];
      assert init == db.scheduled[..n - 1];
      WalkKeepsNotDue(db, init, now, transport);
      var prev := Walk(db, init, now, transport);
      assert Walk(db, docs, now, transport) == if prev.aborted then prev else Visit(prev, last, now, transport);
      if !prev.aborted && Due(last, now) {
        assert last == db.scheduled[n - 1] == prev.db.scheduled[n - 1];
        WalkFrame(db, init, now, transport);
        SameIdsBefore(db.scheduled, prev.db.scheduled, n - 1, now);
        VisitTouchesOnly(prev, last, n - 1, now, transport);
      }
    }
  }

  /** The documents before position `k` keep their ids through a tick's writes,
      so none of them has the id of the document at `k`. */
  lemma SameIdsBefore(orig: seq<ScheduledDoc>, cur: seq<ScheduledDoc>, k: nat, now: int)
    requires DistinctDocIds(orig) && k < |orig| == |cur|
    requires forall i :: 0 <= i < |orig| ==> cur[i] == orig[i] || cur[i] == MarkedSent(orig[i], now)
    ensures forall j :: 0 <= j < k ==> cur[j].docId != orig[k].docId
  {
    forall j | 0 <= j < k
      ensures cur[j].docId != orig[k].docId
    {
      assert cur[j].docId == orig[j].docId;
    }
  }

  /** Every transport call of a tick over `docs`, complete or not, is one the
      complete tick over its due documents makes, in the same order. */
  lemma {:induction false} WalkCallsPrefix(db: Db, docs: seq<ScheduledDoc>, now: int,
                                           transport: Message -> TransportResult)
    ensures Walk(db, docs, now, transport).calls <= CallsFor(DueDocs(docs, now), transport)
  {
    if docs != [] {
      var n := |docs|;
      var init, last := docs[..n - 1], docs[n - 1];
      assert docs == init + [last];
      WalkCallsPrefix(db, init, now, transport);
      var prev := Walk(db, init, now, transport);
      var pre := DueDocs(init, now);
      assert Walk(db, docs, now, transport) == if prev.aborted then prev else Visit(prev, last, now, transport);
      DueDocsSnoc(init, last, now);
      if Due(last, now) {
        CallsForSnoc(pre, last, transport);
        if !prev.aborted {
          WalkComplete(db, init, now, transport);
          VisitDue(prev, last, now, transport);
        }
      } else {
        assert DueDocs(docs, now) == pre;
      }
    }
  }

  /** In a store whose documents keep their own ids, any tick leaves every
      document that is not due as it was. */
  lemma TickKeepsNotDue(db: Db, now: int, transport: Message -> TransportResult)
    requires DbValid(db) && OwnIds(db.scheduled)
    ensures var t := Tick(db, now, transport).db;
      && |t.scheduled| == |db.scheduled|
      && forall i :: 0 <= i < |db.scheduled| && !Due(db.scheduled[i], now) ==> t.scheduled[i] == db.scheduled[i]
  {
    var read := ReadScheduled(db);
    if read.value.Some? {
      assert db.scheduled[..|db.scheduled|] == db.scheduled;
      WalkKeepsNotDue(read.db, db.scheduled, now, transport);
    }
  }

  /** Every transport call of a tick, complete or not, is one the complete tick
      over the due documents makes, in the same order. */
  lemma TickCallsPrefix(db: Db, now: int, transport: Message -> TransportResult)
    ensures Tick(db, now, transport).calls <= CallsFor(DueDocs(db.scheduled, now), transport)
  {
    var read := ReadScheduled(db);
    if read.value.Some? {
      WalkCallsPrefix(read.db, db.scheduled, now, transport);
    }
  }

  /** A visit of a due document appends at most its log entry and its
      tracking record, under the next free id. */
  lemma VisitWritesAtMost(p: Progress, d: ScheduledDoc, now: int, transport: Message -> TransportResult)
    requires Due(d, now)
    ensures var q := Visit(p, d, now, transport);
      && q.db.logs <= p.db.logs + [LogFor(d, now)]
      && q.db.notifications <= p.db.notifications + [RecordFor(d, now).(id := AutoId(|p.db.notifications|))]
  {
  }

  lemma LogsForSnoc(ds: seq<ScheduledDoc>, last: ScheduledDoc, now: int)
    ensures LogsFor(ds + [last], now) == LogsFor(ds, now) + [LogFor(last, now)]
  {
    assert LogsFor(ds + [last], now) == LogsFor(ds, now) + [LogFor(last, now)];
  }

  lemma RecordsFromSnoc(ds: seq<ScheduledDoc>, last: ScheduledDoc, now: int, base: nat)
    ensures RecordsFrom(ds + [last], now, base)
         == RecordsFrom(ds, now, base) + [RecordFor(last, now).(id := AutoId(base + |ds|))]
  {
    assert RecordsFrom(ds + [last], now, base)
        == RecordsFrom(ds, now, base) + [RecordFor(last, now).(id := AutoId(base + |ds|))];
  }

  lemma PrefixGrow<T>(a: seq<T>, b: seq<T>, c: seq<T>)
    requires a <= b
    ensures a <= b + c
  {
    assert (b + c)[..|b|] == b;
  }

  lemma PrefixSnoc<T>(q: seq<T>, prev: seq<T>, base: seq<T>, r: seq<T>, x: T)
    requires q <= prev + [x] && prev == base + r
    ensures q <= base + (r + [x])
  {
    assert prev + [x] == base + (r + [x]);
  }

  /** One more document of the snapshot keeps the logs within those of the due documents. */
  lemma LogsPrefixStep(base: seq<LogEntry>, prev: Progress, init: seq<ScheduledDoc>, last: ScheduledDoc, now: int,
                       transport: Message -> TransportResult)
    requires prev.db.logs <= base + LogsFor(DueDocs(init, now), now)
    requires !prev.aborted ==> prev.db.logs == base + LogsFor(DueDocs(init, now), now)
    ensures (if prev.aborted then prev else Visit(prev, last, now, transport)).db.logs
         <= base + LogsFor(DueDocs(init + [last], now), now)
  {
    var pre := DueDocs(init, now);
    var q := if prev.aborted then prev else Visit(prev, last, now, transport);
    DueDocsSnoc(init, last, now);
    if !Due(last, now) {
      assert q == prev;
      assert DueDocs(init + [last], now) == pre;
    } else {
      var e := LogFor(last, now);
      LogsForSnoc(pre, last, now);
      if prev.aborted {
        PrefixGrow(prev.db.logs, base + LogsFor(pre, now), [e]);
      } else {
        VisitWritesAtMost(prev, last, now, transport);
        PrefixSnoc(q.db.logs, prev.db.logs, base, LogsFor(pre, now), e);
      }
    }
  }

  lemma RecordsDueStep(base: seq<NotificationRecord>, prev: seq<NotificationRecord>, q: seq<NotificationRecord>,
                       pre: seq<ScheduledDoc>, last: ScheduledDoc, now: int)
    requires prev == base + RecordsFrom(pre, now, |base|)
    requires q <= prev + [RecordFor(last, now).(id := AutoId(|prev|))]
    ensures q <= base + RecordsFrom(pre + [last], now, |base|)
  {
    var r := RecordsFrom(pre, now, |base|);
    assert |prev| == |base| + |pre|;
    RecordsFromSnoc(pre, last, now, |base|);
    PrefixSnoc(q, prev, base, r, RecordFor(last, now).(id := AutoId(|base| + |pre|)));
  }

  /** One more document of the snapshot keeps the records within those of the due documents. */
  lemma RecordsPrefixStep(base: seq<NotificationRecord>, prev: Progress, init: seq<ScheduledDoc>, last: ScheduledDoc,
                          now: int, transport: Message -> TransportResult)
    requires prev.db.notifications <= base + RecordsFrom(DueDocs(init, now), now, |base|)
    requires !prev.aborted ==> prev.db.notifications == base + RecordsFrom(DueDocs(init, now), now, |base|)
    ensures (if prev.aborted then prev else Visit(prev, last, now, transport)).db.notifications
         <= base + RecordsFrom(DueDocs(init + [last], now), now, |base|)
  {
    var pre := DueDocs(init, now);
    var q := if prev.aborted then prev else Visit(prev, last, now, transport);
    DueDocsSnoc(init, last, now);
    if !Due(last, now) {
      assert q == prev;
      assert DueDocs(init + [last], now) == pre;
    } else {
      RecordsFromSnoc(pre, last, now, |base|);
      if prev.aborted {
        PrefixGrow(prev.db.notifications, base + RecordsFrom(pre, now, |base|),
                   [RecordFor(last, now).(id := AutoId(|base| + |pre|))]);
      } else {
        VisitWritesAtMost(prev, last, now, transport);
        RecordsDueStep(base, prev.db.notifications, q.db.notifications, pre, last, now);
      }
    }
  }

  /** Every log entry a tick over `docs` writes, complete or not, is one the
      complete tick over its due documents writes, in the same order: no
      document that is not due is ever logged. */
  lemma {:induction false} WalkLogsPrefix(db: Db, docs: seq<ScheduledDoc>, now: int,
                                          transport: Message -> TransportResult)
    ensures Walk(db, docs, now, transport).db.logs <= db.logs + LogsFor(DueDocs(docs, now), now)
  {
    if docs != [] {
      var n := |docs|;
      var init, last := docs[..n - 1], docs[n - 1];
      assert docs == init + [last];
      WalkLogsPrefix(db, init, now, transport);
      var prev := Walk(db, init, now, transport);
      if !prev.aborted {
        WalkComplete(db, init, now, transport);
      }
      LogsPrefixStep(db.logs, prev, init, last, now, transport);
    }
  }

  /** Every tracking record a tick over `docs` stores, complete or not, is one
      the complete tick over its due documents stores, under the same id: no
      document that is not due gets a record. */
  lemma {:induction false} WalkRecordsPrefix(db: Db, docs: seq<ScheduledDoc>, now: int,
                                             transport: Message -> TransportResult)
    ensures Walk(db, docs, now, transport).db.notifications
         <= db.notifications + RecordsFrom(DueDocs(docs, now), now, |db.notifications|)
  {
    if docs != [] {
      var n := |docs|;
      var init, last := docs[..n - 1], docs[n - 1];
      assert docs == init + [last];
      WalkRecordsPrefix(db, init, now, transport);
      var prev := Walk(db, init, now, transport);
      if !prev.aborted {
        WalkComplete(db, init, now, transport);
      }
      RecordsPrefixStep(db.notifications, prev, init, last, now, transport);
    }
  }

  /** Every log entry of a tick, complete or not, is one the complete tick over
      the due documents writes, in the same order. */
  lemma TickLogsPrefix(db: Db, now: int, transport: Message -> TransportResult)
    ensures Tick(db, now, transport).db.logs <= db.logs + LogsFor(DueDocs(db.scheduled, now), now)
  {
    var read := ReadScheduled(db);
    if read.value.Some? {
      WalkLogsPrefix(read.db, db.scheduled, now, transport);
    }
  }

  /** Every tracking record of a tick, complete or not, is one the complete tick
      over the due documents stores, under the same id. */
  lemma TickRecordsPrefix(db: Db, now: int, transport: Message -> TransportResult)
    ensures Tick(db, now, transport).db.notifications
         <= db.notifications + RecordsFrom(DueDocs(db.scheduled, now), now, |db.notifications|)
  {
    var read := ReadScheduled(db);
    if read.value.Some? {
      WalkRecordsPrefix(read.db, db.scheduled, now, transport);
    }
  }

  /** After a completed tick at `now`, the documents still due at `later` are
      documents of the original store that were not due at `now`. */
  lemma StillDueWereNotDue(db: Db, t1: Db, now: int, later: int)
    requires |t1.scheduled| == |db.scheduled|
    requires forall i :: 0 <= i < |db.scheduled| ==>
      t1.scheduled[i] == if Due(db.scheduled[i], now) then MarkedSent(db.scheduled[i], now) else db.scheduled[i]
    ensures forall d :: d in DueDocs(t1.scheduled, later) ==> d in db.scheduled && !Due(d, now)
  {
    forall d | d in DueDocs(t1.scheduled, later)
      ensures d in db.scheduled && !Due(d, now)
    {
      var i :| 0 <= i < |t1.scheduled| && t1.scheduled[i] == d;
      assert Due(d, later);
      assert !Due(db.scheduled[i], now);
    }
  }

  /** A completed tick's writes keep every document's own id. */
  lemma MarkingKeepsOwnIds(db: Db, t1: Db, now: int)
    requires OwnIds(db.scheduled) && |t1.scheduled| == |db.scheduled|
    requires forall i :: 0 <= i < |db.scheduled| ==>
      t1.scheduled[i] == if Due(db.scheduled[i], now) then MarkedSent(db.scheduled[i], now) else db.scheduled[i]
    ensures OwnIds(t1.scheduled)
  {
    forall i | 0 <= i < |t1.scheduled|
      ensures EffectiveId(t1.scheduled[i]) == t1.scheduled[i].docId
    {
      assert EffectiveId(db.scheduled[i]) == db.scheduled[i].docId;
    }
  }

  /** Idempotence across ticks: in a store whose documents keep their own ids,
      after a completed tick at `now`, a later tick at any instant `later`,
      complete or not, leaves every document the first one sent as it is and
      makes calls, log entries and records only for documents that were not
      due at `now`; when it
      completes, it sends, logs and records exactly the documents due at `later`. */
  lemma TickIdempotent(db: Db, now: int, later: int, transport: Message -> TransportResult)
    requires DbValid(db) && OwnIds(db.scheduled)
    requires !Tick(db, now, transport).aborted
    ensures var t1 := Tick(db, now, transport);
      var t2 := Tick(t1.db, later, transport);
      var again := DueDocs(t1.db.scheduled, later);
      && |t2.db.scheduled| == |t1.db.scheduled| == |db.scheduled|
      && (forall i :: 0 <= i < |db.scheduled| && Due(db.scheduled[i], now) ==>
            !Due(t1.db.scheduled[i], later) && t2.db.scheduled[i] == t1.db.scheduled[i])
      && (forall d :: d in again ==> d in db.scheduled && !Due(d, now))
      && t2.calls <= CallsFor(again, transport)
      && t2.db.logs <= t1.db.logs + LogsFor(again, later)
      && t2.db.notifications <= t1.db.notifications + RecordsFrom(again, later, |t1.db.notifications|)
      && (!t2.aborted ==>
            && t2.calls == CallsFor(again, transport)
            && t2.db.logs == t1.db.logs + LogsFor(again, later)
            && t2.db.notifications == t1.db.notifications + RecordsFrom(again, later, |t1.db.notifications|))
  {
    var t1 := Tick(db, now, transport);
    TickMarksExactlyDue(db, now, transport);
    TickFrame(db, now, transport);
    MarkingKeepsOwnIds(db, t1.db, now);
    TickKeepsNotDue(t1.db, later, transport);
    StillDueWereNotDue(db, t1.db, now, later);
    TickCallsPrefix(t1.db, later, transport);
    TickLogsPrefix(t1.db, later, transport);
    TickRecordsPrefix(t1.db, later, transport);
    TickComplete(t1.db, later, transport);
  }

  /** In a store whose documents keep their own ids, a second tick at the same
      instant after a complete one sends nothing and writes nothing. */
  lemma TickSameInstantIdle(db: Db, now: int, transport: Message -> TransportResult)
    requires DbValid(db) && OwnIds(db.scheduled)
    requires !Tick(db, now, transport).aborted
    ensures var t1 := Tick(db, now, transport);
      var t2 := Tick(t1.db, now, transport);
      && t2.calls == []
      && t2.db == t1.db.(available := t2.db.available)
  {
    var t1 := Tick(db, now, transport);
    TickMarksExactlyDue(db, now, transport);
    assert forall i :: 0 <= i < |t1.db.scheduled| ==> !Due(t1.db.scheduled[i], now);
    var read := ReadScheduled(t1.db);
    if read.value.Some? {
      WalkNoneDue(read.db, read.value.value, now, transport);
    }
  }

  /** The scheduled example: one document due five minutes ago, whose single
      embedded token the provider refuses with an internal error. */
  function ExampleDoc(now: int): ScheduledDoc {
    ScheduledDoc("n1", None, "Sale", "50% off", Absent, Some(now - 300), ["u1"], [Plain("t9")], STATUS_SCHEDULED, None)
  }

  function RefusingTransport(m: Message): TransportResult {
    Failed(Some("messaging/internal-error"))
  }

  /** The example document's token loop makes exactly one call, to t9. */
  lemma ExampleItemCalls(now: int)
    ensures var d := ExampleDoc(now);
      var calls := ItemCalls(d, d.userTokens, RefusingTransport);
      |calls| == 1 && calls[0].token == "t9"
  {
    var d := ExampleDoc(now);
    var e := Plain("t9");
    assert d.userTokens == [] + [e];
    ItemCallsSnoc(d, [], e, RefusingTransport);
    AcceptsTokenIff(Str("t9"));
    assert "t9"[0] in "t9";
  }

  lemma SingleValid(db: Db, d: ScheduledDoc)
    requires db.scheduled == [d] && db.notifications == [] && d.idField.None? && ValidDocId(d.docId)
    ensures DbValid(db) && OwnIds(db.scheduled)
  {
  }

  /** A tick over a fresh store holding one due document with its own valid id
      and enough service runs to the end and sends, marks, logs and records it. */
  lemma TickSingleDue(db: Db, d: ScheduledDoc, now: int, transport: Message -> TransportResult)
    requires db.scheduled == [d] && db.logs == [] && db.notifications == []
    requires Due(d, now) && d.idField.None? && ValidDocId(d.docId) && 4 <= db.available
    ensures var t := Tick(db, now, transport);
      && !t.aborted
      && t.calls == ItemCalls(d, d.userTokens, transport)
      && t.db.scheduled == [MarkedSent(d, now)]
      && t.db.logs == [LogFor(d, now)]
      && t.db.notifications == [RecordFor(d, now).(id := AutoId(0))]
      && t.db.users == db.users
  {
    assert DueDocs([d], now) == [d] by {
      assert [d][..0] == [];
    }
    assert Names(db.scheduled, EffectiveId(d)) by {
      assert db.scheduled[0].docId == d.docId;
    }
    TickComplete(db, now, transport);
    TickFrame(db, now, transport);
    SingleValid(db, d);
    TickMarksExactlyDue(db, now, transport);
    assert CallsFor([d], transport) == ItemCalls(d, d.userTokens, transport) by {
      assert [d][..0] == [];
    }
    assert LogsFor([d], now) == [LogFor(d, now)];
    assert RecordsFrom([d], now, 0) == [RecordFor(d, now).(id := AutoId(0))];
  }

  /** In the example the tick runs to the end, marks the document sent, logs
      it and records it, and leaves the users alone, whatever the provider's answer. */
  lemma SchedulerExample(now: int, users: map<Uid, seq<TokenEntry>>)
    ensures var d := ExampleDoc(now);
      var db := Db(users, [d], [], [], 10);
      var t := Tick(db, now, RefusingTransport);
      && !t.aborted
      && t.calls == ItemCalls(d, d.userTokens, RefusingTransport)
      && t.db.scheduled == [MarkedSent(d, now)]
      && t.db.logs == [LogFor(d, now)]
      && t.db.notifications == [RecordFor(d, now).(id := AutoId(0))]
      && t.db.users == users
  {
    var d := ExampleDoc(now);
    assert ValidDocId("n1");
    TickSingleDue(Db(users, [d], [], [], 10), d, now, RefusingTransport);
  }
}
