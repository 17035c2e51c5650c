/**
 * The document store the dispatch code talks to: the `users` collection (one
 * token list per uid), the `scheduledNotifications` collection, and the
 * append-only `logs` and `notifications` collections.
 *
 * Store failures: `available` is the number of further store calls the
 * backend will serve; every call after that fails. Because the caller aborts
 * at its first failed call, this reaches every point at which a real outage
 * could interrupt the caller. A call for an invalid document path, or an
 * update of a document that does not exist, fails on its own.
 */
module DocStore {
  import opened Wrappers
  import opened JsValues

  const STATUS_SCHEDULED: string := "scheduled"
  const STATUS_SENT: string := "sent"

  /** Read/click tracking for one targeted user. */
  datatype DeliveryEntry = DeliveryEntry(uid: Uid, seen: bool, clicked: bool, seenAt: Option<int>, clickedAt: Option<int>)

  /** `{uid, seen: false, clicked: false, seenAt: null, clickedAt: null}` */
  function Unseen(uid: Uid): DeliveryEntry {
    DeliveryEntry(uid, false, false, None, None)
  }

  /** `uids.map(uid => Unseen(uid))` */
  function Delivery(uids: seq<Uid>): seq<DeliveryEntry> {
    seq(|uids|, i requires 0 <= i < |uids| => Unseen(uids[i]))
  }

  /** A document of the `notifications` collection. */
  datatype NotificationRecord = NotificationRecord(
    id: string, title: string, body: string, imageUrl: Img, kind: string,
    delivery: seq<DeliveryEntry>, createdAt: int)

  /** A document of the `logs` collection. */
  datatype LogEntry = LogEntry(
    title: string, body: string, imageUrl: Img, userTokens: seq<TokenEntry>, userIds: seq<Uid>,
    kind: string, channel: string, status: string, timestamp: int)

  /** A document of the `scheduledNotifications` collection. `idField` is an
      `id` field inside the document's data, if it has one; `scheduledAt` is
      None when the field is missing or is not a timestamp; a missing `status`
      is the empty string. */
  datatype ScheduledDoc = ScheduledDoc(
    docId: string, idField: Option<string>, title: string, body: string, imageUrl: Img,
    scheduledAt: Option<int>, userIds: seq<Uid>, userTokens: seq<TokenEntry>,
    status: string, sentAt: Option<int>)

  /** `d` after `update({status: "sent", sentAt: at})` */
  function MarkedSent(d: ScheduledDoc, at: int): ScheduledDoc {
    d.(status := STATUS_SENT, sentAt := Some(at))
  }

  /** The whole store as a value. */
  datatype Db = Db(
    users: map<Uid, seq<TokenEntry>>,
    scheduled: seq<ScheduledDoc>,
    logs: seq<LogEntry>,
    notifications: seq<NotificationRecord>,
    available: nat)

  /** A document id that names a document directly under a collection. */
  predicate ValidDocId(id: string) {
    id != "" && '/' !in id
  }

  function DigitChar(d: nat): char
    requires d < 10
  {
    (48 + d) as char
  }

  /** The decimal rendering of `n`. */
  function Digits(n: nat): (s: string)
    ensures |s| >= 1
    ensures |s| == 1 <==> n < 10
  {
    if n < 10 then [DigitChar(n)] else Digits(n / 10) + [DigitChar(n % 10)]
  }

  lemma {:induction false} DigitsInjective(m: nat, n: nat)
    requires Digits(m) == Digits(n)
    ensures m == n
    decreases m
  {
    var a, b := Digits(m), Digits(n);
    if m < 10 {
      assert a[0] == b[0];
    } else {
      assert a[|a| - 1] == b[|b| - 1];
      assert a[..|a| - 1] == Digits(m / 10);
      assert b[..|b| - 1] == Digits(n / 10);
      DigitsInjective(m / 10, n / 10);
    }
  }

  /** The id the store gives to the `n`-th document added to `notifications`. */
  function AutoId(n: nat): string {
    Digits(n)
  }

  /** Distinct documents receive distinct ids. */
  lemma AutoIdInjective(m: nat, n: nat)
    ensures AutoId(m) == AutoId(n) <==> m == n
  {
    if AutoId(m) == AutoId(n) {
      DigitsInjective(m, n);
    }
  }

  ghost predicate DistinctDocIds(docs: seq<ScheduledDoc>) {
    forall i, j :: 0 <= i < j < |docs| ==> docs[i].docId != docs[j].docId
  }

  /** What the store guarantees about its own contents: document ids are
      valid and unique in `scheduledNotifications`, and each record of
      `notifications` has the id it was given when it was added. */
  ghost predicate DbValid(db: Db) {
    && DistinctDocIds(db.scheduled)
    && (forall i :: 0 <= i < |db.scheduled| ==> ValidDocId(db.scheduled[i].docId))
    && (forall i :: 0 <= i < |db.notifications| ==> db.notifications[i].id == AutoId(i))
  }

  /** In a valid store the id the next added record receives is held by no record yet. */
  lemma NextIdFresh(db: Db)
    requires DbValid(db)
    ensures forall i :: 0 <= i < |db.notifications| ==> db.notifications[i].id != AutoId(|db.notifications|)
  {
    forall i | 0 <= i < |db.notifications| {
      AutoIdInjective(i, |db.notifications|);
    }
  }

  /** `userDoc.data()?.messaging?.fcmTokens || []` */
  function TokensOf(users: map<Uid, seq<TokenEntry>>, uid: Uid): seq<TokenEntry> {
    if uid in users then users[uid] else []
  }

  /** One call is served (or none, once the backend has stopped serving). */
  function Spend(db: Db): Db {
    db.(available := if db.available == 0 then 0 else db.available - 1)
  }

  /** The answer to one store call and the store afterwards; `value` is None
      when the call failed. */
  datatype Reply<T> = Reply(value: Option<T>, db: Db)

  /** `collection('users').doc(uid).get()` */
  function ReadUser(db: Db, uid: Uid): (r: Reply<seq<TokenEntry>>)
    ensures r.db == Spend(db)
    ensures r.value.Some? <==> db.available > 0 && ValidDocId(uid)
    ensures r.value.Some? ==> r.value.value == TokensOf(db.users, uid)
  {
    if db.available == 0 || !ValidDocId(uid) then Reply(None, Spend(db))
    else Reply(Some(TokensOf(db.users, uid)), Spend(db))
  }

  /** `collection('notifications').add(rec)`: the record is stored under a
      fresh id, which is returned. */
  function AddNotification(db: Db, rec: NotificationRecord): (r: Reply<string>)
    ensures r.value.Some? <==> db.available > 0
    ensures r.value.None? ==> r.db == db
    ensures r.value.Some? ==>
      && r.value.value == AutoId(|db.notifications|)
      && r.db == Spend(db).(notifications := db.notifications + [rec.(id := r.value.value)])
    ensures DbValid(db) && r.value.Some? ==>
      forall i :: 0 <= i < |db.notifications| ==> db.notifications[i].id != r.value.value
    ensures DbValid(db) ==> DbValid(r.db)
  {
    if db.available == 0 then Reply(None, db)
    else
      var id := AutoId(|db.notifications|);
      var r := Reply(Some(id), Spend(db).(notifications := db.notifications + [rec.(id := id)]));
      assert DbValid(db) ==> forall i :: 0 <= i < |db.notifications| ==> db.notifications[i].id != id by {
        forall i | 0 <= i < |db.notifications| {
          AutoIdInjective(i, |db.notifications|);
        }
      }
      r
  }

  /** `collection('users').doc(uid).update({'messaging.fcmTokens': toks})`;
      updating a user document that does not exist fails. */
  function WriteUserTokens(db: Db, uid: Uid, toks: seq<TokenEntry>): (r: Reply<()>)
    ensures r.value.Some? <==> db.available > 0 && uid in db.users
    ensures r.db == if r.value.Some? then Spend(db).(users := db.users[uid := toks]) else Spend(db)
  {
    if db.available == 0 || uid !in db.users then Reply(None, Spend(db))
    else Reply(Some(()), Spend(db).(users := db.users[uid := toks]))
  }

  /** `collection('scheduledNotifications').get()` */
  function ReadScheduled(db: Db): (r: Reply<seq<ScheduledDoc>>)
    ensures r.db == Spend(db)
    ensures r.value.Some? <==> db.available > 0
    ensures r.value.Some? ==> r.value.value == db.scheduled
  {
    if db.available == 0 then Reply(None, Spend(db)) else Reply(Some(db.scheduled), Spend(db))
  }

  /** The position of the document with id `id`. */
  function FindDoc(docs: seq<ScheduledDoc>, id: string): (r: Option<nat>)
    ensures r.Some? ==> r.value < |docs| && docs[r.value].docId == id
    ensures r.None? <==> forall i :: 0 <= i < |docs| ==> docs[i].docId != id
  {
    if docs == [] then None
    else if docs[0].docId == id then Some(0)
    else match FindDoc(docs[1..], id)
      case None => None
      case Some(j) => Some(j + 1)
  }

  /** `collection('scheduledNotifications').doc(id).update({status: 'sent', sentAt: at})`;
      updating a document that does not exist fails. */
  function MarkSent(db: Db, id: string, at: int): (r: Reply<()>)
    ensures r.value.Some? <==> db.available > 0 && FindDoc(db.scheduled, id).Some?
    ensures r.value.None? ==> r.db == Spend(db)
    ensures r.value.Some? ==>
      var i := FindDoc(db.scheduled, id).value;
      r.db == Spend(db).(scheduled := db.scheduled[i := MarkedSent(db.scheduled[i], at)])
  {
    if db.available == 0 then Reply(None, Spend(db))
    else match FindDoc(db.scheduled, id)
      case None => Reply(None, Spend(db))
      case Some(i) => Reply(Some(()), Spend(db).(scheduled := db.scheduled[i := MarkedSent(db.scheduled[i], at)]))
  }

  /** `collection('logs').add(entry)` */
  function AddLog(db: Db, entry: LogEntry): (r: Reply<()>)
    ensures r.value.Some? <==> db.available > 0
    ensures r.db == if r.value.Some? then Spend(db).(logs := db.logs + [entry]) else db
  {
    if db.available == 0 then Reply(None, db) else Reply(Some(()), Spend(db).(logs := db.logs + [entry]))
  }

  /** The store as a mutable object; each method is one store call and changes
      the collections exactly as the matching function above says. */
  class DocumentStore {
    var users: map<Uid, seq<TokenEntry>>
    var scheduled: seq<ScheduledDoc>
    var logs: seq<LogEntry>
    var notifications: seq<NotificationRecord>
    var available: nat

    function State(): Db
      reads this
    {
      Db(users, scheduled, logs, notifications, available)
    }

    constructor (db: Db)
      ensures State() == db
    {
      users, scheduled, logs, notifications, available := db.users, db.scheduled, db.logs, db.notifications, db.available;
    }

    /** Counts one served call. */
    method Serve()
      modifies this`available
      ensures State() == Spend(old(State()))
    {
      if available > 0 {
        available := available - 1;
      }
    }

    method ReadUserTokens(uid: Uid) returns (r: Option<seq<TokenEntry>>)
      modifies this
      ensures Reply(r, State()) == ReadUser(old(State()), uid)
    {
      var up := available > 0;
      Serve();
      if up && ValidDocId(uid) {
        r := Some(TokensOf(users, uid));
      } else {
        r := None;
      }
    }

    method AddNotificationRecord(rec: NotificationRecord) returns (id: Option<string>)
      modifies this
      ensures Reply(id, State()) == AddNotification(old(State()), rec)
    {
      if available == 0 {
        return None;
      }
      var newId := AutoId(|notifications|);
      Serve();
      notifications := notifications + [rec.(id := newId)];
      id := Some(newId);
    }

    method SetUserTokens(uid: Uid, toks: seq<TokenEntry>) returns (ok: bool)
      modifies this
      ensures Reply(if ok then Some(()) else None, State()) == WriteUserTokens(old(State()), uid, toks)
    {
      ok := available > 0 && uid in users;
      Serve();
      if ok {
        users := users[uid := toks];
      }
    }

    method LoadScheduled() returns (docs: Option<seq<ScheduledDoc>>)
      modifies this
      ensures Reply(docs, State()) == ReadScheduled(old(State()))
    {
      docs := if available > 0 then Some(scheduled) else None;
      Serve();
    }

    method UpdateSent(id: string, at: int) returns (ok: bool)
      modifies this
      ensures Reply(if ok then Some(()) else None, State()) == MarkSent(old(State()), id, at)
    {
      var up := available > 0;
      Serve();
      if !up {
        return false;
      }
      var i := 0;
      while i < |scheduled| && scheduled[i].docId != id
        invariant 0 <= i <= |scheduled|
        invariant forall j :: 0 <= j < i ==> scheduled[j].docId != id
      {
        i := i + 1;
      }
      if i == |scheduled| {
        return false;
      }
      FindFirst(scheduled, id, i);
      scheduled := scheduled[i := MarkedSent(scheduled[i], at)];
      ok := true;
    }

    method AddLogEntry(entry: LogEntry) returns (ok: bool)
      modifies this
      ensures Reply(if ok then Some(()) else None, State()) == AddLog(old(State()), entry)
    {
      ok := available > 0;
      if ok {
        Serve();
        logs := logs + [entry];
      }
    }
  }

  /** The first document with a given id is the one `FindDoc` names. */
  lemma {:induction false} FindFirst(docs: seq<ScheduledDoc>, id: string, i: nat)
    requires i < |docs| && docs[i].docId == id
    requires forall j :: 0 <= j < i ==> docs[j].docId != id
    ensures FindDoc(docs, id) == Some(i)
  {
    if i > 0 {
      FindFirst(docs[1..], id, i - 1);
    }
  }
}
