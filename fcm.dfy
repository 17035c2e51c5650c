/**
 * The transport adapter of utils/sendFCMNotification.js: one guard on the
 * token, one multi-platform message, exactly one call into the push transport,
 * and the transport's answer mapped to a `{success, token, errorCode}` outcome.
 * The transport itself is a parameter: a function from the outgoing message
 * to the provider's answer.
 */
module Fcm {
  import opened Wrappers
  import opened JsValues

  const INVALID_TOKEN: string := "invalid-token"
  const UNKNOWN_ERROR: string := "unknown-error"
  const NOT_REGISTERED: string := "messaging/registration-token-not-registered"
  const OPEN_ACTION: string := "FLUTTER_NOTIFICATION_CLICK"
  const NOTIF_ID_KEY: string := "notifId"
  const CLICK_ACTION_KEY: string := "click_action"

  // Fixed platform presentation values of the message.
  const PRIORITY_HIGH: string := "high"
  const DEFAULT_SOUND: string := "default"
  const DEFAULT_CHANNEL: string := "default"
  const MUTABLE_CONTENT: int := 1
  const WEB_ICON: string := "/logo192.png"
  const VIBRATE_PATTERN: seq<int> := [100, 50, 100]

  datatype Alert = Alert(title: string, body: string)
  datatype AndroidNotification = AndroidNotification(title: string, body: string, image: Img, sound: string, channelId: string)
  datatype AndroidConfig = AndroidConfig(priority: string, notification: AndroidNotification)
  datatype Aps = Aps(alert: Alert, sound: string, mutableContent: int)
  datatype ApnsConfig = ApnsConfig(aps: Aps, fcmImage: Img)
  datatype WebNotification = WebNotification(title: string, body: string, icon: string, image: Img, vibrate: seq<int>, sound: string)
  datatype WebpushConfig = WebpushConfig(urgency: string, notification: WebNotification)

  /** The one message handed to the transport. */
  datatype Message = Message(
    token: string,
    notification: Alert,
    android: AndroidConfig,
    apns: ApnsConfig,
    webpush: WebpushConfig,
    data: map<string, string>)

  /** The adapter's arguments `{token, title, body, image, data}`. A caller that
      omits `data` passes the empty map. */
  datatype SendRequest = SendRequest(token: TokenValue, title: string, body: string, image: Img, data: map<string, string>)

  /** What the transport answers: a message id, or an error with an optional `code`. */
  datatype TransportResult = Delivered(messageId: string) | Failed(code: Option<string>)

  /** The adapter's normalised result. */
  datatype SendOutcome = SendOutcome(success: bool, token: TokenValue, errorCode: Option<string>, response: Option<string>)

  /** An outcome together with the transport calls that produced it, in order. */
  datatype Attempt = Attempt(outcome: SendOutcome, calls: seq<Message>)

  /** The local guard: a non-empty string that is not all white space. */
  predicate AcceptsToken(v: TokenValue) {
    v.Str? && Trim(v.s) != ""
  }

  /** The guard rejects exactly the falsy values, the non-strings and the blank strings. */
  lemma AcceptsTokenIff(v: TokenValue)
    ensures AcceptsToken(v) <==> !Falsy(v) && v.Str? && !Blank(v.s)
  {
    if v.Str? {
      TrimEmptyIffBlank(v.s);
    }
  }

  /** The message's data block: the caller's keys, then the two reserved keys. */
  function DataPayload(data: map<string, string>): (d: map<string, string>)
    ensures d.Keys == data.Keys + {NOTIF_ID_KEY, CLICK_ACTION_KEY}
    ensures forall k :: k in data && k != NOTIF_ID_KEY && k != CLICK_ACTION_KEY ==> d[k] == data[k]
    ensures d[NOTIF_ID_KEY] == (if NOTIF_ID_KEY in data then data[NOTIF_ID_KEY] else "")
    ensures d[CLICK_ACTION_KEY] == OPEN_ACTION
  {
    var notifId := if NOTIF_ID_KEY in data then data[NOTIF_ID_KEY] else "";
    data[NOTIF_ID_KEY := notifId][CLICK_ACTION_KEY := OPEN_ACTION]
  }

  /** A data block that already holds exactly the two reserved keys, with the
      fixed open action, is sent unchanged. */
  lemma DataPayloadFixesReserved(notifId: string)
    ensures DataPayload(map[NOTIF_ID_KEY := notifId, CLICK_ACTION_KEY := OPEN_ACTION])
         == map[NOTIF_ID_KEY := notifId, CLICK_ACTION_KEY := OPEN_ACTION]
  {
    var m := map[NOTIF_ID_KEY := notifId, CLICK_ACTION_KEY := OPEN_ACTION];
    assert DataPayload(m).Keys == m.Keys;
  }

  /** A caller that passes only `notifId` gets exactly the two reserved keys. */
  lemma DataPayloadOfNotifId(notifId: string)
    ensures DataPayload(map[NOTIF_ID_KEY := notifId])
         == map[NOTIF_ID_KEY := notifId, CLICK_ACTION_KEY := OPEN_ACTION]
  {
    var m := map[NOTIF_ID_KEY := notifId, CLICK_ACTION_KEY := OPEN_ACTION];
    assert DataPayload(map[NOTIF_ID_KEY := notifId]).Keys == m.Keys;
  }

  /** The message for an accepted token. */
  function BuildMessage(token: string, req: SendRequest): Message {
    Message(
      token,
      Alert(req.title, req.body),
      AndroidConfig(PRIORITY_HIGH, AndroidNotification(req.title, req.body, req.image, DEFAULT_SOUND, DEFAULT_CHANNEL)),
      ApnsConfig(Aps(Alert(req.title, req.body), DEFAULT_SOUND, MUTABLE_CONTENT), req.image),
      WebpushConfig(PRIORITY_HIGH, WebNotification(req.title, req.body, WEB_ICON, req.image, VIBRATE_PATTERN, DEFAULT_SOUND)),
      DataPayload(req.data))
  }

  /** `m` shows `title` and `body` in all four platform blocks and `image` in the
      three that take one. */
  predicate Presents(m: Message, title: string, body: string, image: Img) {
    && m.notification == Alert(title, body)
    && m.android.notification.title == title && m.android.notification.body == body
    && m.apns.aps.alert == Alert(title, body)
    && m.webpush.notification.title == title && m.webpush.notification.body == body
    && m.android.notification.image == image
    && m.apns.fcmImage == image
    && m.webpush.notification.image == image
  }

  /** `error.code || "unknown-error"` */
  function ErrorCode(code: Option<string>): (r: string)
    ensures r != ""
    ensures code.Some? && code.value != "" ==> r == code.value
    ensures r == UNKNOWN_ERROR <==> code.None? || code.value == "" || code.value == UNKNOWN_ERROR
  {
    match code
    case Some(c) => if c != "" then c else UNKNOWN_ERROR
    case None => UNKNOWN_ERROR
  }

  /** The transport's answer as an outcome for `token`. */
  function Normalise(token: TokenValue, tr: TransportResult): (o: SendOutcome)
    ensures o.token == token
    ensures o.success <==> tr.Delivered?
    ensures o.success ==> o.errorCode.None? && o.response == Some(tr.messageId)
    ensures !o.success ==> o.errorCode == Some(ErrorCode(tr.code)) && o.response.None?
  {
    match tr
    case Delivered(id) => SendOutcome(true, token, None, Some(id))
    case Failed(code) => SendOutcome(false, token, Some(ErrorCode(code)), None)
  }

  /** `sendFCMNotification(req)` against `transport`. */
  function Send(req: SendRequest, transport: Message -> TransportResult): (a: Attempt)
    ensures a.outcome.token == req.token
    ensures |a.calls| <= 1
    ensures a.calls == [] <==> !AcceptsToken(req.token)
    ensures !AcceptsToken(req.token) ==> a.outcome == SendOutcome(false, req.token, Some(INVALID_TOKEN), None)
    ensures AcceptsToken(req.token) ==>
      && a.calls[0].token == req.token.s
      && Presents(a.calls[0], req.title, req.body, req.image)
      && a.calls[0].data == DataPayload(req.data)
      && (a.outcome.success <==> transport(a.calls[0]).Delivered?)
      && (!a.outcome.success ==> a.outcome.errorCode == Some(ErrorCode(transport(a.calls[0]).code)))
  {
    if !AcceptsToken(req.token) then
      Attempt(SendOutcome(false, req.token, Some(INVALID_TOKEN), None), [])
    else
      var m := BuildMessage(req.token.s, req);
      Attempt(Normalise(req.token, transport(m)), [m])
  }

  /** The number of entries whose token passes the adapter's guard. */
  function CountAccepted(entries: seq<TokenEntry>): nat {
    if entries == [] then 0
    else (if AcceptsToken(Normalize(entries[0])) then 1 else 0) + CountAccepted(entries[1..])
  }

  lemma {:induction false} CountAcceptedSnoc(entries: seq<TokenEntry>, e: TokenEntry)
    ensures CountAccepted(entries + [e]) == CountAccepted(entries) + (if AcceptsToken(Normalize(e)) then 1 else 0)
  {
    if entries != [] {
      assert (entries + [e])[1..] == entries[1..] + [e];
      CountAcceptedSnoc(entries[1..], e);
    }
  }

  /** The token strings the adapter's guard lets through, in order. */
  function AcceptedTokens(entries: seq<TokenEntry>): seq<string>
    decreases |entries|
  {
    if entries == [] then []
    else
      var v := Normalize(entries[|entries| - 1]);
      AcceptedTokens(entries[..|entries| - 1]) + if AcceptsToken(v) then [v.s] else []
  }

  /** The addressees of a list of calls. */
  function Addressees(calls: seq<Message>): seq<string>
    decreases |calls|
  {
    if calls == [] then [] else Addressees(calls[..|calls| - 1]) + [calls[|calls| - 1].token]
  }

  lemma {:induction false} AddresseesAppend(a: seq<Message>, b: seq<Message>)
    ensures Addressees(a + b) == Addressees(a) + Addressees(b)
    decreases |b|
  {
    if b != [] {
      var n := |b|;
      assert (a + b)[..|a + b| - 1] == a + b[..n - 1];
      AddresseesAppend(a, b[..n - 1]);
    } else {
      assert a + b == a;
    }
  }

  /** `m` is addressed with the tracking id and shows the request's content. */
  predicate CarriesRequest(m: Message, title: string, body: string, image: Img, notifId: string) {
    m.data == map[NOTIF_ID_KEY := notifId, CLICK_ACTION_KEY := OPEN_ACTION] && Presents(m, title, body, image)
  }

  /** The outcome that drives eviction. */
  predicate NotRegistered(o: SendOutcome) {
    !o.success && o.errorCode == Some(NOT_REGISTERED)
  }

  /** Only a token that passed the guard and reached the transport can come back
      as not registered, and then the provider said so. */
  lemma NotRegisteredReachedTransport(req: SendRequest, transport: Message -> TransportResult)
    requires NotRegistered(Send(req, transport).outcome)
    ensures AcceptsToken(req.token) && req.token.Str? && !Blank(req.token.s)
    ensures var a := Send(req, transport);
      |a.calls| == 1 && transport(a.calls[0]) == Failed(Some(NOT_REGISTERED))
  {
    AcceptsTokenIff(req.token);
  }
}
