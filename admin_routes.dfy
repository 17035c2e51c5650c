/**
 * The `/send-notification` handler of routes/adminRoutes.js: validate the
 * request, gather every target user's stored tokens, create the tracking
 * record, send once per token, map "not registered" failures back to the
 * users that own the token, and rewrite those users' token lists.
 *
 * Each phase is a function over the store's value (the specification) and a
 * method with the source's loop, proved equal to it; the lemmas state what
 * the phases promise.
 */
module AdminRoutes {
  import opened Wrappers
  import opened JsValues
  import opened JsObjects
  import opened Fcm
  import opened DocStore

  const MISSING_FIELDS: string := "Missing userIds, title, or body"
  const SEND_FAILED: string := "Failed to send notification"
  const MANUAL: string := "manual"

  /** The request body. `userIds` is None when it is missing or not an array. */
  datatype Request = Request(userIds: Option<seq<Uid>>, title: string, body: string, imageUrl: Img)

  /** The handler's answer: status 400, status 500, or status 200 with its body. */
  datatype Response =
    | BadRequest(error: string)
    | ServerError(error: string)
    | Ok(tokensSent: nat, invalidTokens: Obj<seq<TokenEntry>>, results: seq<SendOutcome>)

  /** `!userIds || !Array.isArray(userIds) || userIds.length === 0 || !title || !body` */
  predicate Malformed(req: Request) {
    req.userIds.None? || |req.userIds.value| == 0 || req.title == "" || req.body == ""
  }

  // ---------------------------------------------------------------------------
  // Token collection

  /** `userTokens` and `userTokenMap`. */
  datatype Collected = Collected(tokens: seq<TokenEntry>, byUser: Obj<seq<TokenEntry>>)

  /** One pass of the collection loop: a non-empty list is appended and recorded. */
  function Include(c: Collected, uid: Uid, toks: seq<TokenEntry>): Collected {
    if |toks| > 0 then Collected(c.tokens + toks, Put(c.byUser, uid, toks)) else c
  }

  /** The collection loop over `uids`, given the stored lists. */
  function CollectFrom(users: map<Uid, seq<TokenEntry>>, uids: seq<Uid>): Collected
    decreases |uids|
  {
    if uids == [] then Collected([], Empty())
    else
      var last := uids[|uids| - 1];
      Include(CollectFrom(users, uids[..|uids| - 1]), last, TokensOf(users, last))
  }

  /** Reference definition: every uid's list, empty ones included, concatenated in order. */
  function AllTokens(users: map<Uid, seq<TokenEntry>>, uids: seq<Uid>): seq<TokenEntry> {
    if uids == [] then [] else TokensOf(users, uids[0]) + AllTokens(users, uids[1..])
  }

  lemma {:induction false} AllTokensSnoc(users: map<Uid, seq<TokenEntry>>, uids: seq<Uid>, uid: Uid)
    ensures AllTokens(users, uids + [uid]) == AllTokens(users, uids) + TokensOf(users, uid)
  {
    if uids != [] {
      assert (uids + [uid])[1..] == uids[1..] + [uid];
      AllTokensSnoc(users, uids[1..], uid);
    }
  }

  /** `userTokens` is the concatenation of the users' lists in `userIds` order;
      `userTokenMap` has an entry exactly for the targeted users with a non-empty
      list, holding that list. */
  lemma {:induction false} CollectFromSpec(users: map<Uid, seq<TokenEntry>>, uids: seq<Uid>)
    ensures var c := CollectFrom(users, uids);
      && c.tokens == AllTokens(users, uids)
      && Wf(c.byUser)
      && (forall uid :: uid in c.byUser.entries <==> uid in uids && TokensOf(users, uid) != [])
      && (forall uid :: uid in c.byUser.entries ==> c.byUser.entries[uid] == TokensOf(users, uid))
  {
    if uids != [] {
      var init, last := uids[..|uids| - 1], uids[|uids| - 1];
      CollectFromSpec(users, init);
      AllTokensSnoc(users, init, last);
      assert uids == init + [last];
    }
  }

  /** The collection loop with its store reads; it stops at the first failed read. */
  datatype Reading = Reading(ok: bool, collected: Collected, db: Db)

  function ReadTokens(db: Db, uids: seq<Uid>): Reading
    decreases |uids|
  {
    if uids == [] then Reading(true, Collected([], Empty()), db)
    else
      var prev := ReadTokens(db, uids[..|uids| - 1]);
      if !prev.ok then prev
      else
        var last := uids[|uids| - 1];
        var r := ReadUser(prev.db, last);
        match r.value
        case None => Reading(false, prev.collected, r.db)
        case Some(toks) => Reading(true, Include(prev.collected, last, toks), r.db)
  }

  /** Once a read has failed, the later uids are not read. */
  lemma {:induction false} ReadTokensStops(db: Db, uids: seq<Uid>, k: nat)
    requires k <= |uids| && !ReadTokens(db, uids[..k]).ok
    ensures ReadTokens(db, uids) == ReadTokens(db, uids[..k])
    decreases |uids| - k
  {
    if k < |uids| {
      var n := |uids|;
      assert uids[..n - 1][..k] == uids[..k];
      ReadTokensStops(db, uids[..n - 1], k);
    } else {
      assert uids[..k] == uids;
    }
  }

  /** The reads change nothing but the call count; they all succeed exactly when
      the store serves one call per uid and every uid names a document, and then
      they yield the collection of the stored lists. */
  lemma {:induction false} ReadTokensSpec(db: Db, uids: seq<Uid>)
    ensures var r := ReadTokens(db, uids);
      && r.db == db.(available := r.db.available)
      && (r.ok <==> |uids| <= db.available && forall i :: 0 <= i < |uids| ==> ValidDocId(uids[i]))
      && (r.ok ==> r.collected == CollectFrom(db.users, uids) && r.db.available == db.available - |uids|)
  {
    if uids != [] {
      var n := |uids|;
      var init := uids[..n - 1];
      ReadTokensSpec(db, init);
      assert forall i :: 0 <= i < n - 1 ==> init[i] == uids[i];
    }
  }

  method CollectTokens(store: DocumentStore, uids: seq<Uid>) returns (ok: bool, tokens: seq<TokenEntry>, byUser: Obj<seq<TokenEntry>>)
    modifies store
    ensures Reading(ok, Collected(tokens, byUser), store.State()) == ReadTokens(old(store.State()), uids)
  {
    ghost var start := store.State();
    tokens, byUser := [], Empty();
    var i := 0;
    while i < |uids|
      invariant 0 <= i <= |uids|
      invariant ReadTokens(start, uids[..i]) == Reading(true, Collected(tokens, byUser), store.State())
    {
      var fcmTokens := store.ReadUserTokens(uids[i]);
      assert uids[..i + 1][..i] == uids[..i];
      if fcmTokens.None? {
        ReadTokensStops(start, uids, i + 1);
        return false, tokens, byUser;
      }
      if |fcmTokens.value| > 0 {
        tokens := tokens + fcmTokens.value;
        byUser := Put(byUser, uids[i], fcmTokens.value);
      }
      i := i + 1;
    }
    assert uids[..i] == uids;
    ok := true;
  }

  // ---------------------------------------------------------------------------
  // Fan-out

  /** The adapter call for one collected entry. */
  function DispatchRequest(e: TokenEntry, title: string, body: string, image: Img, notifId: string): SendRequest {
    SendRequest(Normalize(e), title, body, image, map[NOTIF_ID_KEY := notifId])
  }

  /** `results` and the transport calls made, in order. */
  datatype Fanned = Fanned(results: seq<SendOutcome>, calls: seq<Message>)

  function Fanout(entries: seq<TokenEntry>, title: string, body: string, image: Img, notifId: string,
                  transport: Message -> TransportResult): Fanned
    decreases |entries|
  {
    if entries == [] then Fanned([], [])
    else
      var prev := Fanout(entries[..|entries| - 1], title, body, image, notifId, transport);
      var a := Send(DispatchRequest(entries[|entries| - 1], title, body, image, notifId), transport);
      Fanned(prev.results + [a.outcome], prev.calls + a.calls)
  }

  /** One adapter call per entry, whatever the outcomes: `results[i]` is the
      outcome for `entries[i]` and carries its token. */
  lemma {:induction false} FanoutResults(entries: seq<TokenEntry>, title: string, body: string, image: Img,
                                         notifId: string, transport: Message -> TransportResult)
    ensures var f := Fanout(entries, title, body, image, notifId, transport);
      && |f.results| == |entries|
      && (forall i :: 0 <= i < |entries| ==>
            f.results[i] == Send(DispatchRequest(entries[i], title, body, image, notifId), transport).outcome)
      && (forall i :: 0 <= i < |entries| ==> f.results[i].token == Normalize(entries[i]))
  {
    if entries != [] {
      var n := |entries|;
      var init := entries[..n - 1];
      FanoutResults(init, title, body, image, notifId, transport);
      var prev := Fanout(init, title, body, image, notifId, transport);
      var a := Send(DispatchRequest(entries[n - 1], title, body, image, notifId), transport);
      assert Fanout(entries, title, body, image, notifId, transport) == Fanned(prev.results + [a.outcome], prev.calls + a.calls);
      forall i | 0 <= i < n
        ensures (prev.results + [a.outcome])[i] == Send(DispatchRequest(entries[i], title, body, image, notifId), transport).outcome
      {
        if i < n - 1 {
          assert init[i] == entries[i];
        }
      }
    }
  }

  /** The adapter call for one entry makes at most one transport call, and it
      carries the tracking id and the request's content. */
  lemma DispatchCall(entry: TokenEntry, title: string, body: string, image: Img,
                     notifId: string, transport: Message -> TransportResult)
    ensures var a := Send(DispatchRequest(entry, title, body, image, notifId), transport);
      && |a.calls| == (if AcceptsToken(Normalize(entry)) then 1 else 0)
      && Addressees(a.calls) == (if AcceptsToken(Normalize(entry)) then [Normalize(entry).s] else [])
      && (forall m :: m in a.calls ==> CarriesRequest(m, title, body, image, notifId))
  {
    DataPayloadOfNotifId(notifId);
    var a := Send(DispatchRequest(entry, title, body, image, notifId), transport);
    if a.calls != [] {
      assert a.calls[..0] == [];
    }
  }

  /** A transport call is made for exactly the entries that pass the guard, in
      order, addressed to their tokens; every call carries the tracking id and
      shows the request's content. */
  lemma {:induction false} FanoutCalls(entries: seq<TokenEntry>, title: string, body: string, image: Img,
                                       notifId: string, transport: Message -> TransportResult)
    ensures var f := Fanout(entries, title, body, image, notifId, transport);
      && |f.calls| == CountAccepted(entries)
      && Addressees(f.calls) == AcceptedTokens(entries)
      && (forall m :: m in f.calls ==> CarriesRequest(m, title, body, image, notifId))
  {
    if entries != [] {
      var n := |entries|;
      var init, last := entries[..n - 1], entries[n - 1];
      FanoutCalls(init, title, body, image, notifId, transport);
      CountAcceptedSnoc(init, last);
      assert entries == init + [last];
      var prev := Fanout(init, title, body, image, notifId, transport);
      var a := Send(DispatchRequest(last, title, body, image, notifId), transport);
      assert Fanout(entries, title, body, image, notifId, transport).calls == prev.calls + a.calls;
      DispatchCall(last, title, body, image, notifId, transport);
      AddresseesAppend(prev.calls, a.calls);
      CarryAppend(prev.calls, a.calls, title, body, image, notifId);
    }
  }

  lemma CarryAppend(a: seq<Message>, b: seq<Message>, title: string, body: string, image: Img, notifId: string)
    requires forall m :: m in a ==> CarriesRequest(m, title, body, image, notifId)
    requires forall m :: m in b ==> CarriesRequest(m, title, body, image, notifId)
    ensures forall m :: m in a + b ==> CarriesRequest(m, title, body, image, notifId)
  {
  }

  method SendToAll(entries: seq<TokenEntry>, title: string, body: string, image: Img, notifId: string,
                   transport: Message -> TransportResult) returns (results: seq<SendOutcome>, calls: seq<Message>)
    ensures Fanned(results, calls) == Fanout(entries, title, body, image, notifId, transport)
  {
    results, calls := [], [];
    for i := 0 to |entries|
      invariant Fanned(results, calls) == Fanout(entries[..i], title, body, image, notifId, transport)
    {
      var token := Normalize(entries[i]);
      var result := Send(SendRequest(token, title, body, image, map[NOTIF_ID_KEY := notifId]), transport);
      assert entries[..i + 1][..i] == entries[..i];
      results := results + [result.outcome];
      calls := calls + result.calls;
    }
    assert entries[..|entries|] == entries;
  }

  // ---------------------------------------------------------------------------
  // Classification of not-registered outcomes

  /** `t.token === token` */
  predicate Matches(e: TokenEntry, t: TokenValue) {
    StrictEquals(TokenProperty(e), t)
  }

  /** `toks.find(t => t.token === token)`, as the position of the element found. */
  function FirstMatch(toks: seq<TokenEntry>, t: TokenValue): (r: Option<nat>)
    ensures r.Some? ==> r.value < |toks| && Matches(toks[r.value], t)
    ensures r.Some? ==> forall j :: 0 <= j < r.value ==> !Matches(toks[j], t)
    ensures r.None? <==> forall j :: 0 <= j < |toks| ==> !Matches(toks[j], t)
  {
    if toks == [] then None
    else if Matches(toks[0], t) then Some(0)
    else match FirstMatch(toks[1..], t)
      case None => None
      case Some(j) => Some(j + 1)
  }

  /** The position a not-registered outcome for `t` flags in `toks`: the element
      found, provided it is truthy (`if (matched)`). */
  function FlagIn(toks: seq<TokenEntry>, t: TokenValue): Option<nat> {
    match FirstMatch(toks, t)
    case Some(p) => if EntryTruthy(toks[p]) then Some(p) else None
    case None => None
  }

  /** The inner loop over `Object.entries(userTokenMap)` for one not-registered outcome. */
  function ClassifyAt(inv: Obj<seq<nat>>, t: TokenValue, tmap: Obj<seq<TokenEntry>>, keys: seq<Uid>): Obj<seq<nat>>
    decreases |keys|
  {
    if keys == [] then inv
    else
      var acc := ClassifyAt(inv, t, tmap, keys[..|keys| - 1]);
      var uid := keys[|keys| - 1];
      match FlagIn(Get(tmap, uid, []), t)
      case Some(p) => Put(acc, uid, Get(acc, uid, []) + [p])
      case None => acc
  }

  /** `invalidTokensByUser`, holding positions into the users' lists. */
  function Classify(results: seq<SendOutcome>, tmap: Obj<seq<TokenEntry>>): Obj<seq<nat>>
    decreases |results|
  {
    if results == [] then Empty()
    else
      var prev := Classify(results[..|results| - 1], tmap);
      var r := results[|results| - 1];
      if NotRegistered(r) then ClassifyAt(prev, r.token, tmap, tmap.keys) else prev
  }

  /** What one outcome contributes to one user's list. */
  function FlagOne(r: SendOutcome, toks: seq<TokenEntry>): seq<nat> {
    if NotRegistered(r) then
      match FlagIn(toks, r.token)
      case Some(p) => [p]
      case None => []
    else []
  }

  /** Reference definition, per user: the positions the outcomes flag, in outcome order. */
  function Flagged(results: seq<SendOutcome>, toks: seq<TokenEntry>): seq<nat>
    decreases |results|
  {
    if results == [] then []
    else Flagged(results[..|results| - 1], toks) + FlagOne(results[|results| - 1], toks)
  }

  lemma {:induction false} ClassifyAtSpec(inv: Obj<seq<nat>>, t: TokenValue, tmap: Obj<seq<TokenEntry>>, keys: seq<Uid>)
    requires forall i, j :: 0 <= i < j < |keys| ==> keys[i] != keys[j]
    ensures var r := ClassifyAt(inv, t, tmap, keys);
      && (Wf(inv) ==> Wf(r))
      && (forall uid :: Get(r, uid, []) == Get(inv, uid, []) +
            (if uid in keys then match FlagIn(Get(tmap, uid, []), t) case Some(p) => [p] case None => [] else []))
      && (forall uid :: uid in r.entries <==> uid in inv.entries || (uid in keys && FlagIn(Get(tmap, uid, []), t).Some?))
  {
    if keys != [] {
      var init, last := keys[..|keys| - 1], keys[|keys| - 1];
      ClassifyAtSpec(inv, t, tmap, init);
      assert keys == init + [last];
      assert last !in init;
      var acc := ClassifyAt(inv, t, tmap, init);
      match FlagIn(Get(tmap, last, []), t)
      case Some(p) =>
        assert ClassifyAt(inv, t, tmap, keys) == Put(acc, last, Get(acc, last, []) + [p]);
      case None =>
        assert ClassifyAt(inv, t, tmap, keys) == acc;
    }
  }

  /** The nested loops, read per user: a user gets an entry exactly when it is in
      `userTokenMap` and some outcome flags one of its tokens, and the entry lists
      the flagged positions in outcome order. */
  lemma {:induction false} ClassifySpec(results: seq<SendOutcome>, tmap: Obj<seq<TokenEntry>>)
    requires Wf(tmap)
    ensures var inv := Classify(results, tmap);
      && Wf(inv)
      && (forall uid :: Get(inv, uid, []) == if uid in tmap.entries then Flagged(results, tmap.entries[uid]) else [])
      && (forall uid :: uid in inv.entries <==> uid in tmap.entries && Flagged(results, tmap.entries[uid]) != [])
  {
    if results != [] {
      var n := |results|;
      ClassifySpec(results[..n - 1], tmap);
      var r := results[n - 1];
      if NotRegistered(r) {
        ClassifyAtSpec(Classify(results[..n - 1], tmap), r.token, tmap, tmap.keys);
      }
    }
  }

  /** Every flagged position names a truthy element that a not-registered
      outcome's token matches; every such first match is flagged. */
  lemma {:induction false} FlaggedSpec(results: seq<SendOutcome>, toks: seq<TokenEntry>)
    ensures forall p :: p in Flagged(results, toks) ==>
      p < |toks| && EntryTruthy(toks[p]) && exists r :: r in results && NotRegistered(r) && Matches(toks[p], r.token)
    ensures forall r :: r in results && NotRegistered(r) && FlagIn(toks, r.token).Some? ==>
      FlagIn(toks, r.token).value in Flagged(results, toks)
  {
    if results != [] {
      var n := |results|;
      var init := results[..n - 1];
      FlaggedSpec(init, toks);
      assert results == init + [results[n - 1]];
    }
  }

  /** The outcomes a fan-out produces flag only object entries: a not-registered
      outcome carries a string token, and a bare string entry has no `token`. */
  lemma FlaggedAreRecords(results: seq<SendOutcome>, toks: seq<TokenEntry>)
    requires forall r :: r in results && NotRegistered(r) ==> r.token.Str?
    ensures forall p :: p in Flagged(results, toks) ==>
      p < |toks| && toks[p].Record? && exists r :: r in results && NotRegistered(r) && toks[p].token == r.token
  {
    FlaggedSpec(results, toks);
  }

  /** Token strings listed at most once in a user's list. */
  ghost predicate UniqueTokens(toks: seq<TokenEntry>) {
    forall i, j :: 0 <= i < j < |toks| && TokenProperty(toks[i]).Str? ==> TokenProperty(toks[i]) != TokenProperty(toks[j])
  }

  /** When a user's token strings are unique, the flagged positions are exactly
      the object entries whose token some outcome reported as not registered. */
  lemma EvictsExactlyNotRegistered(results: seq<SendOutcome>, toks: seq<TokenEntry>)
    requires UniqueTokens(toks)
    requires forall r :: r in results && NotRegistered(r) ==> r.token.Str?
    ensures forall i :: 0 <= i < |toks| ==>
      (i in Flagged(results, toks) <==>
         toks[i].Record? && exists r :: r in results && NotRegistered(r) && toks[i].token == r.token)
  {
    FlaggedSpec(results, toks);
    forall i | 0 <= i < |toks| && toks[i].Record? && (exists r :: r in results && NotRegistered(r) && toks[i].token == r.token)
      ensures i in Flagged(results, toks)
    {
      var r :| r in results && NotRegistered(r) && toks[i].token == r.token;
      assert Matches(toks[i], r.token);
      var q := FirstMatch(toks, r.token).value;
      assert q == i;
    }
  }

  method ClassifyInvalid(results: seq<SendOutcome>, tmap: Obj<seq<TokenEntry>>) returns (inv: Obj<seq<nat>>)
    ensures inv == Classify(results, tmap)
  {
    inv := Empty();
    for i := 0 to |results|
      invariant inv == Classify(results[..i], tmap)
    {
      var result := results[i];
      assert results[..i + 1][..i] == results[..i];
      if !result.success && result.errorCode == Some(NOT_REGISTERED) {
        ghost var before := inv;
        for j := 0 to |tmap.keys|
          invariant inv == ClassifyAt(before, result.token, tmap, tmap.keys[..j])
        {
          var uid := tmap.keys[j];
          var matched := FirstMatch(Get(tmap, uid, []), result.token);
          assert tmap.keys[..j + 1][..j] == tmap.keys[..j];
          if matched.Some? && EntryTruthy(Get(tmap, uid, [])[matched.value]) {
            inv := Put(inv, uid, Get(inv, uid, []) + [matched.value]);
          }
        }
        assert tmap.keys[..|tmap.keys|] == tmap.keys;
      }
    }
    assert results[..|results|] == results;
  }

  // ---------------------------------------------------------------------------
  // Pruning

  /** `toks.filter(t => !drop.includes(t))`, where `drop` names elements by position. */
  function Prune(toks: seq<TokenEntry>, drop: seq<nat>): seq<TokenEntry>
    decreases |toks|
  {
    if toks == [] then []
    else Prune(toks[..|toks| - 1], drop) + (if |toks| - 1 in drop then [] else [toks[|toks| - 1]])
  }

  /** The positions below `n` that are not in `drop`, ascending. */
  function Kept(n: nat, drop: seq<nat>): (idx: seq<nat>)
    ensures forall k :: 0 <= k < |idx| ==> idx[k] < n
    ensures forall k, l :: 0 <= k < l < |idx| ==> idx[k] < idx[l]
    ensures forall i :: 0 <= i < n ==> (i in idx <==> i !in drop)
  {
    if n == 0 then [] else Kept(n - 1, drop) + (if n - 1 in drop then [] else [n - 1])
  }

  /** The pruned list is the order-preserving subsequence of the snapshot at
      exactly the positions that were not flagged. */
  lemma {:induction false} PruneIsSubsequence(toks: seq<TokenEntry>, drop: seq<nat>)
    ensures var r, idx := Prune(toks, drop), Kept(|toks|, drop);
      |r| == |idx| && forall k :: 0 <= k < |r| ==> r[k] == toks[idx[k]]
  {
    if toks != [] {
      var n := |toks|;
      PruneIsSubsequence(toks[..n - 1], drop);
    }
  }

  /** `tokensToRemove`, the matched elements themselves, for the response. */
  function Pick(toks: seq<TokenEntry>, ps: seq<nat>): (r: seq<TokenEntry>)
    ensures (forall k :: 0 <= k < |ps| ==> ps[k] < |toks|) ==>
      |r| == |ps| && forall k :: 0 <= k < |ps| ==> r[k] == toks[ps[k]]
  {
    if ps == [] then []
    else (if ps[0] < |toks| then [toks[ps[0]]] else []) + Pick(toks, ps[1..])
  }

  /** `invalidTokensByUser` as the response shows it. */
  function Reported(inv: Obj<seq<nat>>, tmap: Obj<seq<TokenEntry>>): Obj<seq<TokenEntry>> {
    Obj(inv.keys, map uid | uid in inv.entries :: Pick(Get(tmap, uid, []), inv.entries[uid]))
  }

  /** The list written back for `uid`. */
  function Remaining(inv: Obj<seq<nat>>, tmap: Obj<seq<TokenEntry>>, uid: Uid): seq<TokenEntry> {
    Prune(Get(tmap, uid, []), Get(inv, uid, []))
  }

  /** The update loop over `Object.entries(invalidTokensByUser)`; it stops at the first failed write. */
  datatype Eviction = Eviction(ok: bool, db: Db)

  function EvictAll(db: Db, inv: Obj<seq<nat>>, tmap: Obj<seq<TokenEntry>>, keys: seq<Uid>): Eviction
    decreases |keys|
  {
    if keys == [] then Eviction(true, db)
    else
      var prev := EvictAll(db, inv, tmap, keys[..|keys| - 1]);
      if !prev.ok then prev
      else
        var uid := keys[|keys| - 1];
        var w := WriteUserTokens(prev.db, uid, Remaining(inv, tmap, uid));
        Eviction(w.value.Some?, w.db)
  }

  lemma {:induction false} EvictAllStops(db: Db, inv: Obj<seq<nat>>, tmap: Obj<seq<TokenEntry>>, keys: seq<Uid>, k: nat)
    requires k <= |keys| && !EvictAll(db, inv, tmap, keys[..k]).ok
    ensures EvictAll(db, inv, tmap, keys) == EvictAll(db, inv, tmap, keys[..k])
    decreases |keys| - k
  {
    if k < |keys| {
      var n := |keys|;
      assert keys[..n - 1][..k] == keys[..k];
      EvictAllStops(db, inv, tmap, keys[..n - 1], k);
    } else {
      assert keys[..k] == keys;
    }
  }

  /** Only the users in `keys` are rewritten, each to its pruned snapshot; the
      other collections stay as they were. All writes succeed exactly when the
      store serves one call per user, and after a failed write each user's list
      is either untouched or already pruned. */
  lemma {:induction false} EvictAllSpec(db: Db, inv: Obj<seq<nat>>, tmap: Obj<seq<TokenEntry>>, keys: seq<Uid>)
    requires forall uid :: uid in keys ==> uid in db.users
    ensures var e := EvictAll(db, inv, tmap, keys);
      && e.db == db.(users := e.db.users, available := e.db.available)
      && e.db.users.Keys == db.users.Keys
      && (forall uid :: uid in db.users && uid !in keys ==> e.db.users[uid] == db.users[uid])
      && (forall uid :: uid in db.users ==>
            e.db.users[uid] == db.users[uid] || e.db.users[uid] == Remaining(inv, tmap, uid))
      && (e.ok <==> |keys| <= db.available)
      && (e.ok ==> e.db.available == db.available - |keys|)
      && (e.ok ==> forall uid :: uid in keys ==> e.db.users[uid] == Remaining(inv, tmap, uid))
  {
    if keys != [] {
      var n := |keys|;
      var init := keys[..n - 1];
      var last := keys[n - 1];
      assert forall uid :: uid in init ==> uid in keys;
      EvictAllSpec(db, inv, tmap, init);
      assert keys == init + [last];
      var prev := EvictAll(db, inv, tmap, init);
      if prev.ok {
        assert last in prev.db.users;
        var w := WriteUserTokens(prev.db, last, Remaining(inv, tmap, last));
        assert EvictAll(db, inv, tmap, keys) == Eviction(w.value.Some?, w.db);
      } else {
        assert EvictAll(db, inv, tmap, keys) == prev;
      }
    }
  }

  method EvictInvalid(store: DocumentStore, inv: Obj<seq<nat>>, tmap: Obj<seq<TokenEntry>>) returns (ok: bool)
    modifies store
    ensures Eviction(ok, store.State()) == EvictAll(old(store.State()), inv, tmap, inv.keys)
  {
    ghost var start := store.State();
    var i := 0;
    while i < |inv.keys|
      invariant 0 <= i <= |inv.keys|
      invariant EvictAll(start, inv, tmap, inv.keys[..i]) == Eviction(true, store.State())
    {
      var uid := inv.keys[i];
      var remainingTokens := Prune(Get(tmap, uid, []), Get(inv, uid, []));
      var written := store.SetUserTokens(uid, remainingTokens);
      assert inv.keys[..i + 1][..i] == inv.keys[..i];
      if !written {
        EvictAllStops(start, inv, tmap, inv.keys, i + 1);
        return false;
      }
      i := i + 1;
    }
    assert inv.keys[..i] == inv.keys;
    ok := true;
  }

  // ---------------------------------------------------------------------------
  // The handler

  /** The response, the transport calls made, and the store afterwards. */
  datatype Handled = Handled(response: Response, calls: seq<Message>, db: Db)

  /** The tracking record, before the store gives it its id. */
  function TrackingRecord(req: Request, uids: seq<Uid>, now: int): NotificationRecord {
    NotificationRecord("", req.title, req.body, OrNull(req.imageUrl), MANUAL, Delivery(uids), now)
  }

  /** The handler as a function of the store, the request, the clock and the transport. */
  function Handle(db: Db, req: Request, now: int, transport: Message -> TransportResult): (h: Handled)
    ensures Malformed(req) <==> h.response.BadRequest?
    ensures h.response.BadRequest? ==> h.db == db && h.calls == [] && h.response.error == MISSING_FIELDS
    ensures h.response.ServerError? ==> h.response.error == SEND_FAILED
  {
    if Malformed(req) then Handled(BadRequest(MISSING_FIELDS), [], db)
    else
      var uids := req.userIds.value;
      var read := ReadTokens(db, uids);
      if !read.ok then Handled(ServerError(SEND_FAILED), [], read.db)
      else
        var added := AddNotification(read.db, TrackingRecord(req, uids, now));
        if added.value.None? then Handled(ServerError(SEND_FAILED), [], added.db)
        else Deliver(added.db, req, read.collected, added.value.value, transport)
  }

  /** The handler once the tracking record `notifId` is stored: the fan-out over
      the snapshot, the classification and the eviction. */
  function Deliver(db: Db, req: Request, collected: Collected, notifId: string,
                   transport: Message -> TransportResult): Handled
  {
    var tokens, byUser := collected.tokens, collected.byUser;
    var fan := Fanout(tokens, req.title, req.body, req.imageUrl, notifId, transport);
    var inv := Classify(fan.results, byUser);
    var ev := EvictAll(db, inv, byUser, inv.keys);
    if !ev.ok then Handled(ServerError(SEND_FAILED), fan.calls, ev.db)
    else Handled(Ok(|tokens|, Reported(inv, byUser), fan.results), fan.calls, ev.db)
  }

  /** `router.post('/send-notification', ...)` */
  method SendNotification(store: DocumentStore, req: Request, now: int, transport: Message -> TransportResult)
    returns (response: Response, calls: seq<Message>)
    modifies store
    ensures Handled(response, calls, store.State()) == Handle(old(store.State()), req, now, transport)
  {
    if req.userIds.None? || |req.userIds.value| == 0 || req.title == "" || req.body == "" {
      return BadRequest(MISSING_FIELDS), [];
    }
    var userIds := req.userIds.value;
    var ok, userTokens, userTokenMap := CollectTokens(store, userIds);
    if !ok {
      return ServerError(SEND_FAILED), [];
    }
    var delivery := Delivery(userIds);
    var notifId := store.AddNotificationRecord(
      NotificationRecord("", req.title, req.body, OrNull(req.imageUrl), MANUAL, delivery, now));
    if notifId.None? {
      return ServerError(SEND_FAILED), [];
    }
    var results;
    results, calls := SendToAll(userTokens, req.title, req.body, req.imageUrl, notifId.value, transport);
    var invalidTokensByUser := ClassifyInvalid(results, userTokenMap);
    var pruned := EvictInvalid(store, invalidTokensByUser, userTokenMap);
    if !pruned {
      return ServerError(SEND_FAILED), calls;
    }
    response := Ok(|userTokens|, Reported(invalidTokensByUser, userTokenMap), results);
  }
}

module AdminRoutesProperties {
  import opened Wrappers
  import opened JsValues
  import opened JsObjects
  import opened Fcm
  import opened DocStore
  import opened AdminRoutes

  /** Every not-registered outcome of a fan-out carries the string token it was sent to. */
  lemma FanoutNotRegisteredAreStrings(entries: seq<TokenEntry>, title: string, body: string, image: Img,
                                      notifId: string, transport: Message -> TransportResult)
    ensures forall r :: r in Fanout(entries, title, body, image, notifId, transport).results && NotRegistered(r) ==> r.token.Str?
  {
    var f := Fanout(entries, title, body, image, notifId, transport);
    FanoutResults(entries, title, body, image, notifId, transport);
    forall r | r in f.results && NotRegistered(r) ensures r.token.Str? {
      var i :| 0 <= i < |f.results| && f.results[i] == r;
      NotRegisteredReachedTransport(DispatchRequest(entries[i], title, body, image, notifId), transport);
    }
  }

  /** A user with no stored tokens has nothing flagged. */
  lemma FlaggedEmpty(results: seq<SendOutcome>)
    ensures Flagged(results, []) == []
  {
    FlaggedSpec(results, []);
    if Flagged(results, []) != [] {
      assert Flagged(results, [])[0] in Flagged(results, []);
    }
  }

  /** The facts about the phases of a request that got past validation and stored its record. */
  lemma PhasesSpec(db: Db, req: Request, now: int, transport: Message -> TransportResult)
    requires !Malformed(req)
    requires ReadTokens(db, req.userIds.value).ok
    ensures var read := ReadTokens(db, req.userIds.value);
      && |req.userIds.value| <= db.available
      && read.db == db.(available := db.available - |req.userIds.value|)
      && read.collected == CollectFrom(db.users, req.userIds.value)
      && read.collected.tokens == AllTokens(db.users, req.userIds.value)
      && Wf(read.collected.byUser)
      && (forall uid :: uid in read.collected.byUser.entries <==> uid in req.userIds.value && TokensOf(db.users, uid) != [])
      && (forall uid :: uid in read.collected.byUser.entries ==> uid in db.users && read.collected.byUser.entries[uid] == db.users[uid])
  {
    ReadTokensSpec(db, req.userIds.value);
    CollectFromSpec(db.users, req.userIds.value);
  }

  /** The tracking record holds the request's content, the `manual` kind, the
      request time and one unseen, unclicked entry per element of `uids`, in order. */
  lemma TrackingRecordSpec(req: Request, uids: seq<Uid>, now: int)
    ensures var r := TrackingRecord(req, uids, now);
      && r.title == req.title && r.body == req.body && r.imageUrl == OrNull(req.imageUrl)
      && r.kind == MANUAL && r.createdAt == now
      && |r.delivery| == |uids|
      && forall i :: 0 <= i < |uids| ==> r.delivery[i] == DeliveryEntry(uids[i], false, false, None, None)
  {
  }

  /** Nothing is sent before the tracking record exists: a request that makes any
      transport call has stored exactly one new record, under the next free id
      (which no earlier record of a valid store has, by `DocStore.NextIdFresh`),
      and every call carries that id as `notifId`. Reads and evictions leave the
      other collections alone. */
  lemma HandleRecordBeforeSends(db: Db, req: Request, now: int, transport: Message -> TransportResult)
    ensures var h := Handle(db, req, now, transport);
      var id := AutoId(|db.notifications|);
      h.calls != [] ==>
        && h.db.notifications == db.notifications + [TrackingRecord(req, req.userIds.value, now).(id := id)]
        && h.db.scheduled == db.scheduled && h.db.logs == db.logs
        && (forall m :: m in h.calls ==> CarriesRequest(m, req.title, req.body, req.imageUrl, id))
  {
    var h := Handle(db, req, now, transport);
    if h.calls != [] {
      HandleStoresRecord(db, req, now, transport);
      HandleDelivers(db, req, now, transport);
      PhasesSpec(db, req, now, transport);
      var read := ReadTokens(db, req.userIds.value);
      var added := AddNotification(read.db, TrackingRecord(req, req.userIds.value, now));
      DeliverCalls(added.db, req, read.collected, added.value.value, transport);
    }
  }

  /** A request that succeeds or reaches the transport has stored exactly its
      tracking record, under the next free id, and left the scheduled
      documents and the logs alone. */
  lemma HandleStoresRecord(db: Db, req: Request, now: int, transport: Message -> TransportResult)
    requires Handle(db, req, now, transport).calls != [] || Handle(db, req, now, transport).response.Ok?
    ensures var h := Handle(db, req, now, transport);
      && h.db.notifications == db.notifications + [TrackingRecord(req, req.userIds.value, now).(id := AutoId(|db.notifications|))]
      && h.db.scheduled == db.scheduled && h.db.logs == db.logs
  {
    HandleDelivers(db, req, now, transport);
    var uids := req.userIds.value;
    var read := ReadTokens(db, uids);
    PhasesSpec(db, req, now, transport);
    var added := AddNotification(read.db, TrackingRecord(req, uids, now));
    DeliverKeepsRest(added.db, req, read.collected, added.value.value, transport);
  }

  /** A request that succeeds or reaches the transport has passed validation,
      read every user and stored its tracking record, and is then the delivery. */
  lemma HandleDelivers(db: Db, req: Request, now: int, transport: Message -> TransportResult)
    requires Handle(db, req, now, transport).calls != [] || Handle(db, req, now, transport).response.Ok?
    ensures !Malformed(req)
    ensures var read := ReadTokens(db, req.userIds.value);
      var added := AddNotification(read.db, TrackingRecord(req, req.userIds.value, now));
      && read.ok && added.value.Some?
      && Handle(db, req, now, transport) == Deliver(added.db, req, read.collected, added.value.value, transport)
  {
  }

  /** A successful request sends once per collected token, reports one outcome
      per token in order and counts every token as sent whatever its outcome;
      it adds exactly the tracking record. */
  lemma HandleOkSends(db: Db, req: Request, now: int, transport: Message -> TransportResult)
    requires Handle(db, req, now, transport).response.Ok?
    ensures var h := Handle(db, req, now, transport);
      var snapshot := AllTokens(db.users, req.userIds.value);
      var id := AutoId(|db.notifications|);
      && !Malformed(req)
      && h.response.tokensSent == |snapshot| == |h.response.results|
      && (forall i :: 0 <= i < |snapshot| ==>
            h.response.results[i] == Send(DispatchRequest(snapshot[i], req.title, req.body, req.imageUrl, id), transport).outcome)
      && |h.calls| == CountAccepted(snapshot)
      && Addressees(h.calls) == AcceptedTokens(snapshot)
      && (forall m :: m in h.calls ==> CarriesRequest(m, req.title, req.body, req.imageUrl, id))
      && h.db.notifications == db.notifications + [TrackingRecord(req, req.userIds.value, now).(id := id)]
      && h.db.scheduled == db.scheduled && h.db.logs == db.logs
  {
    var uids := req.userIds.value;
    PhasesSpec(db, req, now, transport);
    var read := ReadTokens(db, uids);
    var added := AddNotification(read.db, TrackingRecord(req, uids, now));
    var id := added.value.value;
    var tokens, byUser := read.collected.tokens, read.collected.byUser;
    FanoutResults(tokens, req.title, req.body, req.imageUrl, id, transport);
    FanoutCalls(tokens, req.title, req.body, req.imageUrl, id, transport);
    var fan := Fanout(tokens, req.title, req.body, req.imageUrl, id, transport);
    var inv := Classify(fan.results, byUser);
    ClassifySpec(fan.results, byUser);
    EvictAllSpec(added.db, inv, byUser, inv.keys);
  }

  /** `after` is `before` with every user of `uids` that has a flagged element
      rewritten to its list without the flagged elements. */
  ghost predicate PrunedPerUser(before: map<Uid, seq<TokenEntry>>, after: map<Uid, seq<TokenEntry>>,
                                uids: seq<Uid>, results: seq<SendOutcome>) {
    && after.Keys == before.Keys
    && forall uid :: uid in before ==>
         after[uid] == if uid in uids && Flagged(results, before[uid]) != []
                       then Prune(before[uid], Flagged(results, before[uid]))
                       else before[uid]
  }

  /** `report` lists, for exactly the users of `uids` with a flagged element,
      the flagged elements of their stored list. */
  ghost predicate ReportsFlagged(report: Obj<seq<TokenEntry>>, users: map<Uid, seq<TokenEntry>>,
                                 uids: seq<Uid>, results: seq<SendOutcome>) {
    && (forall uid :: uid in report.entries <==>
          uid in uids && uid in users && Flagged(results, users[uid]) != [])
    && (forall uid :: uid in report.entries ==>
          report.entries[uid] == Pick(users[uid], Flagged(results, users[uid])))
  }

  /** The snapshot map of the stored lists of `uids`. */
  ghost predicate SnapshotOf(tmap: Obj<seq<TokenEntry>>, users: map<Uid, seq<TokenEntry>>, uids: seq<Uid>) {
    && Wf(tmap)
    && (forall uid :: uid in tmap.entries <==> uid in uids && TokensOf(users, uid) != [])
    && (forall uid :: uid in tmap.entries ==> uid in users && tmap.entries[uid] == users[uid])
  }

  /** Every element `report` lists for a user is an object entry of that
      user's stored list whose token some outcome reported as not registered. */
  ghost predicate OnlyNotRegistered(report: Obj<seq<TokenEntry>>, users: map<Uid, seq<TokenEntry>>,
                                    results: seq<SendOutcome>) {
    forall uid :: uid in report.entries ==> uid in users && RefusedEntries(report.entries[uid], users[uid], results)
  }

  /** Every element of `listed` is an object entry of `stored` whose token some
      outcome reported as not registered. */
  ghost predicate RefusedEntries(listed: seq<TokenEntry>, stored: seq<TokenEntry>, results: seq<SendOutcome>) {
    forall t :: t in listed ==> t.Record? && t in stored && RefusedAsUnregistered(results, t.token)
  }

  /** Some outcome reported `tok` as not registered. */
  ghost predicate RefusedAsUnregistered(results: seq<SendOutcome>, tok: TokenValue) {
    exists r :: r in results && NotRegistered(r) && r.token == tok
  }

  /** Flagged elements of a stored list are object entries of it whose token came back as not registered. */
  lemma ReportedAreNotRegistered(report: Obj<seq<TokenEntry>>, users: map<Uid, seq<TokenEntry>>,
                                 uids: seq<Uid>, results: seq<SendOutcome>)
    requires ReportsFlagged(report, users, uids, results)
    requires forall r :: r in results && NotRegistered(r) ==> r.token.Str?
    ensures OnlyNotRegistered(report, users, results)
  {
    forall uid | uid in report.entries
      ensures uid in users && RefusedEntries(report.entries[uid], users[uid], results)
    {
      assert uid in users && report.entries[uid] == Pick(users[uid], Flagged(results, users[uid]));
      PickedAreNotRegistered(results, users[uid]);
    }
  }

  /** The elements picked at the flagged positions of a list are object entries
      of that list whose token some outcome reported as not registered. */
  lemma PickedAreNotRegistered(results: seq<SendOutcome>, toks: seq<TokenEntry>)
    requires forall r :: r in results && NotRegistered(r) ==> r.token.Str?
    ensures RefusedEntries(Pick(toks, Flagged(results, toks)), toks, results)
  {
    var ps := Flagged(results, toks);
    FlaggedAreRecords(results, toks);
    assert forall k :: 0 <= k < |ps| ==> ps[k] in ps;
    forall t | t in Pick(toks, ps)
      ensures t.Record? && t in toks && RefusedAsUnregistered(results, t.token)
    {
      var k :| 0 <= k < |ps| && Pick(toks, ps)[k] == t;
      assert ps[k] in ps;
    }
  }

  /** The report over a snapshot lists the flagged elements per user. */
  lemma ReportOfSnapshot(users: map<Uid, seq<TokenEntry>>, uids: seq<Uid>, results: seq<SendOutcome>,
                         tmap: Obj<seq<TokenEntry>>)
    requires SnapshotOf(tmap, users, uids)
    ensures ReportsFlagged(Reported(Classify(results, tmap), tmap), users, uids, results)
  {
    ClassifySpec(results, tmap);
    FlaggedEmpty(results);
  }

  /** When every write succeeds, the eviction over a snapshot prunes exactly the users with a flagged element. */
  lemma EvictionOfSnapshot(db: Db, uids: seq<Uid>, results: seq<SendOutcome>, tmap: Obj<seq<TokenEntry>>)
    requires SnapshotOf(tmap, db.users, uids)
    requires var inv := Classify(results, tmap); EvictAll(db, inv, tmap, inv.keys).ok
    ensures var inv := Classify(results, tmap);
      PrunedPerUser(db.users, EvictAll(db, inv, tmap, inv.keys).db.users, uids, results)
  {
    var inv := Classify(results, tmap);
    ClassifySpec(results, tmap);
    assert forall uid :: uid in inv.keys ==> uid in db.users;
    EvictAllSpec(db, inv, tmap, inv.keys);
    var users := EvictAll(db, inv, tmap, inv.keys).db.users;
    FlaggedEmpty(results);
    forall uid | uid in db.users
      ensures users[uid] == if uid in uids && Flagged(results, db.users[uid]) != []
                            then Prune(db.users[uid], Flagged(results, db.users[uid]))
                            else db.users[uid]
    {
      if uid in inv.keys {
        assert uid in tmap.entries && tmap.entries[uid] == db.users[uid];
        assert users[uid] == Remaining(inv, tmap, uid);
      } else {
        assert users[uid] == db.users[uid];
        assert !(uid in uids && Flagged(results, db.users[uid]) != []) by {
          if uid in uids && db.users[uid] != [] {
            assert uid in tmap.entries && tmap.entries[uid] == db.users[uid];
          }
        }
      }
    }
  }

  /** A successful request rewrites exactly the users with a flagged token, each
      to its stored list without the flagged elements, and leaves every other
      user's list as it was. */
  lemma HandleOkPrunes(db: Db, req: Request, now: int, transport: Message -> TransportResult)
    requires Handle(db, req, now, transport).response.Ok?
    ensures var h := Handle(db, req, now, transport);
      PrunedPerUser(db.users, h.db.users, req.userIds.value, h.response.results)
  {
    var uids := req.userIds.value;
    PhasesSpec(db, req, now, transport);
    var read := ReadTokens(db, uids);
    var added := AddNotification(read.db, TrackingRecord(req, uids, now));
    var tokens, byUser := read.collected.tokens, read.collected.byUser;
    var fan := Fanout(tokens, req.title, req.body, req.imageUrl, added.value.value, transport);
    assert added.db.users == db.users;
    assert SnapshotOf(byUser, db.users, uids);
    EvictionOfSnapshot(added.db, uids, fan.results, byUser);
  }

  /** The response of a successful request lists, per user with a flagged
      token, the flagged elements of that user's stored list. */
  lemma HandleOkReports(db: Db, req: Request, now: int, transport: Message -> TransportResult)
    requires Handle(db, req, now, transport).response.Ok?
    ensures var h := Handle(db, req, now, transport);
      ReportsFlagged(h.response.invalidTokens, db.users, req.userIds.value, h.response.results)
  {
    var uids := req.userIds.value;
    PhasesSpec(db, req, now, transport);
    var read := ReadTokens(db, uids);
    var added := AddNotification(read.db, TrackingRecord(req, uids, now));
    var tokens, byUser := read.collected.tokens, read.collected.byUser;
    var fan := Fanout(tokens, req.title, req.body, req.imageUrl, added.value.value, transport);
    assert SnapshotOf(byUser, db.users, uids);
    ReportOfSnapshot(db.users, uids, fan.results, byUser);
  }

  /** Every not-registered outcome in a successful response carries a string token. */
  lemma HandleOkNotRegisteredAreStrings(db: Db, req: Request, now: int, transport: Message -> TransportResult)
    requires Handle(db, req, now, transport).response.Ok?
    ensures var results := Handle(db, req, now, transport).response.results;
      forall r :: r in results && NotRegistered(r) ==> r.token.Str?
  {
    var uids := req.userIds.value;
    PhasesSpec(db, req, now, transport);
    var read := ReadTokens(db, uids);
    var added := AddNotification(read.db, TrackingRecord(req, uids, now));
    var tokens := read.collected.tokens;
    FanoutNotRegisteredAreStrings(tokens, req.title, req.body, req.imageUrl, added.value.value, transport);
  }

  /** Every element reported as invalid is an object entry of that user's stored
      list whose token came back as not registered. */
  lemma HandleOkReportsOnlyNotRegistered(db: Db, req: Request, now: int, transport: Message -> TransportResult)
    requires Handle(db, req, now, transport).response.Ok?
    ensures var h := Handle(db, req, now, transport);
      OnlyNotRegistered(h.response.invalidTokens, db.users, h.response.results)
  {
    var h := Handle(db, req, now, transport);
    HandleOkReports(db, req, now, transport);
    HandleOkNotRegisteredAreStrings(db, req, now, transport);
    ReportedAreNotRegistered(h.response.invalidTokens, db.users, req.userIds.value, h.response.results);
  }

  /** Once the record is stored, the handler changes only the users and the call count. */
  lemma DeliverKeepsRest(db: Db, req: Request, collected: Collected, notifId: string,
                         transport: Message -> TransportResult)
    requires Wf(collected.byUser)
    requires forall uid :: uid in collected.byUser.entries ==> uid in db.users
    ensures var d := Deliver(db, req, collected, notifId, transport);
      d.db == db.(users := d.db.users, available := d.db.available)
  {
    var byUser := collected.byUser;
    var fan := Fanout(collected.tokens, req.title, req.body, req.imageUrl, notifId, transport);
    var inv := Classify(fan.results, byUser);
    ClassifySpec(fan.results, byUser);
    EvictAllSpec(db, inv, byUser, inv.keys);
  }

  /** The delivery makes one transport call per accepted token, in order,
      addressed to it, and every call carries the tracking id and the request's content. */
  lemma DeliverCalls(db: Db, req: Request, collected: Collected, notifId: string,
                     transport: Message -> TransportResult)
    ensures var d := Deliver(db, req, collected, notifId, transport);
      && |d.calls| == CountAccepted(collected.tokens)
      && Addressees(d.calls) == AcceptedTokens(collected.tokens)
      && (forall m :: m in d.calls ==> CarriesRequest(m, req.title, req.body, req.imageUrl, notifId))
  {
    FanoutCalls(collected.tokens, req.title, req.body, req.imageUrl, notifId, transport);
  }

  /** The handler keeps the store's invariant, on every path. */
  lemma HandlePreservesValid(db: Db, req: Request, now: int, transport: Message -> TransportResult)
    requires DbValid(db)
    ensures DbValid(Handle(db, req, now, transport).db)
  {
    if !Malformed(req) {
      var uids := req.userIds.value;
      ReadTokensSpec(db, uids);
      var read := ReadTokens(db, uids);
      if read.ok {
        CollectFromSpec(db.users, uids);
        var added := AddNotification(read.db, TrackingRecord(req, uids, now));
        assert DbValid(read.db);
        if added.value.Some? {
          DeliverKeepsRest(added.db, req, read.collected, added.value.value, transport);
          var d := Deliver(added.db, req, read.collected, added.value.value, transport);
          DbValidIgnoresUsers(added.db, d.db);
          assert Handle(db, req, now, transport).db == d.db;
        }
      }
    }
  }

  /** The store's invariant does not depend on the users or the call count. */
  lemma DbValidIgnoresUsers(a: Db, b: Db)
    requires DbValid(a)
    requires b == a.(users := b.users, available := b.available)
    ensures DbValid(b)
  {
  }

  /** Sending the same request twice stores two records with the same content
      and delivery list under two different ids. */
  lemma DispatchTwice(db: Db, req: Request, now1: int, now2: int, transport: Message -> TransportResult)
    requires Handle(db, req, now1, transport).response.Ok?
    requires Handle(Handle(db, req, now1, transport).db, req, now2, transport).response.Ok?
    ensures var h1 := Handle(db, req, now1, transport);
      var h2 := Handle(h1.db, req, now2, transport);
      var n := |db.notifications|;
      && |h2.db.notifications| == n + 2
      && h2.db.notifications[..n] == db.notifications
      && h2.db.notifications[n].id != h2.db.notifications[n + 1].id
      && h2.db.notifications[n].delivery == h2.db.notifications[n + 1].delivery == Delivery(req.userIds.value)
      && h2.db.notifications[n].(id := "", createdAt := 0) == h2.db.notifications[n + 1].(id := "", createdAt := 0)
  {
    var h1 := Handle(db, req, now1, transport);
    var n := |db.notifications|;
    HandleStoresRecord(db, req, now1, transport);
    HandleStoresRecord(h1.db, req, now2, transport);
    AutoIdInjective(n, n + 1);
  }

  lemma {:induction false} DistinctCard(keys: seq<Uid>)
    requires forall i, j :: 0 <= i < j < |keys| ==> keys[i] != keys[j]
    ensures |set k | k in keys| == |keys|
  {
    if keys != [] {
      DistinctCard(keys[1..]);
      assert (set k | k in keys) == {keys[0]} + (set k | k in keys[1..]);
      assert keys[0] !in (set k | k in keys[1..]);
    }
  }

  lemma {:induction false} CardAtMost(uids: seq<Uid>)
    ensures |set u | u in uids| <= |uids|
  {
    if uids != [] {
      CardAtMost(uids[1..]);
      assert (set u | u in uids) == {uids[0]} + (set u | u in uids[1..]);
    }
  }

  /** Listed once each, users of `uids` are no more than `uids`. */
  lemma DistinctWithin(keys: seq<Uid>, uids: seq<Uid>)
    requires forall i, j :: 0 <= i < j < |keys| ==> keys[i] != keys[j]
    requires forall k :: k in keys ==> k in uids
    ensures |keys| <= |uids|
  {
    DistinctCard(keys);
    CardAtMost(uids);
    var a, b := set k | k in keys, set u | u in uids;
    assert a <= b;
    SubsetCard(a, b);
  }

  lemma {:induction false} SubsetCard(a: set<Uid>, b: set<Uid>)
    requires a <= b
    ensures |a| <= |b|
    decreases |a|
  {
    if a != {} {
      var x :| x in a;
      SubsetCard(a - {x}, b - {x});
    }
  }

  /** Send failures never fail a request: a well-formed request naming valid
      user ids succeeds whatever the provider answers, once the store serves
      the reads, the record and one write per user. */
  lemma HandleSucceedsWhenServed(db: Db, req: Request, now: int, transport: Message -> TransportResult)
    requires !Malformed(req)
    requires forall i :: 0 <= i < |req.userIds.value| ==> ValidDocId(req.userIds.value[i])
    requires 2 * |req.userIds.value| + 1 <= db.available
    ensures Handle(db, req, now, transport).response.Ok?
  {
    var uids := req.userIds.value;
    ReadTokensSpec(db, uids);
    PhasesSpec(db, req, now, transport);
    var read := ReadTokens(db, uids);
    var added := AddNotification(read.db, TrackingRecord(req, uids, now));
    var byUser := read.collected.byUser;
    var fan := Fanout(read.collected.tokens, req.title, req.body, req.imageUrl, added.value.value, transport);
    var inv := Classify(fan.results, byUser);
    ClassifySpec(fan.results, byUser);
    DistinctWithin(inv.keys, uids);
    EvictAllSpec(added.db, inv, byUser, inv.keys);
    assert Handle(db, req, now, transport) == Deliver(added.db, req, read.collected, added.value.value, transport);
  }

  /** The users whose lists a well-formed request rewrites: the requested users
      holding a token the provider refused as not registered, in the order of
      `Object.entries(invalidTokensByUser)`. */
  function EvictedUsers(db: Db, req: Request, transport: Message -> TransportResult): seq<Uid>
    requires req.userIds.Some?
  {
    var collected := CollectFrom(db.users, req.userIds.value);
    var fan := Fanout(collected.tokens, req.title, req.body, req.imageUrl, AutoId(|db.notifications|), transport);
    Classify(fan.results, collected.byUser).keys
  }

  /** A request is answered 200 exactly when it is well formed, names valid
      user ids, and the store serves one read per user id, the tracking record
      and one write per user with an evicted token. */
  lemma HandleOkIff(db: Db, req: Request, now: int, transport: Message -> TransportResult)
    ensures Handle(db, req, now, transport).response.Ok? <==>
      && !Malformed(req)
      && (forall i :: 0 <= i < |req.userIds.value| ==> ValidDocId(req.userIds.value[i]))
      && |req.userIds.value| + 1 + |EvictedUsers(db, req, transport)| <= db.available
  {
    if !Malformed(req) {
      var uids := req.userIds.value;
      ReadTokensSpec(db, uids);
      var read := ReadTokens(db, uids);
      if read.ok {
        PhasesSpec(db, req, now, transport);
        var added := AddNotification(read.db, TrackingRecord(req, uids, now));
        if added.value.Some? {
          var byUser := read.collected.byUser;
          var fan := Fanout(read.collected.tokens, req.title, req.body, req.imageUrl, added.value.value, transport);
          var inv := Classify(fan.results, byUser);
          ClassifySpec(fan.results, byUser);
          assert inv.keys == EvictedUsers(db, req, transport);
          assert forall uid :: uid in inv.keys ==> uid in added.db.users;
          EvictAllSpec(added.db, inv, byUser, inv.keys);
          assert Handle(db, req, now, transport) == Deliver(added.db, req, read.collected, added.value.value, transport);
        }
      }
    }
  }

  /** A two-character token that does not start with white space passes the adapter's guard. */
  lemma ShortTokenAccepted(s: string)
    requires |s| == 2 && !IsJsSpace(s[0])
    ensures AcceptsToken(Str(s))
  {
    AcceptsTokenIff(Str(s));
    assert s[0] in s;
  }

  /** The outcomes of the example, flagged per user. */
  lemma ExampleFlags(results: seq<SendOutcome>)
    requires |results| == 3 && results[1].token == Str("t2")
    requires !NotRegistered(results[0]) && NotRegistered(results[1]) && !NotRegistered(results[2])
    ensures Flagged(results, [Record(Str("t1"), "android"), Record(Str("t2"), "ios")]) == [1]
    ensures Flagged(results, [Record(Str("t3"), "web")]) == []
  {
    var u1 := [Record(Str("t1"), "android"), Record(Str("t2"), "ios")];
    var u2 := [Record(Str("t3"), "web")];
    assert results[..2][..1] == results[..1];
    assert FlagIn(u1, Str("t2")) == Some(1);
    assert FlagIn(u2, Str("t2")) == None;
    assert Flagged(results[..1], u1) == [] && Flagged(results[..1], u2) == [];
    assert Flagged(results[..2], u1) == [1] && Flagged(results[..2], u2) == [];
  }

  /** The provider of the example: t2 is not registered, every other token is delivered. */
  function ExampleTransport(m: Message): TransportResult {
    if m.token == "t2" then Failed(Some(NOT_REGISTERED)) else Delivered("ok")
  }

  /** One send of the example. */
  lemma ExampleSend(s: string, platform: string, notifId: string)
    requires |s| == 2 && !IsJsSpace(s[0])
    ensures var o := Send(DispatchRequest(Record(Str(s), platform), "Sale", "50% off", Absent, notifId), ExampleTransport).outcome;
      o.token == Str(s) && (NotRegistered(o) <==> s == "t2")
  {
    ShortTokenAccepted(s);
  }

  /** The store of the example. */
  function ExampleDb(): Db {
    Db(map["u1" := [Record(Str("t1"), "android"), Record(Str("t2"), "ios")], "u2" := [Record(Str("t3"), "web")]],
       [], [], [], 10)
  }

  /** The request of the example. */
  function ExampleRequest(): Request {
    Request(Some(["u1", "u2"]), "Sale", "50% off", Absent)
  }

  /** The example's reads succeed and collect the three tokens. */
  lemma ExampleReads()
    ensures var read := ReadTokens(ExampleDb(), ["u1", "u2"]);
      && read.ok
      && read.collected.tokens == [Record(Str("t1"), "android"), Record(Str("t2"), "ios"), Record(Str("t3"), "web")]
      && AllTokens(ExampleDb().users, ["u1", "u2"]) == read.collected.tokens
      && SnapshotOf(read.collected.byUser, ExampleDb().users, ["u1", "u2"])
      && read.db == ExampleDb().(available := 8)
  {
    PhasesSpec(ExampleDb(), ExampleRequest(), 0, ExampleTransport);
    assert AllTokens(ExampleDb().users, ["u1", "u2"]) == [Record(Str("t1"), "android"), Record(Str("t2"), "ios"), Record(Str("t3"), "web")];
  }

  /** The outcomes of the example's three sends. */
  lemma ExampleResults(results: seq<SendOutcome>, snapshot: seq<TokenEntry>, id: string)
    requires snapshot == [Record(Str("t1"), "android"), Record(Str("t2"), "ios"), Record(Str("t3"), "web")]
    requires |results| == 3
    requires forall i :: 0 <= i < 3 ==>
      results[i] == Send(DispatchRequest(snapshot[i], "Sale", "50% off", Absent, id), ExampleTransport).outcome
    ensures results[1].token == Str("t2")
    ensures !NotRegistered(results[0]) && NotRegistered(results[1]) && !NotRegistered(results[2])
  {
    ExampleSend("t1", "android", id);
    ExampleSend("t2", "ios", id);
    ExampleSend("t3", "web", id);
  }

  /** The broadcast example: u1 holds t1 and t2, u2 holds t3, and the provider
      reports t2 as not registered; the request succeeds and counts three sends. */
  lemma BroadcastExample()
    ensures var h := Handle(ExampleDb(), ExampleRequest(), 0, ExampleTransport);
      && h.response.Ok?
      && h.response.tokensSent == 3
      && |h.response.results| == 3 && h.response.results[1].token == Str("t2")
      && !NotRegistered(h.response.results[0]) && NotRegistered(h.response.results[1])
      && !NotRegistered(h.response.results[2])
  {
    var db, req := ExampleDb(), ExampleRequest();
    HandleSucceedsWhenServed(db, req, 0, ExampleTransport);
    HandleOkSends(db, req, 0, ExampleTransport);
    ExampleReads();
    var h := Handle(db, req, 0, ExampleTransport);
    ExampleResults(h.response.results, AllTokens(db.users, req.userIds.value), AutoId(0));
  }

  /** The example's flags, pruned and picked. */
  lemma ExamplePruned()
    ensures Prune([Record(Str("t1"), "android"), Record(Str("t2"), "ios")], [1]) == [Record(Str("t1"), "android")]
    ensures Pick([Record(Str("t1"), "android"), Record(Str("t2"), "ios")], [1]) == [Record(Str("t2"), "ios")]
  {
  }

  /** Two users, of whom only `a` has a flagged element: only `a`'s list is rewritten. */
  lemma PrunedOfTwo(before: map<Uid, seq<TokenEntry>>, after: map<Uid, seq<TokenEntry>>, a: Uid, b: Uid,
                    results: seq<SendOutcome>)
    requires before.Keys == {a, b} && a != b
    requires Flagged(results, before[a]) != [] && Flagged(results, before[b]) == []
    requires PrunedPerUser(before, after, [a, b], results)
    ensures after == map[a := Prune(before[a], Flagged(results, before[a])), b := before[b]]
  {
    assert a in before && a in [a, b] && b in before;
    MapOfTwo(after, a, b, Prune(before[a], Flagged(results, before[a])), before[b]);
  }

  lemma MapOfTwo<V>(m: map<Uid, V>, a: Uid, b: Uid, va: V, vb: V)
    requires m.Keys == {a, b} && a != b && m[a] == va && m[b] == vb
    ensures m == map[a := va, b := vb]
  {
  }

  /** Two users, of whom only `a` has a flagged element: only `a` is reported. */
  lemma ReportOfTwo(report: Obj<seq<TokenEntry>>, users: map<Uid, seq<TokenEntry>>, a: Uid, b: Uid,
                    results: seq<SendOutcome>)
    requires users.Keys == {a, b} && a != b
    requires Flagged(results, users[a]) != [] && Flagged(results, users[b]) == []
    requires ReportsFlagged(report, users, [a, b], results)
    ensures report.entries == map[a := Pick(users[a], Flagged(results, users[a]))]
  {
    assert a in users && a in [a, b];
    assert a in report.entries && b !in report.entries;
    assert report.entries.Keys == {a};
    MapOfOne(report.entries, a, Pick(users[a], Flagged(results, users[a])));
  }

  lemma MapOfOne<V>(m: map<Uid, V>, a: Uid, va: V)
    requires m.Keys == {a} && m[a] == va
    ensures m == map[a := va]
  {
  }

  /** The per-user facts of the example: only u1's t2 is flagged. */
  lemma ExampleUsers(results: seq<SendOutcome>)
    requires |results| == 3 && results[1].token == Str("t2")
    requires !NotRegistered(results[0]) && NotRegistered(results[1]) && !NotRegistered(results[2])
    ensures var users := ExampleDb().users;
      && users.Keys == {"u1", "u2"} && "u1" != "u2"
      && Flagged(results, users["u1"]) == [1] && Flagged(results, users["u2"]) == []
      && Prune(users["u1"], [1]) == [Record(Str("t1"), "android")]
      && Pick(users["u1"], [1]) == [Record(Str("t2"), "ios")]
      && users["u2"] == [Record(Str("t3"), "web")]
  {
    assert "u1" != "u2" by {
      assert "u1"[1] != "u2"[1];
    }
    var users := ExampleDb().users;
    assert users["u1"] == [Record(Str("t1"), "android"), Record(Str("t2"), "ios")];
    assert users["u2"] == [Record(Str("t3"), "web")];
    ExampleFlags(results);
    ExamplePruned();
  }

  /** In the broadcast example t2 is reported and removed from u1, and u2 keeps its token. */
  lemma BroadcastExampleEviction()
    ensures var h := Handle(ExampleDb(), ExampleRequest(), 0, ExampleTransport);
      && h.response.Ok?
      && h.response.invalidTokens.entries == map["u1" := [Record(Str("t2"), "ios")]]
      && h.db.users == map["u1" := [Record(Str("t1"), "android")], "u2" := [Record(Str("t3"), "web")]]
  {
    var db, req := ExampleDb(), ExampleRequest();
    var h := Handle(db, req, 0, ExampleTransport);
    BroadcastExample();
    HandleOkPrunes(db, req, 0, ExampleTransport);
    HandleOkReports(db, req, 0, ExampleTransport);
    var users := db.users;
    ExampleUsers(h.response.results);
    PrunedOfTwo(users, h.db.users, "u1", "u2", h.response.results);
    ReportOfTwo(h.response.invalidTokens, users, "u1", "u2", h.response.results);
  }
}
