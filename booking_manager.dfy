/** The per-session state of the web front end: whether the user is logged
    in, the QR code being shown, the last status the poller saw, and the
    booking's `ticket_info`; saved to and restored from the session store,
    and the poll loop that follows a QR code until the phone answers. */
module WebSession {
  import opened Common
  import opened SessionStore

  // -----------------------------------------------------------------------
  // The saved record

  /** The JSON object `save_session` writes. */
  function SessionRecord(loginStatus: Json, currentQrUuid: Json, ticketInfo: Json): Json {
    JObject(map["login_status" := loginStatus, "current_qr_uuid" := currentQrUuid, "ticket_info" := ticketInfo])
  }

  /** The three fields `load_session` assigns. */
  datatype Restored = Restored(loginStatus: Json, currentQrUuid: Json, ticketInfo: Json)

  /** `data.get(key, default)` */
  function FieldOr(fields: map<string, Json>, key: string, default: Json): (v: Json)
    ensures key in fields ==> v == fields[key]
    ensures key !in fields ==> v == default
  {
    if key in fields then fields[key] else default
  }

  /** What `load_session` restores from what `get` returned, or `None` when
      it returns false: no entry, an empty text, text that is not JSON, or a
      JSON value other than an object (whose `.get` raises).  Missing fields
      read as `False`, `None` and `{}`. */
  function Restore(stored: Option<Stored>): (r: Option<Restored>)
    ensures r.Some? <==> stored.Some? && stored.value.Decoded? && stored.value.value.JObject?
  {
    match stored
    case None => None
    case Some(EmptyText) => None
    case Some(Malformed) => None
    case Some(Decoded(v)) =>
      match v
      case JObject(fields) =>
        Some(Restored(FieldOr(fields, "login_status", JBool(false)),
                      Field(fields, "current_qr_uuid"),
                      FieldOr(fields, "ticket_info", JObject(map[]))))
      case _ => None
  }

  /** Restoring what was saved gives back the three fields saved. */
  lemma RestoreSaved(loginStatus: Json, currentQrUuid: Json, ticketInfo: Json)
    ensures Restore(Some(Decoded(SessionRecord(loginStatus, currentQrUuid, ticketInfo))))
         == Some(Restored(loginStatus, currentQrUuid, ticketInfo))
  {
    var fields := map["login_status" := loginStatus, "current_qr_uuid" := currentQrUuid, "ticket_info" := ticketInfo];
    assert "login_status" in fields && "current_qr_uuid" in fields && "ticket_info" in fields;
  }

  /** An object without the fields restores a logged-out session with no
      QR code and no ticket information. */
  lemma RestoreDefaults(fields: map<string, Json>)
    requires "login_status" !in fields && "current_qr_uuid" !in fields && "ticket_info" !in fields
    ensures Restore(Some(Decoded(JObject(fields)))) == Some(Restored(JBool(false), JNull, JObject(map[])))
  {
  }

  // -----------------------------------------------------------------------
  // The QR-code poll

  /** `qr_status_polling`: uuid -> flag; the loop runs while the flag of its
      uuid is truthy. */
  class PollRegistry {
    var flags: map<Json, Json>

    constructor ()
      ensures flags == map[]
    {
      flags := map[];
    }

    /** `qr_status_polling.get(uuid)` */
    function Get(uuid: Json): (v: Json)
      reads this
      ensures uuid !in flags ==> v == JNull
    {
      if uuid in flags then flags[uuid] else JNull
    }
  }

  /** What one `check_qr_status_once()` call gave the poller: a value,
      which it stores, or an exception, which ends the poller's thread. */
  datatype PollReply = PollRaised | PollResult(value: Json)

  /** `result.get("status") in ["success", "failed", "expired"]` */
  predicate Finished(fields: map<string, Json>) {
    var s := Field(fields, "status");
    s == JStr("success") || s == JStr("failed") || s == JStr("expired")
  }

  predicate Succeeded(fields: map<string, Json>) {
    Field(fields, "status") == JStr("success")
  }

  /** A dict with a final status: the loop removes the flag and stops. */
  predicate Final(reply: PollReply) {
    reply.PollResult? && reply.value.JObject? && Finished(reply.value.fields)
  }

  /** A reply that ends the loop: an exception, a value that is not a dict
      (whose `.get` raises once it is stored), or a final status. */
  predicate Stops(reply: PollReply) {
    reply.PollRaised? || !reply.value.JObject? || Finished(reply.value.fields)
  }

  /** The number of replies the loop reads on before it stops: the index of
      the first stopping reply, or all of them. */
  function FirstStop(replies: seq<PollReply>): (k: nat)
    ensures k <= |replies|
    ensures forall j :: 0 <= j < k ==> !Stops(replies[j])
    ensures k < |replies| ==> Stops(replies[k])
    decreases |replies|
  {
    if replies == [] || Stops(replies[0]) then 0
    else
      var k := FirstStop(replies[1..]);
      assert forall j :: 1 <= j < k + 1 ==> replies[j] == replies[1..][j - 1];
      k + 1
  }

  /** The last status the loop stored: the last value it was given, if
      any. */
  function LastResult(replies: seq<PollReply>, k: nat, before: Json): (r: Json)
    requires k <= |replies| && forall j :: 0 <= j < k ==> replies[j].PollResult?
  {
    if k < |replies| && replies[k].PollResult? then replies[k].value
    else if k > 0 then replies[k - 1].value
    else before
  }

  // -----------------------------------------------------------------------
  // The manager

  /** The `Waiting` status a new QR code starts in. */
  const WaitingResult := JObject(map["status" := JStr("waiting"), "message" := JStr("等待扫描...")])

  class BookingManager {
    /** `login_status` */
    var loginStatus: Json
    /** `current_qr_uuid` */
    var currentQrUuid: Json
    /** `qr_status_result` */
    var qrStatusResult: Json
    /** Whether `qr_status_thread` is alive. */
    var pollerAlive: bool
    /** The booking's `ticket_info`; `None` while the booking object has no
        such attribute, which the command-line client never sets. */
    var ticketInfo: Option<Json>

    constructor ()
      ensures Blank()
    {
      loginStatus := JBool(false);
      currentQrUuid := JNull;
      qrStatusResult := JNull;
      pollerAlive := false;
      ticketInfo := None;
    }

    /** The state `__init__` leaves: logged out, no QR code, no status, no
        poller and no `ticket_info`. */
    predicate Blank()
      reads this
    {
      loginStatus == JBool(false) && currentQrUuid == JNull && qrStatusResult == JNull
      && !pollerAlive && ticketInfo.None?
    }

    /** `save_session`: writes the record under `session:<id>` for 24 hours.
        It fails, writing nothing, without a store, when the store raises, or
        when the booking has no `ticket_info` yet. */
    method SaveSession(store: Store, id: string, now: int) returns (ok: bool)
      modifies store
      ensures ok <==> store.connected && old(store.reachable) && ticketInfo.Some?
      ensures store.entries == if ok
        then old(store.entries)[SessionKey(id) := (Decoded(SessionRecord(loginStatus, currentQrUuid, ticketInfo.value)), now + SessionTtl)]
        else old(store.entries)
      ensures store.reachable == old(store.reachable)
    {
      if !store.connected || ticketInfo.None? {
        return false;
      }
      var record := SessionRecord(loginStatus, currentQrUuid, ticketInfo.value);
      ok := store.SetEx(SessionKey(id), SessionTtl, Decoded(record), now);
    }

    /** `load_session`: true, with the three fields restored, exactly when the
        store answers with a JSON object for the session; otherwise false,
        and nothing changes. */
    method LoadSession(store: Store, id: string, now: int) returns (ok: bool)
      modifies this
      ensures var r := Restore(store.Lookup(SessionKey(id), now));
        && (ok <==> store.connected && store.reachable && r.Some?)
        && (ok ==> loginStatus == r.value.loginStatus && currentQrUuid == r.value.currentQrUuid
                   && ticketInfo == Some(r.value.ticketInfo))
      ensures !ok ==> loginStatus == old(loginStatus) && currentQrUuid == old(currentQrUuid) && ticketInfo == old(ticketInfo)
      ensures qrStatusResult == old(qrStatusResult) && pollerAlive == old(pollerAlive)
    {
      if !store.connected || !store.reachable {
        return false;
      }
      var restored := Restore(store.Lookup(SessionKey(id), now));
      if restored.None? {
        return false;
      }
      loginStatus := restored.value.loginStatus;
      currentQrUuid := restored.value.currentQrUuid;
      ticketInfo := Some(restored.value.ticketInfo);
      return true;
    }

    /** `clear_session`: deletes the session's key. */
    method ClearSession(store: Store, id: string) returns (ok: bool)
      modifies store
      ensures ok <==> store.connected && old(store.reachable)
      ensures store.entries == if ok then old(store.entries) - {SessionKey(id)} else old(store.entries)
      ensures store.reachable == old(store.reachable)
    {
      if !store.connected {
        return false;
      }
      ok := store.Delete(SessionKey(id));
    }

    /** `get_qr_code`, given what the booking's `get_qr_code_data` gave:
        an exception, or a value other than a dict (whose `.get` raises),
        raises and changes nothing; a dict is returned, and when its
        `success` is truthy the new uuid is current, the user is logged out
        and the status is waiting. */
    method GetQrCode(fetched: Answer<Json>) returns (r: Option<map<string, Json>>)
      modifies this
      ensures r.Some? <==> fetched.Gave? && fetched.value.JObject?
      ensures r.Some? ==> r.value == fetched.value.fields
      ensures r.Some? && JsonTruthy(Field(r.value, "success")) ==>
        currentQrUuid == Field(r.value, "uuid") && loginStatus == JBool(false) && qrStatusResult == WaitingResult
      ensures r.None? || !JsonTruthy(Field(r.value, "success")) ==>
        currentQrUuid == old(currentQrUuid) && loginStatus == old(loginStatus) && qrStatusResult == old(qrStatusResult)
      ensures pollerAlive == old(pollerAlive) && ticketInfo == old(ticketInfo)
    {
      if fetched.Threw? || !fetched.value.JObject? {
        return None;
      }
      var result := fetched.value.fields;
      if JsonTruthy(Field(result, "success")) {
        currentQrUuid := Field(result, "uuid");
        loginStatus := JBool(false);
        qrStatusResult := WaitingResult;
      }
      return Some(result);
    }

    /** `start_qr_polling` with its `_poll` loop run to the end of the
        replies the booking gives: nothing happens without a current uuid or
        while a poller is alive; otherwise the loop reads replies while the
        uuid's flag is set, stores each value it reads, and at the first final
        status removes the flag, logging in only on `success`.  An exception,
        or a value that is not a dict, ends the poller and leaves the flag
        set.  A poller that used up the
        replies with its flag still set is still alive. */
    method StartQrPolling(registry: PollRegistry, replies: seq<PollReply>)
      modifies this, registry
      ensures var uuid := old(currentQrUuid);
        var runs := JsonTruthy(uuid) && !old(pollerAlive);
        var polls := runs && JsonTruthy(old(registry.Get(uuid)));
        var k := FirstStop(replies);
        var finished := polls && k < |replies| && Final(replies[k]);
        && (!runs ==> pollerAlive == old(pollerAlive))
        && (runs ==> pollerAlive == (polls && k == |replies|))
        && registry.flags == (if finished then old(registry.flags) - {uuid} else old(registry.flags))
        && loginStatus == (if finished && Succeeded(replies[k].value.fields) then JBool(true) else old(loginStatus))
        && qrStatusResult == (if polls then LastResult(replies, k, old(qrStatusResult)) else old(qrStatusResult))
      ensures currentQrUuid == old(currentQrUuid) && ticketInfo == old(ticketInfo)
    {
      if !JsonTruthy(currentQrUuid) || pollerAlive {
        return;
      }
      var uuid := currentQrUuid;
      if !JsonTruthy(registry.Get(uuid)) {
        return;
      }
      var i := 0;
      while i < |replies|
        invariant 0 <= i <= FirstStop(replies)
        invariant forall j :: 0 <= j < i ==> !Stops(replies[j])
        invariant registry.flags == old(registry.flags) && loginStatus == old(loginStatus)
        invariant currentQrUuid == uuid && ticketInfo == old(ticketInfo) && pollerAlive == old(pollerAlive)
        invariant qrStatusResult == if i == 0 then old(qrStatusResult) else replies[i - 1].value
      {
        var reply := replies[i];
        if reply.PollRaised? {
          return;
        }
        qrStatusResult := reply.value;
        if !reply.value.JObject? {
          return;
        }
        if Finished(reply.value.fields) {
          if Succeeded(reply.value.fields) {
            loginStatus := JBool(true);
          }
          registry.flags := registry.flags - {uuid};
          return;
        }
        i := i + 1;
      }
      pollerAlive := true;
    }
  }

  /** A poller that reads a final status stops there: it never reads past
      the first one, and everything it read before was an ordinary dict. */
  lemma {:induction false} FirstStopIsFirst(replies: seq<PollReply>, k: nat)
    requires k < |replies| && Stops(replies[k]) && forall j :: 0 <= j < k ==> !Stops(replies[j])
    ensures FirstStop(replies) == k
    decreases k
  {
    if k > 0 {
      FirstStopIsFirst(replies[1..], k - 1);
    }
  }
}
