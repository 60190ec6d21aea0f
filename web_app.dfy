/** The web front end's request handling around the per-session managers:
    one manager per session id, the session load before and save after each
    request, the QR-code and login-status routes, and the passenger list and
    passenger selection of the booking routes.  The booking object's own
    network calls (`get_qr_code_data`, `check_qr_status_once`,
    `get_passengers_direct`, `execute_booking`) are inputs. */
module WebApp {
  import opened Common
  import opened SessionStore
  import opened WebSession

  // -----------------------------------------------------------------------
  // The login-status route

  datatype LoginStatusReply =
    | InvalidUuid                                        // not the current QR code
    | StatusFailed                                       // the stored status lacks a key
    | StatusReport(status: Json, message: Json, loggedIn: Json)

  /** The reply "checking", logged out, given before the poller stored a
      status. */
  const Checking := StatusReport(JStr("checking"), JStr("正在检查登录状态..."), JBool(false))

  /** `check_login_status(uuid)` for a manager whose current uuid, stored
      status and login flag are given. */
  function LoginStatusResponse(uuid: string, currentQrUuid: Json, result: Json, loginStatus: Json): (r: LoginStatusReply)
    ensures JStr(uuid) != currentQrUuid <==> r == InvalidUuid
    ensures JStr(uuid) == currentQrUuid && !JsonTruthy(result) ==> r == Checking
    ensures r.StatusReport? && JsonTruthy(result) ==>
      && result.JObject? && "status" in result.fields && "message" in result.fields
      && r.status == result.fields["status"] && r.message == result.fields["message"]
      && r.loggedIn == loginStatus
    ensures JStr(uuid) == currentQrUuid && result.JObject? && "status" in result.fields && "message" in result.fields ==>
      r == StatusReport(result.fields["status"], result.fields["message"], loginStatus)
    ensures r == StatusFailed <==>
      && JStr(uuid) == currentQrUuid && JsonTruthy(result)
      && !(result.JObject? && "status" in result.fields && "message" in result.fields)
  {
    if JStr(uuid) != currentQrUuid then InvalidUuid
    else if !JsonTruthy(result) then Checking
    else match result
      case JObject(fields) =>
        if "status" in fields && "message" in fields
        then StatusReport(fields["status"], fields["message"], loginStatus)
        else StatusFailed
      case _ => StatusFailed
  }

  /** A status is reported only for the current QR code, and it says logged
      in only when the manager is logged in. */
  lemma ReportedLoginIsManagers(uuid: string, currentQrUuid: Json, result: Json, loginStatus: Json)
    requires LoginStatusResponse(uuid, currentQrUuid, result, loginStatus).StatusReport?
    ensures JStr(uuid) == currentQrUuid
    ensures JsonTruthy(LoginStatusResponse(uuid, currentQrUuid, result, loginStatus).loggedIn) ==> JsonTruthy(loginStatus)
  {
  }

  // -----------------------------------------------------------------------
  // The QR-code route

  datatype QrReply =
    | QrIssued(uuid: Json, image: Json)
    | QrRefused(message: Json)
    | QrFailed                                           // a key was missing

  /** `get_qr_code()`'s reply for what the booking returned: the route reads
      `success`, `uuid` and `message` by subscript, so a missing one fails. */
  function QrRouteReply(result: map<string, Json>): (r: QrReply)
    ensures r.QrIssued? <==> "success" in result && JsonTruthy(result["success"]) && "uuid" in result
    ensures r.QrIssued? ==> r.uuid == result["uuid"] && r.image == FieldOr(result, "qr_image", JStr(""))
    ensures r.QrRefused? <==> "success" in result && !JsonTruthy(result["success"]) && "message" in result
  {
    if "success" !in result then QrFailed
    else if JsonTruthy(result["success"]) then
      if "uuid" in result then QrIssued(result["uuid"], FieldOr(result, "qr_image", JStr(""))) else QrFailed
    else if "message" in result then QrRefused(result["message"])
    else QrFailed
  }

  // -----------------------------------------------------------------------
  // Passengers

  /** One entry of the passenger list the page shows. */
  datatype Passenger = Passenger(id: nat, name: Json, idNo: Json, idType: Json, mobile: Json)

  /** Python's `a or b`. */
  function Or(a: Json, b: Json): (r: Json)
    ensures JsonTruthy(a) ==> r == a
    ensures !JsonTruthy(a) ==> r == b
  {
    if JsonTruthy(a) then a else b
  }

  /** The entry for the `idx`-th passenger the booking returned, under
      either spelling of each field. */
  function Normalised(idx: nat, p: map<string, Json>): Passenger {
    Passenger(idx,
      Or(Or(Field(p, "passenger_name"), Field(p, "name")), JStr("未知姓名")),
      Or(Or(Field(p, "passenger_id_no"), Field(p, "id_no")), JStr("未知证件号")),
      Or(Or(Field(p, "passenger_id_type_code"), Field(p, "id_type_code")), JStr("1")),
      Or(Or(Field(p, "mobile_no"), Field(p, "mobile")), JStr("")))
  }

  /** `v` is what `p.get(long) or p.get(short) or placeholder` picks: the
      long spelling when that is set, else the short one when that is set,
      else the placeholder. */
  predicate FallsBack(v: Json, p: map<string, Json>, long: string, short: string, placeholder: Json) {
    && (JsonTruthy(Field(p, long)) ==> v == p[long])
    && (!JsonTruthy(Field(p, long)) && JsonTruthy(Field(p, short)) ==> v == p[short])
    && (!JsonTruthy(Field(p, long)) && !JsonTruthy(Field(p, short)) ==> v == placeholder)
  }

  /** Each of the four fields falls back from the long spelling to the short
      one to its placeholder; so name, number and type are never empty, and
      the entry's id is its position. */
  lemma PassengerFallbacks(idx: nat, p: map<string, Json>)
    ensures var e := Normalised(idx, p);
      && e.id == idx
      && FallsBack(e.name, p, "passenger_name", "name", JStr("未知姓名"))
      && FallsBack(e.idNo, p, "passenger_id_no", "id_no", JStr("未知证件号"))
      && FallsBack(e.idType, p, "passenger_id_type_code", "id_type_code", JStr("1"))
      && FallsBack(e.mobile, p, "mobile_no", "mobile", JStr(""))
      && JsonTruthy(e.name) && JsonTruthy(e.idNo) && JsonTruthy(e.idType)
  {
  }

  /** The loop of `get_passengers` that builds `passenger_list`. */
  method NormalisePassengers(passengers: seq<map<string, Json>>) returns (list: seq<Passenger>)
    ensures |list| == |passengers|
    ensures forall i :: 0 <= i < |list| ==> list[i] == Normalised(i, passengers[i])
  {
    list := [];
    var idx := 0;
    while idx < |passengers|
      invariant 0 <= idx <= |passengers| && |list| == idx
      invariant forall i :: 0 <= i < idx ==> list[i] == Normalised(i, passengers[i])
    {
      list := list + [Normalised(idx, passengers[idx])];
      idx := idx + 1;
    }
  }

  datatype PassengersReply =
    | PassengersNeedLogin
    | PassengersFailed                                   // the booking raised
    | NoPassengers                                       // it returned nothing
    | PassengerList(passengers: seq<Passenger>)

  /** `get_passengers` for a manager with this login flag, given what the
      booking's `get_passengers_direct` did. */
  function PassengersResponse(loginStatus: Json, fetched: Answer<Option<seq<map<string, Json>>>>): (r: PassengersReply)
    ensures !JsonTruthy(loginStatus) <==> r == PassengersNeedLogin
    ensures r.PassengerList? ==>
      && fetched.Gave? && fetched.value.Some? && fetched.value.value != []
      && |r.passengers| == |fetched.value.value|
      && forall i :: 0 <= i < |r.passengers| ==> r.passengers[i] == Normalised(i, fetched.value.value[i])
    ensures JsonTruthy(loginStatus) && fetched.Threw? ==> r == PassengersFailed
    ensures JsonTruthy(loginStatus) && fetched.Gave? && (fetched.value.None? || fetched.value.value == []) ==>
      r == NoPassengers
    ensures JsonTruthy(loginStatus) && fetched.Gave? && fetched.value.Some? && fetched.value.value != [] ==>
      r.PassengerList?
  {
    if !JsonTruthy(loginStatus) then PassengersNeedLogin
    else match fetched
      case Threw => PassengersFailed
      case Gave(None) => NoPassengers
      case Gave(Some(ps)) =>
        if ps == [] then NoPassengers
        else PassengerList(seq(|ps|, i requires 0 <= i < |ps| => Normalised(i, ps[i])))
  }

  // -----------------------------------------------------------------------
  // Passenger selection

  /** What `all_passengers[i] for i in passenger_ids if i < len(...)` does
      with one requested id against a list of `n`. */
  datatype Pick = Skip | Take(index: nat) | Raise

  /** An id at or past the end is filtered out; a negative one counts from
      the end, as Python's list index does, and raises `IndexError` below
      `-n`.  `True` and `False` are the ids 1 and 0; a float can be compared
      but not used as an index; anything else cannot be compared with an
      integer. */
  function PickOf(n: nat, id: Json): (p: Pick)
    ensures p.Take? ==> p.index < n
    ensures id.JInt? ==> (p == Skip <==> id.i >= n) && (p == Raise <==> id.i < -(n as int))
    ensures id.JInt? && p.Take? ==> p.index == if id.i >= 0 then id.i else n + id.i
  {
    match id
    case JInt(i) =>
      if i >= n then Skip
      else if i >= 0 then Take(i)
      else if i >= -(n as int) then Take(n + i)
      else Raise
    case JBool(b) =>
      var i := if b then 1 else 0;
      if i >= n then Skip else Take(i)
    case JFloat(r) => if r >= n as real then Skip else Raise
    case _ => Raise
  }

  /** The selected passengers, in request order, or `None` when an id made
      the comprehension raise. */
  function Select<T>(all: seq<T>, ids: seq<Json>): (r: Option<seq<T>>)
    ensures r.Some? ==> |r.value| <= |ids| && forall x :: x in r.value ==> x in all
    decreases |ids|
  {
    if ids == [] then Some([])
    else
      match Select(all, ids[..|ids| - 1])
      case None => None
      case Some(sel) =>
        match PickOf(|all|, ids[|ids| - 1])
        case Skip => Some(sel)
        case Raise => None
        case Take(k) => Some(sel + [all[k]])
  }

  /** The selection raises exactly when some requested id does. */
  lemma {:induction false} SelectRaisesIff<T>(all: seq<T>, ids: seq<Json>)
    ensures Select(all, ids).None? <==> exists j :: 0 <= j < |ids| && PickOf(|all|, ids[j]) == Raise
    decreases |ids|
  {
    if ids != [] {
      var front := ids[..|ids| - 1];
      SelectRaisesIff(all, front);
      assert forall j :: 0 <= j < |front| ==> front[j] == ids[j];
    }
  }

  /** Ids that are all valid positions select exactly those passengers, in
      request order, repeats included. */
  lemma {:induction false} SelectInRange<T>(all: seq<T>, ids: seq<Json>)
    requires forall j :: 0 <= j < |ids| ==> ids[j].JInt? && 0 <= ids[j].i < |all|
    ensures Select(all, ids).Some? && |Select(all, ids).value| == |ids|
    ensures forall j :: 0 <= j < |ids| ==> Select(all, ids).value[j] == all[ids[j].i]
    decreases |ids|
  {
    if ids != [] {
      var front := ids[..|ids| - 1];
      SelectInRange(all, front);
      var last := ids[|ids| - 1];
      assert PickOf(|all|, last) == Take(last.i);
      assert Select(all, ids) == Some(Select(all, front).value + [all[last.i]]);
    }
  }

  /** Reference reading of the comprehension over integer ids: first keep
      the ids below `n`, in order ... */
  function Below(n: nat, ids: seq<Json>): (kept: seq<int>)
    requires forall j :: 0 <= j < |ids| ==> ids[j].JInt? && ids[j].i >= -(n as int)
    ensures forall k :: 0 <= k < |kept| ==> -(n as int) <= kept[k] < n
    ensures |kept| <= |ids|
  {
    if ids == [] then []
    else (if ids[0].i < n then [ids[0].i] else []) + Below(n, ids[1..])
  }

  /** ... then index `all` with each of them, Python-style. */
  function IndexAll<T>(all: seq<T>, idx: seq<int>): (r: seq<T>)
    requires forall k :: 0 <= k < |idx| ==> -|all| <= idx[k] < |all|
    ensures |r| == |idx|
    ensures forall k :: 0 <= k < |idx| ==> r[k] == if idx[k] >= 0 then all[idx[k]] else all[|all| + idx[k]]
  {
    if idx == [] then []
    else [if idx[0] >= 0 then all[idx[0]] else all[|all| + idx[0]]] + IndexAll(all, idx[1..])
  }

  lemma {:induction false} BelowSnoc(n: nat, ids: seq<Json>, last: Json)
    requires forall j :: 0 <= j < |ids| ==> ids[j].JInt? && ids[j].i >= -(n as int)
    requires last.JInt? && last.i >= -(n as int)
    ensures Below(n, ids + [last]) == Below(n, ids) + (if last.i < n then [last.i] else [])
    decreases |ids|
  {
    if ids == [] {
      assert Below(n, [last]) == (if last.i < n then [last.i] else []) + Below(n, []);
    } else {
      assert (ids + [last])[1..] == ids[1..] + [last];
      BelowSnoc(n, ids[1..], last);
    }
  }

  /** Integer ids no lower than `-len(all)` never raise, and the selection
      is the filter-then-index reading of the comprehension. */
  lemma {:induction false} SelectIntIds<T>(all: seq<T>, ids: seq<Json>)
    requires forall j :: 0 <= j < |ids| ==> ids[j].JInt? && ids[j].i >= -|all|
    ensures Select(all, ids) == Some(IndexAll(all, Below(|all|, ids)))
    decreases |ids|
  {
    if ids != [] {
      var front := ids[..|ids| - 1];
      var last := ids[|ids| - 1];
      var n := |all|;
      var tail := if last.i < n then [last.i] else [];
      assert Below(n, ids) == Below(n, front) + tail by {
        assert ids == front + [last];
        BelowSnoc(n, front, last);
      }
      assert Select(all, front) == Some(IndexAll(all, Below(n, front))) by {
        SelectIntIds(all, front);
      }
      assert Select(all, ids) == Some(Select(all, front).value + IndexAll(all, tail)) by {
        SelectLastInt(all, ids);
      }
      assert IndexAll(all, Below(n, ids)) == IndexAll(all, Below(n, front)) + IndexAll(all, tail) by {
        IndexAllAppend(all, Below(n, front), tail);
      }
    }
  }

  /** One more integer id, no lower than `-len(all)`, after a selection
      that did not raise. */
  lemma {:induction false} SelectLastInt<T>(all: seq<T>, ids: seq<Json>)
    requires ids != [] && Select(all, ids[..|ids| - 1]).Some?
    requires ids[|ids| - 1].JInt? && ids[|ids| - 1].i >= -|all|
    ensures var last := ids[|ids| - 1].i;
      Select(all, ids) == Some(Select(all, ids[..|ids| - 1]).value + IndexAll(all, if last < |all| then [last] else []))
  {
    var n := |all|;
    var last := ids[|ids| - 1].i;
    var sel := Select(all, ids[..|ids| - 1]).value;
    if last < n {
      var k := if last >= 0 then last else n + last;
      assert PickOf(n, ids[|ids| - 1]) == Take(k);
      assert Select(all, ids) == Some(sel + [all[k]]);
      assert IndexAll(all, [last]) == [all[k]];
    } else {
      assert PickOf(n, ids[|ids| - 1]) == Skip;
      assert Select(all, ids) == Some(sel);
      assert sel + IndexAll(all, []) == sel;
    }
  }

  lemma {:induction false} IndexAllAppend<T>(all: seq<T>, a: seq<int>, b: seq<int>)
    requires forall k :: 0 <= k < |a| ==> -|all| <= a[k] < |all|
    requires forall k :: 0 <= k < |b| ==> -|all| <= b[k] < |all|
    ensures IndexAll(all, a + b) == IndexAll(all, a) + IndexAll(all, b)
  {
    var ab := a + b;
    assert forall k :: 0 <= k < |ab| ==> ab[k] == if k < |a| then a[k] else b[k - |a|];
  }

  /** The comprehension's loop. */
  method SelectPassengers<T>(all: seq<T>, ids: seq<Json>) returns (r: Option<seq<T>>)
    ensures r == Select(all, ids)
  {
    var selected: seq<T> := [];
    var i := 0;
    while i < |ids|
      invariant 0 <= i <= |ids|
      invariant Select(all, ids[..i]) == Some(selected)
    {
      assert ids[..i + 1][..i] == ids[..i];
      var pick := PickOf(|all|, ids[i]);
      if pick.Raise? {
        SelectRaisesIff(all, ids);
        return None;
      }
      if pick.Take? {
        selected := selected + [all[pick.index]];
      }
      i := i + 1;
    }
    assert ids[..i] == ids;
    return Some(selected);
  }

  // -----------------------------------------------------------------------
  // The booking route

  /** What `submit_booking` hands to `execute_booking`. */
  datatype BookingOrder = BookingOrder(fromStation: Json, toStation: Json, date: Json, trainNo: Json,
                                       passengers: seq<map<string, Json>>, seatType: Json)

  datatype SubmitReply =
    | MissingParams
    | SubmitNeedsLogin
    | SubmitFailed                                       // something raised
    | NoValidPassengers
    | Submitted(order: BookingOrder, success: bool)

  /** `all([from_station, to_station, date, train_no, passenger_ids])` on
      a request body that is an object. */
  predicate OrderParams(body: Json) {
    && body.JObject?
    && JsonTruthy(Field(body.fields, "from_station")) && JsonTruthy(Field(body.fields, "to_station"))
    && JsonTruthy(Field(body.fields, "date")) && JsonTruthy(Field(body.fields, "train_no"))
    && JsonTruthy(FieldOr(body.fields, "passenger_ids", JArray([])))
  }

  /** The order `submit_booking` builds from an object body and the
      selected passengers; the seat type defaults to `O`. */
  function OrderOf(data: map<string, Json>, selected: seq<map<string, Json>>): (o: BookingOrder)
    ensures o.passengers == selected
    ensures o.fromStation == Field(data, "from_station") && o.toStation == Field(data, "to_station")
    ensures o.date == Field(data, "date") && o.trainNo == Field(data, "train_no")
    ensures "seat_type" !in data ==> o.seatType == JStr("O")
    ensures "seat_type" in data ==> o.seatType == data["seat_type"]
  {
    BookingOrder(Field(data, "from_station"), Field(data, "to_station"), Field(data, "date"),
                 Field(data, "train_no"), selected, FieldOr(data, "seat_type", JStr("O")))
  }

  /** `submit_booking` for a request body, a manager with this login flag,
      what `get_passengers_direct` did and how `execute_booking` answers an
      order. */
  function SubmitResponse(body: Json, loginStatus: Json, fetched: Answer<Option<seq<map<string, Json>>>>,
                          execute: BookingOrder -> Answer<bool>): (r: SubmitReply)
    ensures !OrderParams(body) ==> r == MissingParams || r == SubmitFailed
    ensures r.Submitted? ==>
      && OrderParams(body)
      && JsonTruthy(loginStatus)
      && fetched.Gave? && fetched.value.Some?
      && r.order.passengers != []
      && (forall p :: p in r.order.passengers ==> p in fetched.value.value)
      && execute(r.order) == Gave(r.success)
    ensures !JsonTruthy(loginStatus) ==> !r.Submitted?
    ensures !body.JObject? ==> r == SubmitFailed
    ensures body.JObject? && !OrderParams(body) ==> r == MissingParams
    ensures OrderParams(body) && !JsonTruthy(loginStatus) ==> r == SubmitNeedsLogin
    ensures OrderParams(body) && JsonTruthy(loginStatus)
            && !(fetched.Gave? && fetched.value.Some? && FieldOr(body.fields, "passenger_ids", JArray([])).JArray?) ==>
      r == SubmitFailed
    ensures OrderParams(body) && JsonTruthy(loginStatus)
            && fetched.Gave? && fetched.value.Some? && FieldOr(body.fields, "passenger_ids", JArray([])).JArray? ==>
      var sel := Select(fetched.value.value, FieldOr(body.fields, "passenger_ids", JArray([])).items);
      && (sel.None? ==> r == SubmitFailed)
      && (sel == Some([]) ==> r == NoValidPassengers)
      && (sel.Some? && sel.value != [] ==>
            var order := OrderOf(body.fields, sel.value);
            r == if execute(order).Gave? then Submitted(order, execute(order).value) else SubmitFailed)
  {
    match body
    case JObject(data) =>
      var ids := FieldOr(data, "passenger_ids", JArray([]));
      if !OrderParams(body) then MissingParams
      else if !JsonTruthy(loginStatus) then SubmitNeedsLogin
      else
        (match fetched
         case Gave(Some(all)) =>
          (match ids
           case JArray(items) =>
             (match Select(all, items)
              case None => SubmitFailed
              case Some(selected) =>
                if selected == [] then NoValidPassengers
                else
                  var order := OrderOf(data, selected);
                  match execute(order)
                  case Threw => SubmitFailed
                  case Gave(success) => Submitted(order, success))
           // a non-empty string or object yields keys that cannot be compared
           // with an integer; any other value cannot be iterated
           case _ => SubmitFailed)
         // `len(None)` raises
         case _ => SubmitFailed)
    // `request.json` was not an object
    case _ => SubmitFailed
  }

  /** Requesting only valid positions books exactly those passengers. */
  lemma SubmitValidIds(body: Json, loginStatus: Json, all: seq<map<string, Json>>,
                       execute: BookingOrder -> Answer<bool>)
    requires body.JObject? && "passenger_ids" in body.fields && body.fields["passenger_ids"].JArray?
    requires var items := body.fields["passenger_ids"].items;
      items != [] && forall j :: 0 <= j < |items| ==> items[j].JInt? && 0 <= items[j].i < |all|
    requires OrderParams(body) && JsonTruthy(loginStatus)
    ensures var items := body.fields["passenger_ids"].items;
      var r := SubmitResponse(body, loginStatus, Gave(Some(all)), execute);
      r.Submitted? || r == SubmitFailed
    ensures var items := body.fields["passenger_ids"].items;
      var r := SubmitResponse(body, loginStatus, Gave(Some(all)), execute);
      r.Submitted? ==>
        && |r.order.passengers| == |items|
        && forall j :: 0 <= j < |items| ==> r.order.passengers[j] == all[items[j].i]
    ensures var items := body.fields["passenger_ids"].items;
      && Select(all, items).Some? && |Select(all, items).value| == |items|
      && forall j :: 0 <= j < |items| ==> Select(all, items).value[j] == all[items[j].i]
    ensures var order := OrderOf(body.fields, Select(all, body.fields["passenger_ids"].items).value);
      var r := SubmitResponse(body, loginStatus, Gave(Some(all)), execute);
      r == if execute(order).Gave? then Submitted(order, execute(order).value) else SubmitFailed
  {
    SelectInRange(all, body.fields["passenger_ids"].items);
  }

  // -----------------------------------------------------------------------
  // The application

  class App {
    /** `booking_instances`: session id -> manager */
    var instances: map<string, BookingManager>
    /** `qr_status_polling` */
    const registry: PollRegistry
    /** The session store (`redis_client`). */
    const store: Store

    constructor (store: Store)
      ensures instances == map[] && this.store == store && fresh(registry) && registry.flags == map[]
    {
      instances := map[];
      registry := new PollRegistry();
      this.store := store;
    }

    /** The session id `get_manager` settles on: the cookie's when it is
        truthy, else the freshly drawn one. */
    static function SessionIdOf(sessionId: Option<string>, freshId: string): (id: string)
      ensures Truthy(sessionId) ==> id == sessionId.value
      ensures !Truthy(sessionId) ==> id == freshId
    {
      if Truthy(sessionId) then sessionId.value else freshId
    }

    /** The manager of `id` after `get_manager`: the one already kept for it,
        with nothing else in `booking_instances` changed, or a new one in
        its initial state. */
    twostate predicate KeptOrMade(id: string)
      reads this
    {
      && id in instances
      && (id in old(instances) ==> instances == old(instances))
      && (id !in old(instances) ==> instances == old(instances)[id := instances[id]] && fresh(instances[id]))
    }

    /** `get_manager`: the session's id, drawing the fresh one when the
        cookie has none, and its manager, made on first use. */
    method GetManager(sessionId: Option<string>, freshId: string) returns (id: string, m: BookingManager)
      modifies this
      ensures id == SessionIdOf(sessionId, freshId)
      ensures KeptOrMade(id) && instances[id] == m
      ensures id !in old(instances) ==> m.Blank()
    {
      id := SessionIdOf(sessionId, freshId);
      if id !in instances {
        var made := new BookingManager();
        instances := instances[id := made];
      }
      m := instances[id];
    }

    /** `load_user_session`: before each request, a session with an id is
        restored from the store into its manager, which is the only manager
        that can change; when nothing loads its fields stay as they were. */
    method LoadUserSession(sessionId: Option<string>, now: int) returns (loaded: bool)
      modifies this, if Truthy(sessionId) && sessionId.value in instances then {instances[sessionId.value]} else {}
      ensures !Truthy(sessionId) ==> !loaded && instances == old(instances)
      ensures Truthy(sessionId) ==> KeptOrMade(sessionId.value)
      ensures Truthy(sessionId) ==>
        var id := sessionId.value;
        var m := instances[id];
        var r := Restore(store.Lookup(SessionKey(id), now));
        && (loaded <==> store.connected && store.reachable && r.Some?)
        && (loaded ==>
             && m.loginStatus == r.value.loginStatus
             && m.currentQrUuid == r.value.currentQrUuid
             && m.ticketInfo == Some(r.value.ticketInfo))
      ensures Truthy(sessionId) && sessionId.value in old(instances) ==>
        var id := sessionId.value;
        var m := instances[id];
        && m.qrStatusResult == old(instances[id].qrStatusResult) && m.pollerAlive == old(instances[id].pollerAlive)
        && (!loaded ==>
             && m.loginStatus == old(instances[id].loginStatus)
             && m.currentQrUuid == old(instances[id].currentQrUuid)
             && m.ticketInfo == old(instances[id].ticketInfo))
      ensures Truthy(sessionId) && sessionId.value !in old(instances) ==>
        var m := instances[sessionId.value];
        m.qrStatusResult == JNull && !m.pollerAlive && (!loaded ==> m.Blank())
    {
      if !Truthy(sessionId) {
        return false;
      }
      var id, m := GetManager(sessionId, sessionId.value);
      loaded := m.LoadSession(store, id, now);
    }

    /** `save_user_session`: after each request, the session's own manager
        is saved only when the cookie has an id and that manager is logged
        in; a manager made here is logged out, so it is never saved. */
    method SaveUserSession(sessionId: Option<string>, now: int) returns (saved: bool)
      modifies this, store
      ensures !Truthy(sessionId) ==> instances == old(instances)
      ensures Truthy(sessionId) ==> KeptOrMade(sessionId.value)
      ensures saved <==>
        && Truthy(sessionId) && sessionId.value in old(instances)
        && JsonTruthy(old(instances[sessionId.value].loginStatus))
        && store.connected && old(store.reachable) && old(instances[sessionId.value].ticketInfo).Some?
      ensures store.entries == if saved
        then var m := instances[sessionId.value];
          old(store.entries)[SessionKey(sessionId.value) :=
            (Decoded(SessionRecord(m.loginStatus, m.currentQrUuid, m.ticketInfo.value)), now + SessionTtl)]
        else old(store.entries)
      ensures store.reachable == old(store.reachable)
    {
      if !Truthy(sessionId) {
        return false;
      }
      var id, m := GetManager(sessionId, sessionId.value);
      if !JsonTruthy(m.loginStatus) {
        return false;
      }
      saved := m.SaveSession(store, id, now);
    }

    /** The QR-code route: asks the session's manager for a code, and when
        one is issued flags its uuid for polling and starts the poller over
        the booking's replies. */
    method RequestQrCode(sessionId: Option<string>, freshId: string, fetched: Answer<Json>,
                         replies: seq<PollReply>) returns (id: string, reply: QrReply)
      modifies this, registry
      modifies if SessionIdOf(sessionId, freshId) in instances then {instances[SessionIdOf(sessionId, freshId)]} else {}
      ensures id == SessionIdOf(sessionId, freshId) && KeptOrMade(id)
      ensures reply == if fetched.Gave? && fetched.value.JObject? then QrRouteReply(fetched.value.fields) else QrFailed
      ensures !reply.QrIssued? ==> registry.flags == old(registry.flags)
      ensures instances[id].ticketInfo == if id in old(instances) then old(instances[id].ticketInfo) else None
      ensures !reply.QrIssued? ==>
        var m := instances[id];
        var reset := fetched.Gave? && fetched.value.JObject? && JsonTruthy(Field(fetched.value.fields, "success"));
        && m.pollerAlive == (if id in old(instances) then old(instances[id].pollerAlive) else false)
        && (reset ==> m.currentQrUuid == JNull && m.loginStatus == JBool(false) && m.qrStatusResult == WaitingResult)
        && (!reset && id in old(instances) ==>
             && m.currentQrUuid == old(instances[id].currentQrUuid)
             && m.loginStatus == old(instances[id].loginStatus)
             && m.qrStatusResult == old(instances[id].qrStatusResult))
        && (!reset && id !in old(instances) ==> m.Blank())
      ensures reply.QrIssued? ==>
        var m := instances[id];
        var u := reply.uuid;
        var wasAlive := if id in old(instances) then old(instances[id].pollerAlive) else false;
        var runs := JsonTruthy(u) && !wasAlive;
        var k := FirstStop(replies);
        var finished := runs && k < |replies| && Final(replies[k]);
        && m.currentQrUuid == u
        && registry.flags == (if finished then old(registry.flags)[u := JBool(true)] - {u} else old(registry.flags)[u := JBool(true)])
        && m.loginStatus == JBool(finished && Succeeded(replies[k].value.fields))
        && m.qrStatusResult == (if runs then LastResult(replies, k, WaitingResult) else WaitingResult)
        && m.pollerAlive == (if runs then k == |replies| else wasAlive)
    {
      var m;
      id, m := GetManager(sessionId, freshId);
      var r := m.GetQrCode(fetched);
      if r.None? {
        return id, QrFailed;
      }
      reply := QrRouteReply(r.value);
      if reply.QrIssued? {
        registry.flags := registry.flags[reply.uuid := JBool(true)];
        m.StartQrPolling(registry, replies);
      }
    }

    /** The login-status route, answered from the session's own manager. */
    method CheckLoginStatus(sessionId: Option<string>, freshId: string, uuid: string)
      returns (id: string, reply: LoginStatusReply)
      modifies this
      ensures id == SessionIdOf(sessionId, freshId) && KeptOrMade(id)
      ensures id !in old(instances) ==> instances[id].Blank()
      ensures reply == LoginStatusResponse(uuid, instances[id].currentQrUuid, instances[id].qrStatusResult,
                                           instances[id].loginStatus)
    {
      var m;
      id, m := GetManager(sessionId, freshId);
      reply := LoginStatusResponse(uuid, m.currentQrUuid, m.qrStatusResult, m.loginStatus);
    }

    /** The passenger-list route. */
    method GetPassengers(sessionId: Option<string>, freshId: string,
                         fetched: Answer<Option<seq<map<string, Json>>>>)
      returns (id: string, reply: PassengersReply)
      modifies this
      ensures id == SessionIdOf(sessionId, freshId) && KeptOrMade(id)
      ensures id !in old(instances) ==> instances[id].Blank()
      ensures reply == PassengersResponse(instances[id].loginStatus, fetched)
    {
      var m;
      id, m := GetManager(sessionId, freshId);
      if !JsonTruthy(m.loginStatus) {
        return id, PassengersNeedLogin;
      }
      match fetched
      case Threw =>
        reply := PassengersFailed;
      case Gave(None) =>
        reply := NoPassengers;
      case Gave(Some(ps)) =>
        if ps == [] {
          reply := NoPassengers;
        } else {
          var list := NormalisePassengers(ps);
          reply := PassengerList(list);
        }
    }

    /** The booking route: the parameters are checked before the session's
        manager is looked up; when one is missing no manager is looked up
        or made, and `id` is the cookie's id, or empty without one. */
    method SubmitBooking(sessionId: Option<string>, freshId: string, body: Json,
                         fetched: Answer<Option<seq<map<string, Json>>>>,
                         execute: BookingOrder -> Answer<bool>)
      returns (id: string, reply: SubmitReply)
      modifies this
      ensures !OrderParams(body) ==> instances == old(instances) && reply == SubmitResponse(body, JBool(false), fetched, execute)
      ensures !OrderParams(body) ==> id == if Truthy(sessionId) then sessionId.value else ""
      ensures OrderParams(body) ==> id == SessionIdOf(sessionId, freshId) && KeptOrMade(id)
      ensures OrderParams(body) && id !in old(instances) ==> instances[id].Blank()
      ensures OrderParams(body) ==> reply == SubmitResponse(body, instances[id].loginStatus, fetched, execute)
    {
      if !OrderParams(body) {
        id := if Truthy(sessionId) then sessionId.value else "";
        return id, SubmitResponse(body, JBool(false), fetched, execute);
      }
      var m;
      id, m := GetManager(sessionId, freshId);
      reply := SubmitResponse(body, m.loginStatus, fetched, execute);
    }
  }
}
