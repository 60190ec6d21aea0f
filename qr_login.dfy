/** The command-line QR-code login: ask for a QR code, poll its status until
    the phone confirms or the code expires, then activate the session with
    the two-call `uamtk` -> `uamauthclient` handshake.  The upstream server is
    a stream of replies: the reply to the n-th request posted is `server(n)`. */
module QrLogin {
  import opened Common

  /** What a post returned: a decoded JSON object, or an exception (the
      request failed, the body was not JSON, or it was JSON but not an
      object, on which `.get` raises). */
  datatype Reply = Raised | Object(fields: map<string, Json>)

  /** The requests the client posts. */
  datatype Call =
    | CreateQr                  // passport/web/create-qr64
    | CheckQr(uuid: Json)       // passport/web/checkqr with the recorded uuid
    | Uamtk                     // passport/web/auth/uamtk
    | UamAuthClient(tk: Json)   // otn/uamauthclient with the token uamtk gave

  /** The requests posted and the value returned; `result` is `None` when
      the poll loop was still running after the polls the model allowed. */
  datatype Outcome = Outcome(calls: seq<Call>, result: Option<bool>)

  // -----------------------------------------------------------------------
  // Step 1: the QR code

  /** `resp_json.get("result_code") == "0"`: the string, not the number. */
  predicate QrCreated(reply: Reply) {
    reply.Object? && Field(reply.fields, "result_code") == JStr("0")
  }

  // -----------------------------------------------------------------------
  // Step 3: the activation handshake

  /** The `newapptk` of a `uamtk` reply, when it is truthy. */
  function Token(reply: Reply): (t: Option<Json>)
    ensures t.Some? ==> reply.Object? && t.value == Field(reply.fields, "newapptk") && JsonTruthy(t.value)
    ensures t.None? ==> reply.Raised? || !JsonTruthy(Field(reply.fields, "newapptk"))
  {
    if reply.Object? && JsonTruthy(Field(reply.fields, "newapptk")) then Some(Field(reply.fields, "newapptk"))
    else None
  }

  /** `result.get("result_code") == 0` on the `uamauthclient` reply. */
  predicate Authorised(reply: Reply) {
    reply.Object? && JsonEqualsZero(Field(reply.fields, "result_code"))
  }

  /** `cookie_auth` when its first request is the n-th. */
  function Auth(server: nat -> Reply, n: nat): Outcome {
    match Token(server(n))
    case None => Outcome([Uamtk], Some(false))
    case Some(tk) => Outcome([Uamtk, UamAuthClient(tk)], Some(Authorised(server(n + 1))))
  }

  /** The handshake succeeds exactly when `uamtk` handed out a truthy token,
      that token was the one sent on, and `uamauthclient` answered with
      `result_code` 0; without a token `uamauthclient` is never called. */
  lemma AuthSucceedsOnlyWithToken(server: nat -> Reply, n: nat)
    ensures Auth(server, n).result.Some?
    ensures Auth(server, n).result == Some(true) <==>
      server(n).Object? && JsonTruthy(Field(server(n).fields, "newapptk"))
      && Auth(server, n).calls == [Uamtk, UamAuthClient(Field(server(n).fields, "newapptk"))]
      && Authorised(server(n + 1))
    ensures (forall tk :: UamAuthClient(tk) !in Auth(server, n).calls) <==> Token(server(n)).None?
  {
  }

  // -----------------------------------------------------------------------
  // Step 2: the poll loop

  /** What one `checkqr` reply means to the loop. */
  datatype Status = Waiting | Scanned | Confirmed | Expired | Unrecognised | Failed

  function StatusOf(reply: Reply): Status {
    match reply
    case Raised => Failed
    case Object(fields) =>
      var code := Field(fields, "result_code");
      if code == JStr("0") then Waiting
      else if code == JStr("1") then Scanned
      else if code == JStr("2") then Confirmed
      else if code == JStr("3") then Expired
      else Unrecognised
  }

  /** Only a confirmed or an expired code ends the loop. */
  predicate Terminal(s: Status) {
    s == Confirmed || s == Expired
  }

  /** `k` status checks for `uuid`. */
  function Checks(uuid: Json, k: nat): (cs: seq<Call>)
    ensures |cs| == k && forall i :: 0 <= i < k ==> cs[i] == CheckQr(uuid)
  {
    if k == 0 then [] else Checks(uuid, k - 1) + [CheckQr(uuid)]
  }

  function Prefixed(cs: seq<Call>, o: Outcome): Outcome {
    Outcome(cs + o.calls, o.result)
  }

  /** `check_qr_status` when its first request is the n-th, over at most
      `polls` status checks. */
  function Poll(server: nat -> Reply, n: nat, uuid: Json, polls: nat): Outcome
    decreases polls
  {
    if polls == 0 then Outcome([], None)
    else
      match StatusOf(server(n))
      case Confirmed => Prefixed([CheckQr(uuid)], Auth(server, n + 1))
      case Expired => Outcome([CheckQr(uuid)], Some(false))
      case _ => Prefixed([CheckQr(uuid)], Poll(server, n + 1, uuid, polls - 1))
  }

  lemma PrefixedTwice(a: seq<Call>, b: seq<Call>, o: Outcome)
    ensures Prefixed(a, Prefixed(b, o)) == Prefixed(a + b, o)
  {
    assert a + (b + o.calls) == (a + b) + o.calls;
  }

  /** One more check that did not end the loop. */
  lemma PollSnoc(server: nat -> Reply, n: nat, uuid: Json, polls: nat, i: nat)
    requires i < polls && !Terminal(StatusOf(server(n + i)))
    requires Poll(server, n, uuid, polls) == Prefixed(Checks(uuid, i), Poll(server, n + i, uuid, polls - i))
    ensures Poll(server, n, uuid, polls) == Prefixed(Checks(uuid, i + 1), Poll(server, n + (i + 1), uuid, polls - (i + 1)))
  {
    var rest := Poll(server, n + (i + 1), uuid, polls - (i + 1));
    assert Poll(server, n + i, uuid, polls - i) == Prefixed([CheckQr(uuid)], rest);
    PrefixedTwice(Checks(uuid, i), [CheckQr(uuid)], rest);
  }

  /** The check that ended the loop. */
  lemma PollEnds(server: nat -> Reply, n: nat, uuid: Json, polls: nat, i: nat)
    requires i < polls && Terminal(StatusOf(server(n + i)))
    ensures Prefixed(Checks(uuid, i), Poll(server, n + i, uuid, polls - i)) ==
      if StatusOf(server(n + i)) == Expired then Outcome(Checks(uuid, i + 1), Some(false))
      else Prefixed(Checks(uuid, i + 1), Auth(server, n + i + 1))
  {
    if StatusOf(server(n + i)) == Confirmed {
      PrefixedTwice(Checks(uuid, i), [CheckQr(uuid)], Auth(server, n + i + 1));
    }
  }

  /** Checks that found no terminal status only add themselves. */
  lemma {:induction false} PollSkips(server: nat -> Reply, n: nat, uuid: Json, polls: nat, j: nat)
    requires j <= polls
    requires forall i :: n <= i < n + j ==> !Terminal(StatusOf(server(i)))
    ensures Poll(server, n, uuid, polls) == Prefixed(Checks(uuid, j), Poll(server, n + j, uuid, polls - j))
    decreases j
  {
    if j == 0 {
      assert Checks(uuid, 0) + Poll(server, n, uuid, polls).calls == Poll(server, n, uuid, polls).calls;
    } else {
      var k := j - 1;
      PollSkips(server, n, uuid, polls, k);
      assert !Terminal(StatusOf(server(n + k)));
      PollSnoc(server, n, uuid, polls, k);
      assert n + (k + 1) == n + j && polls - (k + 1) == polls - j;
    }
  }

  /** The loop stops at the first terminal status: with `3` it returns
      false, with `2` it returns exactly what the handshake that follows
      returns; every earlier reply, whatever it was, only led to another
      check. */
  lemma PollStopsAtFirstTerminal(server: nat -> Reply, n: nat, uuid: Json, polls: nat, j: nat)
    requires j < polls && Terminal(StatusOf(server(n + j)))
    requires forall i :: n <= i < n + j ==> !Terminal(StatusOf(server(i)))
    ensures Poll(server, n, uuid, polls) ==
      if StatusOf(server(n + j)) == Expired then Outcome(Checks(uuid, j + 1), Some(false))
      else Prefixed(Checks(uuid, j + 1), Auth(server, n + j + 1))
  {
    PollSkips(server, n, uuid, polls, j);
    PollEnds(server, n, uuid, polls, j);
  }

  /** Without a terminal status the loop never returns: it is still polling
      after every check allowed. */
  lemma PollKeepsPolling(server: nat -> Reply, n: nat, uuid: Json, polls: nat)
    requires forall i :: n <= i < n + polls ==> !Terminal(StatusOf(server(i)))
    ensures Poll(server, n, uuid, polls) == Outcome(Checks(uuid, polls), None)
  {
    PollSkips(server, n, uuid, polls, polls);
    assert Checks(uuid, polls) + [] == Checks(uuid, polls);
  }

  /** The outcome of the loop once it is known how many checks found no
      terminal status. */
  lemma PollDecided(server: nat -> Reply, n: nat, uuid: Json, polls: nat, i: nat)
    requires i <= polls && forall j :: n <= j < n + i ==> !Terminal(StatusOf(server(j)))
    requires i < polls ==> Terminal(StatusOf(server(n + i)))
    ensures Poll(server, n, uuid, polls) ==
      if i == polls then Outcome(Checks(uuid, polls), None)
      else if StatusOf(server(n + i)) == Expired then Outcome(Checks(uuid, i + 1), Some(false))
      else Prefixed(Checks(uuid, i + 1), Auth(server, n + i + 1))
  {
    if i == polls {
      PollKeepsPolling(server, n, uuid, polls);
    } else {
      PollStopsAtFirstTerminal(server, n, uuid, polls, i);
    }
  }

  // -----------------------------------------------------------------------
  // The client object

  class Login {
    /** The reply to the n-th request. */
    const server: nat -> Reply
    /** `self.uuid` */
    var uuid: Json
    /** The requests posted so far; the next reply is `server(|calls|)`. */
    var calls: seq<Call>

    constructor (server: nat -> Reply)
      ensures this.server == server && uuid == JStr("") && calls == []
    {
      this.server := server;
      uuid := JStr("");
      calls := [];
    }

    /** Posts a request and returns the server's reply to it. */
    method Post(c: Call) returns (reply: Reply)
      modifies this
      ensures reply == server(|old(calls)|)
      ensures calls == old(calls) + [c] && uuid == old(uuid)
    {
      reply := server(|calls|);
      calls := calls + [c];
    }

    /** `get_qr_code`: true and the new uuid recorded exactly when the
        server answered `result_code` `"0"`; otherwise false and the uuid
        left as it was. */
    method GetQrCode() returns (ok: bool)
      modifies this
      ensures ok == QrCreated(server(|old(calls)|))
      ensures uuid == if ok then Field(server(|old(calls)|).fields, "uuid") else old(uuid)
      ensures calls == old(calls) + [CreateQr]
    {
      var reply := Post(CreateQr);
      if reply.Object? && Field(reply.fields, "result_code") == JStr("0") {
        uuid := Field(reply.fields, "uuid");
        return true;
      }
      return false;
    }

    /** `cookie_auth` */
    method CookieAuth() returns (ok: bool)
      modifies this
      ensures var o := Auth(server, |old(calls)|);
        calls == old(calls) + o.calls && o.result == Some(ok)
      ensures uuid == old(uuid)
    {
      var first := Post(Uamtk);
      if first.Raised? {
        return false;
      }
      var newapptk := Field(first.fields, "newapptk");
      if !JsonTruthy(newapptk) {
        return false;
      }
      var second := Post(UamAuthClient(newapptk));
      ok := second.Object? && JsonEqualsZero(Field(second.fields, "result_code"));
    }

    /** The loop of `check_qr_status` up to its first terminal status:
        `i` checks found none, and when `i < polls` check `i` found
        `status`. */
    method AwaitTerminal(polls: nat) returns (i: nat, status: Status)
      modifies this
      ensures i <= polls && uuid == old(uuid)
      ensures forall j :: |old(calls)| <= j < |old(calls)| + i ==> !Terminal(StatusOf(server(j)))
      ensures i < polls ==>
        && Terminal(status) && status == StatusOf(server(|old(calls)| + i))
        && calls == old(calls) + Checks(uuid, i + 1)
      ensures i == polls ==> calls == old(calls) + Checks(uuid, polls)
    {
      ghost var start := calls;
      ghost var n := |calls|;
      var u := uuid;
      i := 0;
      status := Failed;
      assert calls == start + Checks(u, 0);
      while i < polls
        invariant 0 <= i <= polls && u == uuid && n + i == |calls|
        invariant calls == start + Checks(u, i)
        invariant forall j :: n <= j < n + i ==> !Terminal(StatusOf(server(j)))
      {
        var reply := Post(CheckQr(u));
        status := StatusOf(reply);
        if Terminal(status) {
          return;
        }
        i := i + 1;
      }
    }

    /** `check_qr_status`, over at most `polls` status checks; `None` when it
        was still polling after them. */
    method CheckQrStatus(polls: nat) returns (r: Option<bool>)
      modifies this
      ensures var o := Poll(server, |old(calls)|, old(uuid), polls);
        calls == old(calls) + o.calls && r == o.result
      ensures uuid == old(uuid)
    {
      ghost var start := calls;
      ghost var n := |calls|;
      var i, status := AwaitTerminal(polls);
      PollDecided(server, n, uuid, polls, i);
      if i == polls {
        return None;
      }
      if status == Confirmed {
        var ok := CookieAuth();
        assert calls == start + (Checks(uuid, i + 1) + Auth(server, n + i + 1).calls);
        return Some(ok);
      }
      return Some(false);
    }

    /** `run`: the status is polled only after a QR code was issued. */
    method Run(polls: nat) returns (r: Option<bool>)
      modifies this
      ensures !QrCreated(server(|old(calls)|)) ==> r == Some(false) && calls == old(calls) + [CreateQr]
      ensures QrCreated(server(|old(calls)|)) ==>
        var o := Poll(server, |old(calls)| + 1, Field(server(|old(calls)|).fields, "uuid"), polls);
        calls == old(calls) + [CreateQr] + o.calls && r == o.result
    {
      var created := GetQrCode();
      if !created {
        return Some(false);
      }
      r := CheckQrStatus(polls);
    }
  }
}
