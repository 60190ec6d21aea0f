/** The key-value store the web front end keeps login sessions in: string
    keys holding JSON text with an expiry instant, written with `setex`,
    read with `get` and removed with `delete`.  Time is a parameter (seconds
    on the store's clock). */
module SessionStore {
  import opened Common

  /** What a key holds, as `json.loads` reads it back. */
  datatype Stored =
    | EmptyText                         // the empty string: falsy, never decoded
    | Malformed                         // text `json.loads` rejects
    | Decoded(value: Json)              // a JSON document

  /** The prefix of every session key. */
  const SessionPrefix := "session:"

  /** Seconds a saved session lives: 24 hours. */
  const SessionTtl := 86400

  /** `f"session:{session_id}"` */
  function SessionKey(id: string): (k: string)
    ensures |k| == |SessionPrefix| + |id| && k[..|SessionPrefix|] == SessionPrefix
  {
    SessionPrefix + id
  }

  /** Distinct sessions never share a key. */
  lemma SessionKeyInjective(a: string, b: string)
    ensures SessionKey(a) == SessionKey(b) <==> a == b
  {
    if SessionKey(a) == SessionKey(b) {
      assert a == SessionKey(a)[|SessionPrefix|..];
    }
  }

  class Store {
    /** `USE_REDIS and redis_client`: a connection was made at start-up. */
    const connected: bool
    /** Whether the server answers now; a call to a server that does not
        raises. */
    var reachable: bool
    /** key -> (text, instant at which it expires) */
    var entries: map<string, (Stored, int)>

    constructor (connected: bool, reachable: bool)
      ensures this.connected == connected && this.reachable == reachable && entries == map[]
    {
      this.connected := connected;
      this.reachable := reachable;
      entries := map[];
    }

    /** What `get(key)` returns at instant `now`: nothing once the entry
        has expired. */
    function Lookup(key: string, now: int): (r: Option<Stored>)
      reads this
      ensures r.Some? ==> key in entries && now < entries[key].1 && r.value == entries[key].0
      ensures r.None? ==> key !in entries || entries[key].1 <= now
    {
      if key in entries && now < entries[key].1 then Some(entries[key].0) else None
    }

    /** `setex(key, ttl, text)` at instant `now`; false when it raised. */
    method SetEx(key: string, ttl: int, text: Stored, now: int) returns (ok: bool)
      modifies this
      ensures ok == reachable && reachable == old(reachable)
      ensures entries == if ok then old(entries)[key := (text, now + ttl)] else old(entries)
    {
      if !reachable {
        return false;
      }
      entries := entries[key := (text, now + ttl)];
      return true;
    }

    /** `delete(key)`; false when it raised. */
    method Delete(key: string) returns (ok: bool)
      modifies this
      ensures ok == reachable && reachable == old(reachable)
      ensures entries == if ok then old(entries) - {key} else old(entries)
    {
      if !reachable {
        return false;
      }
      entries := entries - {key};
      return true;
    }
  }
}
