/** The station table: parsing the upstream `station_name.js` text into an
    ordered name -> code dictionary, and the two lookups on it. */
module Stations {
  import opened Common
  import opened Strings

  /** A dictionary with string keys, as (key, value) pairs in insertion
      order. */
  type Dict<V> = seq<(string, V)>

  /** The station table: name -> code. */
  type Table = Dict<string>

  /** A dictionary holds each key at most once. */
  predicate KeysDistinct<V>(t: Dict<V>) {
    forall i, j :: 0 <= i < j < |t| ==> t[i].0 != t[j].0
  }

  predicate HasName<V>(t: Dict<V>, name: string) {
    exists i :: 0 <= i < |t| && t[i].0 == name
  }

  /** `t.get(name)` */
  function Lookup<V>(t: Dict<V>, name: string): (r: Option<V>)
    ensures r.None? <==> !HasName(t, name)
    ensures r.Some? ==> exists i :: 0 <= i < |t| && t[i] == (name, r.value)
    decreases |t|
  {
    if t == [] then None
    else if t[0].0 == name then Some(t[0].1)
    else
      var r := Lookup(t[1..], name);
      assert HasName(t[1..], name) ==> HasName(t, name);
      assert r.Some? ==> exists i :: 0 <= i < |t| && t[i] == (name, r.value) by {
        if r.Some? {
          var i :| 0 <= i < |t[1..]| && t[1..][i] == (name, r.value);
          assert t[i + 1] == (name, r.value);
        }
      }
      r
  }

  /** In a dictionary the entry stored under a name is the one `get` finds. */
  lemma {:induction false} LookupAt<V>(t: Dict<V>, i: int)
    requires KeysDistinct(t) && 0 <= i < |t|
    ensures Lookup(t, t[i].0) == Some(t[i].1)
    decreases |t|
  {
    if i > 0 {
      LookupAt(t[1..], i - 1);
    }
  }

  /** `t[k] = v`: an existing name keeps its position and takes the new code;
      a new name is appended at the end. */
  function Put<V>(t: Dict<V>, k: string, v: V): (r: Dict<V>)
    requires KeysDistinct(t)
    ensures KeysDistinct(r)
    ensures HasName(t, k) ==> |r| == |t|
    ensures !HasName(t, k) ==> r == t + [(k, v)]
    ensures forall i :: 0 <= i < |t| ==> r[i] == if t[i].0 == k then (k, v) else t[i]
    decreases |t|
  {
    if t == [] then [(k, v)]
    else if t[0].0 == k then [(k, v)] + t[1..]
    else
      var rest := Put(t[1..], k, v);
      assert HasName(t, k) ==> HasName(t[1..], k);
      [t[0]] + rest
  }

  /** After `t[k] = v`, `get(k)` is `v` and every other name reads as before. */
  lemma PutLookup<V>(t: Dict<V>, k: string, v: V, n: string)
    requires KeysDistinct(t)
    ensures Lookup(Put(t, k, v), n) == if n == k then Some(v) else Lookup(t, n)
  {
    var r := Put(t, k, v);
    if HasName(r, n) {
      var i :| 0 <= i < |r| && r[i].0 == n;
      LookupAt(r, i);
      if i < |t| && t[i].0 == n {
        LookupAt(t, i);
      }
    }
  }

  // -----------------------------------------------------------------------
  // Parsing station_name.js

  /** `content[content.find("'") + 1:content.rfind("'")]` */
  function Payload(content: string): string {
    Slice(content, FindFirst(content, '\'') + 1, FindLast(content, '\''))
  }

  lemma FirstQuoteNotAfterLast(content: string)
    ensures FindFirst(content, '\'') <= FindLast(content, '\'')
  {
  }

  /** The payload is the text strictly between the first and the last single
      quote; with one quote it is empty, and with none Python's slice
      `[0:-1]` drops only the last character. */
  lemma PayloadBetweenQuotes(content: string)
    ensures var f, l := FindFirst(content, '\''), FindLast(content, '\'');
      && (f >= 0 && f < l ==> Payload(content) == content[f + 1..l])
      && (f >= 0 && f == l ==> Payload(content) == [])
      && (f == -1 && content != [] ==> Payload(content) == content[..|content| - 1])
      && (content == [] ==> Payload(content) == [])
  {
    FirstQuoteNotAfterLast(content);
  }

  /** What one `@`-segment adds: `fields[1] -> fields[2]`, unless the segment
      is empty or has at most two `|`-fields. */
  function Contribution(segment: string): (r: Option<(string, string)>)
    ensures r.Some? <==> segment != "" && |Split(segment, '|')| > 2
  {
    if segment == "" then None
    else
      var fields := Split(segment, '|');
      if |fields| > 2 then Some((fields[1], fields[2])) else None
  }

  /** The dictionary built from the segments in order. */
  function BuildTable(segments: seq<string>): (t: Table)
    ensures KeysDistinct(t)
    decreases |segments|
  {
    if segments == [] then []
    else
      var t := BuildTable(segments[..|segments| - 1]);
      match Contribution(segments[|segments| - 1])
      case None => t
      case Some(kv) => Put(t, kv.0, kv.1)
  }

  /** The table the download builds from the script text. */
  function ParseStations(content: string): Table {
    BuildTable(Split(Payload(content), '@'))
  }

  /** The code the last segment naming `name` gives it, if any. */
  function LastCode(segments: seq<string>, name: string): Option<string>
    decreases |segments|
  {
    if segments == [] then None
    else
      var c := Contribution(segments[|segments| - 1]);
      if c.Some? && c.value.0 == name then Some(c.value.1)
      else LastCode(segments[..|segments| - 1], name)
  }

  /** Every contributing segment is recorded, skipped segments add nothing,
      and when a name repeats the later segment's code wins. */
  lemma {:induction false} BuildTableLookup(segments: seq<string>, name: string)
    ensures Lookup(BuildTable(segments), name) == LastCode(segments, name)
    decreases |segments|
  {
    if segments != [] {
      var prefix := segments[..|segments| - 1];
      BuildTableLookup(prefix, name);
      var c := Contribution(segments[|segments| - 1]);
      if c.Some? {
        PutLookup(BuildTable(prefix), c.value.0, c.value.1, name);
      }
    }
  }

  /** A segment naming a station not seen before appends it at the end, so
      the table lists stations in order of first appearance. */
  lemma NewNameAppended(segments: seq<string>, segment: string)
    requires Contribution(segment).Some?
    requires !HasName(BuildTable(segments), Contribution(segment).value.0)
    ensures BuildTable(segments + [segment]) == BuildTable(segments) + [Contribution(segment).value]
  {
    assert (segments + [segment])[..|segments|] == segments;
  }

  // -----------------------------------------------------------------------
  // The manager object

  class StationManager {
    /** name -> code, in insertion order */
    var stations: Table

    ghost predicate Valid()
      reads this
    {
      KeysDistinct(stations)
    }

    /** Starts from the table already cached on disk. */
    constructor (cached: Table)
      requires KeysDistinct(cached)
      ensures Valid() && stations == cached
    {
      stations := cached;
    }

    /** Refreshes the table from a download: `None` stands for a request that
        raised, which leaves the previous table in place; otherwise the table
        is replaced, in one assignment, by the parsed one. */
    method DownloadStations(response: Option<string>)
      requires Valid()
      modifies this
      ensures Valid()
      ensures response.None? ==> stations == old(stations)
      ensures response.Some? ==> stations == ParseStations(response.value)
    {
      if response.None? {
        return;
      }
      var data := Payload(response.value);
      var segments := Split(data, '@');
      var dict: Table := [];
      var i := 0;
      while i < |segments|
        invariant 0 <= i <= |segments|
        invariant dict == BuildTable(segments[..i])
      {
        assert segments[..i + 1][..i] == segments[..i];
        assert segments[..i + 1][i] == segments[i];
        var segment := segments[i];
        if segment != "" {
          var fields := Split(segment, '|');
          if |fields| > 2 {
            dict := Put(dict, fields[1], fields[2]);
          }
        }
        i := i + 1;
      }
      assert segments[..i] == segments;
      stations := dict;
    }

    /** `get_code(name)`: the code stored under `name`, `None` when absent. */
    function GetCode(name: string): (r: Option<string>)
      reads this
      requires Valid()
      ensures r.None? <==> forall i :: 0 <= i < |stations| ==> stations[i].0 != name
      ensures forall i :: 0 <= i < |stations| && stations[i].0 == name ==> r == Some(stations[i].1)
    {
      var r := Lookup(stations, name);
      assert forall i :: 0 <= i < |stations| && stations[i].0 == name ==> r == Some(stations[i].1) by {
        forall i | 0 <= i < |stations| && stations[i].0 == name {
          LookupAt(stations, i);
        }
      }
      r
    }

    /** `get_name(code)`: the first name in table order whose code is `code`,
        `None` when no entry has it; the name found maps back to `code`. */
    method GetName(code: string) returns (r: Option<string>)
      requires Valid()
      ensures r.None? <==> forall i :: 0 <= i < |stations| ==> stations[i].1 != code
      ensures r.Some? ==> exists i :: 0 <= i < |stations| && stations[i] == (r.value, code)
                                      && forall j :: 0 <= j < i ==> stations[j].1 != code
      ensures r.Some? ==> GetCode(r.value) == Some(code)
    {
      var i := 0;
      while i < |stations|
        invariant 0 <= i <= |stations|
        invariant forall j :: 0 <= j < i ==> stations[j].1 != code
      {
        if stations[i].1 == code {
          LookupAt(stations, i);
          return Some(stations[i].0);
        }
        i := i + 1;
      }
      return None;
    }
  }
}
