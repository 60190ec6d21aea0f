/** Station lookup for free-text queries over the cached station table: an
    exact name first, otherwise the first station whose name contains the
    query; and the list of all stations whose name contains it. */
module StationSearch {
  import opened Common
  import opened Strings
  import opened Stations

  /** The fuzzy test of `get_station_code`:
      `city in name or name.startswith(city)`. */
  predicate FuzzyMatch(name: string, city: string) {
    Contains(name, city) || StartsWith(name, city)
  }

  /** The `startswith` alternative adds nothing: the fuzzy test is exactly
      substring containment. */
  lemma FuzzyMatchIsContains(name: string, city: string)
    ensures FuzzyMatch(name, city) <==> Contains(name, city)
  {
    if StartsWith(name, city) {
      StartsWithIsContains(name, city);
    }
  }

  /** The code of the first entry, in table order, that passes the fuzzy test. */
  function FirstFuzzyCode(cache: Table, city: string): (r: Option<string>)
    ensures r.None? <==> forall i :: 0 <= i < |cache| ==> !FuzzyMatch(cache[i].0, city)
    ensures r.Some? ==> exists i :: 0 <= i < |cache| && FuzzyMatch(cache[i].0, city) && r.value == cache[i].1
                                    && forall j :: 0 <= j < i ==> !FuzzyMatch(cache[j].0, city)
    decreases |cache|
  {
    if cache == [] then None
    else if FuzzyMatch(cache[0].0, city) then Some(cache[0].1)
    else
      var r := FirstFuzzyCode(cache[1..], city);
      assert r.Some? ==> exists i :: 0 <= i < |cache| && FuzzyMatch(cache[i].0, city) && r.value == cache[i].1
                                     && forall j :: 0 <= j < i ==> !FuzzyMatch(cache[j].0, city) by {
        if r.Some? {
          var i :| 0 <= i < |cache[1..]| && FuzzyMatch(cache[1..][i].0, city) && r.value == cache[1..][i].1
                   && forall j :: 0 <= j < i ==> !FuzzyMatch(cache[1..][j].0, city);
          assert forall j :: 0 <= j < i + 1 ==> !FuzzyMatch(cache[j].0, city) by {
            forall j | 0 <= j < i + 1 ensures !FuzzyMatch(cache[j].0, city) {
              if j > 0 {
                assert cache[j] == cache[1..][j - 1];
              }
            }
          }
        }
      }
      r
  }

  /** The answer of `get_station_code(city)`. */
  function StationCode(cache: Table, city: string): (r: Option<string>)
    requires KeysDistinct(cache)
    ensures forall i :: 0 <= i < |cache| && cache[i].0 == city ==> r == Some(cache[i].1)
    ensures !HasName(cache, city) ==>
      (r.None? <==> forall i :: 0 <= i < |cache| ==> !Contains(cache[i].0, city))
    ensures !HasName(cache, city) && r.Some? ==>
      exists i :: 0 <= i < |cache| && Contains(cache[i].0, city) && r.value == cache[i].1
                  && forall j :: 0 <= j < i ==> !Contains(cache[j].0, city)
  {
    forall i | 0 <= i < |cache| {
      FuzzyMatchIsContains(cache[i].0, city);
    }
    if HasName(cache, city) then
      forall i | 0 <= i < |cache| && cache[i].0 == city {
        LookupAt(cache, i);
      }
      Lookup(cache, city)
    else FirstFuzzyCode(cache, city)
  }

  /** `get_station_code`: a dictionary hit first, then a scan in table order
      for the first fuzzy match. */
  method GetStationCode(cache: Table, city: string) returns (r: Option<string>)
    requires KeysDistinct(cache)
    ensures r == StationCode(cache, city)
  {
    if HasName(cache, city) {
      return Lookup(cache, city);
    }
    var i := 0;
    while i < |cache|
      invariant 0 <= i <= |cache|
      invariant forall j :: 0 <= j < i ==> !FuzzyMatch(cache[j].0, city)
    {
      if Contains(cache[i].0, city) || StartsWith(cache[i].0, city) {
        return Some(cache[i].1);
      }
      i := i + 1;
    }
    return None;
  }

  /** The entries whose name contains `city`, in table order. */
  function Matching(cache: Table, city: string): (r: Table)
    ensures |r| <= |cache|
    ensures forall e :: e in r ==> e in cache && Contains(e.0, city)
    ensures forall i :: 0 <= i < |cache| && Contains(cache[i].0, city) ==> cache[i] in r
    decreases |cache|
  {
    if cache == [] then []
    else
      var prefix := cache[..|cache| - 1];
      var last := cache[|cache| - 1];
      var r := Matching(prefix, city);
      assert forall i :: 0 <= i < |prefix| ==> prefix[i] == cache[i];
      if Contains(last.0, city) then r + [last] else r
  }

  lemma {:induction false} MatchingNone(cache: Table, city: string)
    requires forall j :: 0 <= j < |cache| ==> !Contains(cache[j].0, city)
    ensures Matching(cache, city) == []
    decreases |cache|
  {
    if cache != [] {
      MatchingNone(cache[..|cache| - 1], city);
    }
  }

  /** The first listed station is the first one in table order whose name
      contains the query, which is the station `smart_query_tickets` falls
      back to. */
  lemma {:induction false} MatchingHead(cache: Table, city: string, i: int)
    requires 0 <= i < |cache| && Contains(cache[i].0, city)
    requires forall j :: 0 <= j < i ==> !Contains(cache[j].0, city)
    ensures Matching(cache, city) != [] && Matching(cache, city)[0] == cache[i]
    decreases |cache|
  {
    var prefix := cache[..|cache| - 1];
    if i < |cache| - 1 {
      MatchingHead(prefix, city, i);
    } else {
      MatchingNone(prefix, city);
    }
  }

  /** `get_stations_in_city` finds something exactly when `get_station_code`
      does: an exact key contains itself, and otherwise both look for the
      same substring. */
  lemma MatchingNonEmptyIffCode(cache: Table, city: string)
    requires KeysDistinct(cache)
    ensures Matching(cache, city) != [] <==> StationCode(cache, city).Some?
  {
    if HasName(cache, city) {
      var i :| 0 <= i < |cache| && cache[i].0 == city;
      ContainsItself(city);
      assert cache[i] in Matching(cache, city);
    } else if Matching(cache, city) != [] {
      var e := Matching(cache, city)[0];
      assert e in cache;
    }
  }

  /** `get_stations_in_city`: appends, in table order, every entry whose name
      contains the query. */
  method GetStationsInCity(cache: Table, city: string) returns (result: Table)
    ensures result == Matching(cache, city)
  {
    result := [];
    var i := 0;
    while i < |cache|
      invariant 0 <= i <= |cache|
      invariant result == Matching(cache[..i], city)
    {
      assert cache[..i + 1][..i] == cache[..i];
      if Contains(cache[i].0, city) {
        result := result + [cache[i]];
      }
      i := i + 1;
    }
    assert cache[..i] == cache;
  }
}
