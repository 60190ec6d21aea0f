/** The query front end of the booking helper: station names are checked
    against the cached station table, the date is normalised, the booking
    object's own query is called, and its answer is filtered and sorted; the
    batch form runs that query once per date and keeps going past failures. */
module SmartQuery {
  import opened Common
  import opened Strings
  import opened Stations
  import opened StationSearch
  import opened Dates
  import opened LeftTicket
  import opened StableSort
  import opened TrainFilter

  /** The booking object's `query_ticket(from_city, to_city, date)`:
      `None`, or the list it returned. */
  type Fetch = (string, string, string) -> Option<seq<TrainItem>>

  /** What the query depends on besides its arguments: the station cache,
      the day `datetime.now()` reads, the booking object's query, and its
      `ticket_info` attribute (`None` when it has none). */
  datatype Service = Service(cache: Table, today: Date, fetch: Fetch, ticketInfo: Option<TicketInfo>)

  predicate ServiceValid(svc: Service) {
    KeysDistinct(svc.cache) && ValidDate(svc.today)
  }

  /** The exceptions `smart_query_tickets` lets escape. */
  datatype QueryError =
    | StationNotFound(fromCity: string, toCity: string)   // the `ValueError`
    | BadDate(dateError: DateError)                        // `format_date` raised
    | FilterFailed(filterError: FilterError)               // the filter raised

  /** A falsy code for either city sends the lookup to the city lists, and
      an empty list for either city is an error. */
  predicate StationsMissing(cache: Table, fromCity: string, toCity: string)
    requires KeysDistinct(cache)
  {
    (!Truthy(StationCode(cache, fromCity)) || !Truthy(StationCode(cache, toCity)))
    && (Matching(cache, fromCity) == [] || Matching(cache, toCity) == [])
  }

  /** `smart_query_tickets`: the records returned, or the exception raised. */
  function SmartQueryResult(svc: Service, fromCity: string, toCity: string, dateInput: string,
                            trainTypes: string, sortBy: string): (r: Result<seq<TrainRecord>, QueryError>)
    requires ServiceValid(svc)
    ensures r.Err? && r.error.StationNotFound? ==> r.error == StationNotFound(fromCity, toCity)
    ensures !StationsMissing(svc.cache, fromCity, toCity) && FormatDate(svc.today, dateInput).Ok? ==>
      var trains := svc.fetch(fromCity, toCity, FormatDate(svc.today, dateInput).value);
      (trains.None? || trains.value == []) ==> r == Ok([])
  {
    if StationsMissing(svc.cache, fromCity, toCity) then Err(StationNotFound(fromCity, toCity))
    else
      match FormatDate(svc.today, dateInput)
      case Err(e) => Err(BadDate(e))
      case Ok(date) =>
        var trains := svc.fetch(fromCity, toCity, date);
        if trains.None? || trains.value == [] then Ok([])
        else
          match FilterAndSort(trains.value, trainTypes, sortBy, svc.ticketInfo)
          case Err(e) => Err(FilterFailed(e))
          case Ok(records) => Ok(records)
  }

  /** The station error is raised exactly when some city matches no
      station name at all: a city with a truthy code always has a matching
      station, so the fallback only fails when a list is empty. */
  lemma StationErrorIffNoMatch(svc: Service, fromCity: string, toCity: string, dateInput: string,
                               trainTypes: string, sortBy: string)
    requires ServiceValid(svc)
    ensures SmartQueryResult(svc, fromCity, toCity, dateInput, trainTypes, sortBy) == Err(StationNotFound(fromCity, toCity))
      <==> Matching(svc.cache, fromCity) == [] || Matching(svc.cache, toCity) == []
  {
    MatchingNonEmptyIffCode(svc.cache, fromCity);
    MatchingNonEmptyIffCode(svc.cache, toCity);
  }

  /** A date error is raised only when the stations were found and a
      relative word runs past the end of the calendar. */
  lemma DateErrorOnlyAtCalendarEnd(svc: Service, fromCity: string, toCity: string, dateInput: string,
                                   trainTypes: string, sortBy: string)
    requires ServiceValid(svc)
    ensures var r := SmartQueryResult(svc, fromCity, toCity, dateInput, trainTypes, sortBy);
      r.Err? && r.error.BadDate? <==>
        !StationsMissing(svc.cache, fromCity, toCity) && RelativeOffset(dateInput).Some?
        && AddDays(svc.today, RelativeOffset(dateInput).value).None?
  {
    if RelativeOffset(dateInput).Some? {
      RelativeDates(svc.today, dateInput);
    }
  }

  /** Whatever is returned passed the type filter and was read from the
      list the booking's query returned. */
  lemma ResultFiltered(svc: Service, fromCity: string, toCity: string, dateInput: string,
                       trainTypes: string, sortBy: string, x: TrainRecord)
    requires ServiceValid(svc)
    requires SmartQueryResult(svc, fromCity, toCity, dateInput, trainTypes, sortBy).Ok?
    requires x in SmartQueryResult(svc, fromCity, toCity, dateInput, trainTypes, sortBy).value
    ensures Passes(x, TypeTokens(trainTypes))
    ensures var trains := svc.fetch(fromCity, toCity, FormatDate(svc.today, dateInput).value);
      trains.Some? && exists i :: 0 <= i < |trains.value| && DecodeEntry(trains.value[i], svc.ticketInfo) == Keep(x)
  {
    var trains := svc.fetch(fromCity, toCity, FormatDate(svc.today, dateInput).value).value;
    var tokens := TypeTokens(trainTypes);
    var collected := Collect(trains, tokens, svc.ticketInfo).value;
    FilterAndSortKeeps(trains, trainTypes, sortBy, svc.ticketInfo);
    assert x in multiset(collected) by {
      assert x in multiset(FilterAndSort(trains, trainTypes, sortBy, svc.ticketInfo).value);
    }
    CollectFromItems(trains, tokens, svc.ticketInfo, x);
  }

  /** With `"time"` or `"duration"` the records come out ordered by that
      field. */
  lemma ResultOrdered(svc: Service, fromCity: string, toCity: string, dateInput: string,
                      trainTypes: string, sortBy: string, i: int, j: int)
    requires ServiceValid(svc) && SortKeyOf(sortBy).Some?
    requires SmartQueryResult(svc, fromCity, toCity, dateInput, trainTypes, sortBy).Ok?
    requires var out := SmartQueryResult(svc, fromCity, toCity, dateInput, trainTypes, sortBy).value;
      0 <= i < j < |out|
    ensures var out := SmartQueryResult(svc, fromCity, toCity, dateInput, trainTypes, sortBy).value;
      LessEq(Key(SortKeyOf(sortBy).value, out[i]), Key(SortKeyOf(sortBy).value, out[j]))
  {
    var trains := svc.fetch(fromCity, toCity, FormatDate(svc.today, dateInput).value).value;
    FilterAndSortOrders(trains, trainTypes, sortBy, svc.ticketInfo);
  }

  /** Over the command-line client, whose `query_ticket` returns `None` on
      every path, the helper never returns a train: it returns `[]` or
      raises. */
  lemma CommandLineBookingFindsNothing(svc: Service, fromCity: string, toCity: string, dateInput: string,
                                       trainTypes: string, sortBy: string)
    requires ServiceValid(svc)
    requires forall a, b, c :: svc.fetch(a, b, c).None?
    ensures var r := SmartQueryResult(svc, fromCity, toCity, dateInput, trainTypes, sortBy);
      r.Ok? ==> r.value == []
  {
  }

  /** `smart_query_tickets`, over the lookups and the filter as the source
      runs them. */
  method SmartQueryTickets(svc: Service, fromCity: string, toCity: string, dateInput: string,
                           trainTypes: string, sortBy: string) returns (r: Result<seq<TrainRecord>, QueryError>)
    requires ServiceValid(svc)
    ensures r == SmartQueryResult(svc, fromCity, toCity, dateInput, trainTypes, sortBy)
  {
    var fromCode := GetStationCode(svc.cache, fromCity);
    var toCode := GetStationCode(svc.cache, toCity);
    if !Truthy(fromCode) || !Truthy(toCode) {
      var fromStations := GetStationsInCity(svc.cache, fromCity);
      var toStations := GetStationsInCity(svc.cache, toCity);
      if fromStations == [] || toStations == [] {
        return Err(StationNotFound(fromCity, toCity));
      }
    }
    var formatted := FormatDate(svc.today, dateInput);
    if formatted.Err? {
      return Err(BadDate(formatted.error));
    }
    var trains := svc.fetch(fromCity, toCity, formatted.value);
    if trains.None? || trains.value == [] {
      return Ok([]);
    }
    var filtered := FilterAndSortTrains(trains.value, trainTypes, sortBy, svc.ticketInfo);
    if filtered.Err? {
      return Err(FilterFailed(filtered.error));
    }
    r := Ok(filtered.value);
  }

  // -----------------------------------------------------------------------
  // batch_query_multiple_dates

  /** What one date contributes: the records, or `[]` when the query raised. */
  function DateResult(svc: Service, fromCity: string, toCity: string, date: string): seq<TrainRecord>
    requires ServiceValid(svc)
  {
    match SmartQueryResult(svc, fromCity, toCity, date, "", "")
    case Ok(records) => records
    case Err(_) => []
  }

  /** The `results` dictionary after the given dates, in order. */
  function Batch(svc: Service, fromCity: string, toCity: string, dates: seq<string>): (r: Dict<seq<TrainRecord>>)
    requires ServiceValid(svc)
    ensures KeysDistinct(r)
    decreases |dates|
  {
    if dates == [] then []
    else
      var last := dates[|dates| - 1];
      Put(Batch(svc, fromCity, toCity, dates[..|dates| - 1]), last, DateResult(svc, fromCity, toCity, last))
  }

  lemma BatchSnoc(svc: Service, fromCity: string, toCity: string, dates: seq<string>, date: string)
    requires ServiceValid(svc)
    ensures Batch(svc, fromCity, toCity, dates + [date])
      == Put(Batch(svc, fromCity, toCity, dates), date, DateResult(svc, fromCity, toCity, date))
  {
    var all := dates + [date];
    assert all[..|all| - 1] == dates && all[|all| - 1] == date;
  }

  /** The keys are exactly the requested dates, and each maps to its own
      query's records, or to `[]` when that query raised: a failing date
      does not disturb the others. */
  lemma {:induction false} BatchLookup(svc: Service, fromCity: string, toCity: string, dates: seq<string>, d: string)
    requires ServiceValid(svc)
    ensures Lookup(Batch(svc, fromCity, toCity, dates), d) ==
      if d in dates then Some(DateResult(svc, fromCity, toCity, d)) else None
    decreases |dates|
  {
    if dates != [] {
      var prefix := dates[..|dates| - 1];
      var last := dates[|dates| - 1];
      BatchLookup(svc, fromCity, toCity, prefix, d);
      PutLookup(Batch(svc, fromCity, toCity, prefix), last, DateResult(svc, fromCity, toCity, last), d);
      assert dates == prefix + [last];
    }
  }

  /** Distinct dates come back in the order they were asked for. */
  lemma {:induction false} BatchKeepsOrder(svc: Service, fromCity: string, toCity: string, dates: seq<string>)
    requires ServiceValid(svc)
    requires forall i, j :: 0 <= i < j < |dates| ==> dates[i] != dates[j]
    ensures var r := Batch(svc, fromCity, toCity, dates);
      |r| == |dates| && forall i :: 0 <= i < |r| ==> r[i].0 == dates[i]
    decreases |dates|
  {
    if dates != [] {
      var prefix := dates[..|dates| - 1];
      var last := dates[|dates| - 1];
      BatchKeepsOrder(svc, fromCity, toCity, prefix);
      var before := Batch(svc, fromCity, toCity, prefix);
      assert !HasName(before, last) by {
        forall i | 0 <= i < |before| ensures before[i].0 != last {
          assert before[i].0 == prefix[i] == dates[i];
        }
      }
    }
  }

  /** `batch_query_multiple_dates`, with its loop over the dates. */
  method BatchQueryMultipleDates(svc: Service, fromCity: string, toCity: string, dates: seq<string>)
    returns (results: Dict<seq<TrainRecord>>)
    requires ServiceValid(svc)
    ensures results == Batch(svc, fromCity, toCity, dates)
  {
    results := [];
    var i := 0;
    while i < |dates|
      invariant 0 <= i <= |dates|
      invariant results == Batch(svc, fromCity, toCity, dates[..i])
    {
      assert dates[..i + 1] == dates[..i] + [dates[i]];
      BatchSnoc(svc, fromCity, toCity, dates[..i], dates[i]);
      var tickets := SmartQueryTickets(svc, fromCity, toCity, dates[i], "", "");
      var value := if tickets.Ok? then tickets.value else [];
      results := Put(results, dates[i], value);
      i := i + 1;
    }
    assert dates[..i] == dates;
  }
}
