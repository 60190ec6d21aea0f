/** The remaining-ticket query of the command-line client: the station check,
    the request it sends, how it reads the JSON envelope of the reply, and
    the rows it lists.  The reply is a parameter; the client prints its
    findings and returns `None` on every path, so the model's outputs are
    the request sent and the report printed. */
module LeftTicket {
  import opened Common
  import opened Strings
  import opened Stations

  // -----------------------------------------------------------------------
  // One result row: `|`-separated fields, of which the client reads
  // 3 (train number), 8 (departure), 9 (arrival), 10 (duration),
  // 11 (bookable flag) and 30, 31, 32 (second class, first class and
  // business seats left).

  /** Fields a row must have for every index the client reads to exist. */
  const RowFields := 33

  datatype Train = Train(trainNo: string, startTime: string, arriveTime: string, duration: string,
                         zeNum: string, zyNum: string, swzNum: string)

  /** An empty seat count is shown as `--`. */
  function SeatText(s: string): (r: string)
    ensures r != ""
    ensures s != "" ==> r == s
  {
    if s == "" then "--" else s
  }

  /** The train a row with enough fields describes. */
  function TrainOf(fields: seq<string>): Train
    requires |fields| >= RowFields
  {
    Train(fields[3], fields[8], fields[9], fields[10],
          SeatText(fields[30]), SeatText(fields[31]), SeatText(fields[32]))
  }

  /** A row the client can read: `None` exactly when indexing it would
      raise `IndexError`. */
  function DecodeRow(item: string): (r: Option<Train>)
    ensures r.None? <==> |Split(item, '|')| < RowFields
  {
    var fields := Split(item, '|');
    if |fields| < RowFields then None else Some(TrainOf(fields))
  }

  /** Field 11 is `Y`: the train can be booked. */
  predicate Bookable(item: string)
    requires |Split(item, '|')| >= RowFields
  {
    Split(item, '|')[11] == "Y"
  }

  /** A row as the server writes it, with `filler` in every field the client
      does not read. */
  function RowFieldsOf(t: Train, canBook: string, filler: string): (fields: seq<string>)
    ensures |fields| == RowFields
  {
    [filler, filler, filler, t.trainNo, filler, filler, filler, filler,
     t.startTime, t.arriveTime, t.duration, canBook]
    + seq(18, _ => filler)
    + [t.zeNum, t.zyNum, t.swzNum]
  }

  predicate NoBar(s: string) { '|' !in s }

  predicate TrainWithoutBars(t: Train) {
    NoBar(t.trainNo) && NoBar(t.startTime) && NoBar(t.arriveTime) && NoBar(t.duration)
    && NoBar(t.zeNum) && NoBar(t.zyNum) && NoBar(t.swzNum)
  }

  /** Reading a row back: a train whose fields hold no `|` and whose seat
      counts are shown as they are decodes from the row the server writes
      for it, and the row is bookable exactly when its flag is `Y`. */
  lemma DecodeRowOfWritten(t: Train, canBook: string, filler: string)
    requires TrainWithoutBars(t) && NoBar(canBook) && NoBar(filler)
    requires t.zeNum != "" && t.zyNum != "" && t.swzNum != ""
    ensures var line := Join(RowFieldsOf(t, canBook, filler), '|');
      && DecodeRow(line) == Some(t)
      && (Bookable(line) <==> canBook == "Y")
  {
    var fields := RowFieldsOf(t, canBook, filler);
    assert forall k :: 0 <= k < |fields| ==> '|' !in fields[k] by {
      forall k | 0 <= k < |fields| ensures '|' !in fields[k] {
        if 12 <= k < 30 {
          assert fields[k] == filler;
        }
      }
    }
    SplitJoin(fields, '|');
  }

  // -----------------------------------------------------------------------
  // The reply envelope

  /** What `resp.json()["data"]` turned out to be. */
  datatype Data =
    | NoData                                   // no `data` key: `get` yields `{}`
    | Scalar                                   // null, a number or a bool: `"result" in` raises
    | Sequence(hasResult: bool)                // a string or a list: `in` tests membership,
                                               // and subscripting it with `"result"` raises
    | Object(result: Option<ResultValue>, hasMap: bool)

  /** One element the row loop visits: a string it splits, or any other
      value, whose missing `split` raises `AttributeError`. */
  datatype RowItem = RowText(text: string) | NotText

  /** The value under `result`, as `len` and the row loop see it. */
  datatype ResultValue =
    | NoLength                      // null, a number or a bool: `len` raises `TypeError`
    | Iterable(items: seq<RowItem>) // a list (its elements), a string (its characters)
                                    // or an object (its keys, in insertion order)

  /** Iterating a string visits its characters, each a one-character string. */
  function Characters(s: string): (items: seq<RowItem>)
    ensures |items| == |s|
    ensures forall k :: 0 <= k < |s| ==> items[k].RowText? && |items[k].text| == 1
  {
    seq(|s|, k requires 0 <= k < |s| => RowText([s[k]]))
  }

  /** Iterating a list of JSON values: strings are rows, anything else is not. */
  function Elements(xs: seq<Json>): (items: seq<RowItem>)
    ensures |items| == |xs|
    ensures forall k :: 0 <= k < |xs| ==> (items[k].RowText? <==> xs[k].JStr?)
  {
    seq(|xs|, k requires 0 <= k < |xs| => if xs[k].JStr? then RowText(xs[k].s) else NotText)
  }

  datatype Reply =
    | Raised            // the request or `resp.json()` raised
    | Decoded(data: Data)

  /** The query string the client sends. */
  datatype Request = Request(trainDate: string, fromStation: string, toStation: string, purpose: string)

  /** What the client reports. */
  datatype Report =
    | UnknownStation(name: string)              // a station name without a code
    | FormatChanged                             // no `result` in `data`
    | Failed                                    // an exception before the header was printed
    | Listing(rows: seq<Train>, aborted: bool)  // the bookable rows printed, and whether a
                                                // row ended the listing with an exception

  /** The loop body raises on an element: it is not a string, or it has
      too few fields. */
  predicate Raises(item: RowItem) {
    item.NotText? || DecodeRow(item.text).None?
  }

  /** One element's effect on the listing so far: once aborted nothing
      changes; an element that raises aborts; a bookable row is printed. */
  function RowStep(listed: (seq<Train>, bool), item: RowItem): (seq<Train>, bool) {
    if listed.1 then listed
    else if item.NotText? then (listed.0, true)
    else
      match DecodeRow(item.text)
      case None => (listed.0, true)
      case Some(t) => if Bookable(item.text) then (listed.0 + [t], false) else listed
  }

  /** The rows listed from `items`, in order, and whether an element ended
      the listing by raising. */
  function ListRows(items: seq<RowItem>): (r: (seq<Train>, bool))
    ensures |r.0| <= |items|
    decreases |items|
  {
    if items == [] then ([], false)
    else RowStep(ListRows(items[..|items| - 1]), items[|items| - 1])
  }

  lemma ListRowsSnoc(items: seq<RowItem>, item: RowItem)
    ensures ListRows(items + [item]) == RowStep(ListRows(items), item)
  {
    var all := items + [item];
    assert all[..|all| - 1] == items && all[|all| - 1] == item;
  }

  /** Every listed train comes from a readable, bookable row. */
  lemma {:induction false} ListedRowsComeFromItems(items: seq<RowItem>, t: Train)
    requires t in ListRows(items).0
    ensures exists i :: 0 <= i < |items| && items[i].RowText? && DecodeRow(items[i].text) == Some(t) && Bookable(items[i].text)
    decreases |items|
  {
    var prefix := items[..|items| - 1];
    var last := items[|items| - 1];
    if t in ListRows(prefix).0 {
      ListedRowsComeFromItems(prefix, t);
      var i :| 0 <= i < |prefix| && prefix[i].RowText?
        && DecodeRow(prefix[i].text) == Some(t) && Bookable(prefix[i].text);
      assert prefix[i] == items[i];
    } else {
      assert last.RowText? && DecodeRow(last.text) == Some(t) && Bookable(last.text);
    }
  }

  /** The listing is cut short exactly when some element raises. */
  lemma {:induction false} AbortedIffRaisingRow(items: seq<RowItem>)
    ensures ListRows(items).1 <==> exists i :: 0 <= i < |items| && Raises(items[i])
    decreases |items|
  {
    if items != [] {
      var prefix := items[..|items| - 1];
      AbortedIffRaisingRow(prefix);
      assert forall i :: 0 <= i < |prefix| ==> prefix[i] == items[i];
    }
  }

  /** Once an element has raised, later elements change nothing. */
  lemma {:induction false} AbortedStays(items: seq<RowItem>, more: seq<RowItem>)
    requires ListRows(items).1
    ensures ListRows(items + more) == ListRows(items)
    decreases |more|
  {
    if more == [] {
      assert items + more == items;
    } else {
      var shorter := more[..|more| - 1];
      AbortedStays(items, shorter);
      ListRowsSnoc(items + shorter, more[|more| - 1]);
      assert items + more == (items + shorter) + [more[|more| - 1]];
    }
  }

  /** An element that raises after elements that do not: the listing is
      that of the elements before it, marked aborted, whatever follows. */
  lemma ListingStopsAtFirstRaise(before: seq<RowItem>, bad: RowItem, after: seq<RowItem>)
    requires forall i :: 0 <= i < |before| ==> !Raises(before[i])
    requires Raises(bad)
    ensures ListRows(before + [bad] + after) == (ListRows(before).0, true)
  {
    AbortedIffRaisingRow(before);
    ListRowsSnoc(before, bad);
    AbortedStays(before + [bad], after);
  }

  /** Every readable bookable row is listed when nothing raises. */
  lemma {:induction false} BookableRowsListed(items: seq<RowItem>, i: int)
    requires 0 <= i < |items| && !ListRows(items).1
    requires items[i].RowText? && DecodeRow(items[i].text).Some? && Bookable(items[i].text)
    ensures DecodeRow(items[i].text).value in ListRows(items).0
    decreases |items|
  {
    var prefix := items[..|items| - 1];
    if i < |items| - 1 {
      assert prefix[i] == items[i];
      BookableRowsListed(prefix, i);
    }
  }

  /** A string under `result`: the empty string lists nothing and ends
      normally; any other string raises on its first character, since a
      one-character string splits into at most two fields. */
  lemma StringResultListsNothing(s: string)
    ensures ListRows(Characters(s)) == ([], s != "")
  {
    var items := Characters(s);
    if s != "" {
      var c := s[0];
      if c == '|' {
        SplitWithoutSeparator("", '|');
        SplitAtFirst("", '|', "");
        assert [] + ['|'] + [] == [c];
      } else {
        SplitWithoutSeparator([c], '|');
      }
      assert items[0] == RowText([c]);
      assert Raises(items[0]);
      assert items == [] + [items[0]] + items[1..];
      ListingStopsAtFirstRaise([], items[0], items[1..]);
    }
  }

  /** `query_ticket`: the request sent (if any) and the report printed. */
  function QueryOutcome(stations: Table, fromName: string, toName: string, date: string, reply: Reply)
    : (r: (Option<Request>, Report))
    requires KeysDistinct(stations)
    ensures r.0.Some? <==> Truthy(Lookup(stations, fromName)) && Truthy(Lookup(stations, toName))
    ensures r.0.Some? ==> r.0.value == Request(date, Lookup(stations, fromName).value, Lookup(stations, toName).value, "ADULT")
    ensures !Truthy(Lookup(stations, fromName)) ==> r.1 == UnknownStation(fromName)
    ensures Truthy(Lookup(stations, fromName)) && !Truthy(Lookup(stations, toName)) ==> r.1 == UnknownStation(toName)
    ensures r.0.Some? ==> r.1 == Envelope(reply)
  {
    var fromCode := Lookup(stations, fromName);
    var toCode := Lookup(stations, toName);
    if !Truthy(fromCode) then (None, UnknownStation(fromName))
    else if !Truthy(toCode) then (None, UnknownStation(toName))
    else
      var request := Request(date, fromCode.value, toCode.value, "ADULT");
      (Some(request), Envelope(reply))
  }

  /** How the reply is read once the request went out. */
  function Envelope(reply: Reply): Report {
    match reply
    case Raised => Failed
    case Decoded(data) =>
      match data
      case NoData => FormatChanged
      case Scalar => Failed
      case Sequence(hasResult) => if hasResult then Failed else FormatChanged
      case Object(result, hasMap) =>
        if result.None? then FormatChanged
        else if !hasMap then Failed
        else
          match result.value
          case NoLength => Failed
          case Iterable(items) => var (rows, aborted) := ListRows(items); Listing(rows, aborted)
  }

  /** The replies that get a listing are exactly objects carrying `map` and
      a `result` that has a length, and the listing is that of its rows; an
      object without `result` reports a changed format, and any other
      readable reply fails before the header. */
  lemma EnvelopeCases(reply: Reply)
    ensures Envelope(reply).Listing? <==>
      reply.Decoded? && reply.data.Object? && reply.data.hasMap && reply.data.result.Some? && reply.data.result.value.Iterable?
    ensures Envelope(reply).Listing? ==>
      (Envelope(reply).rows, Envelope(reply).aborted) == ListRows(reply.data.result.value.items)
    ensures Envelope(reply) == FormatChanged <==>
      reply.Decoded? && (reply.data.NoData? || reply.data == Sequence(false) || (reply.data.Object? && reply.data.result.None?))
  {
  }

  /** `query_ticket`, over the client's station manager. */
  method QueryTicket(manager: StationManager, fromName: string, toName: string, date: string, reply: Reply)
    returns (sent: Option<Request>, report: Report)
    requires manager.Valid()
    ensures (sent, report) == QueryOutcome(manager.stations, fromName, toName, date, reply)
  {
    var fromCode := manager.GetCode(fromName);
    var toCode := manager.GetCode(toName);
    if !Truthy(fromCode) {
      return None, UnknownStation(fromName);
    }
    if !Truthy(toCode) {
      return None, UnknownStation(toName);
    }
    sent := Some(Request(date, fromCode.value, toCode.value, "ADULT"));
    if reply.Raised? {
      return sent, Failed;
    }
    var data := reply.data;
    if data.NoData? || data == Sequence(false) || (data.Object? && data.result.None?) {
      return sent, FormatChanged;
    }
    if !data.Object? || !data.hasMap || data.result.value.NoLength? {
      return sent, Failed;
    }
    var rows, aborted := PrintRows(data.result.value.items);
    report := Listing(rows, aborted);
  }

  /** The row loop of `query_ticket`: it prints the bookable rows until an
      element that is not a string, or a row with too few fields, raises. */
  method PrintRows(items: seq<RowItem>) returns (rows: seq<Train>, aborted: bool)
    ensures (rows, aborted) == ListRows(items)
  {
    rows := [];
    aborted := false;
    var i := 0;
    while i < |items| && !aborted
      invariant 0 <= i <= |items|
      invariant (rows, aborted) == ListRows(items[..i])
    {
      assert items[..i + 1] == items[..i] + [items[i]];
      ListRowsSnoc(items[..i], items[i]);
      if items[i].NotText? {
        aborted := true;
      } else {
        var fields := Split(items[i].text, '|');
        if |fields| < RowFields {
          aborted := true;
        } else if fields[11] == "Y" {
          rows := rows + [TrainOf(fields)];
        }
      }
      i := i + 1;
    }
    if aborted {
      AbortedStays(items[..i], items[i..]);
      assert items[..i] + items[i..] == items;
    } else {
      assert items[..i] == items;
    }
  }
}
