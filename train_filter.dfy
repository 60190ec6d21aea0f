/** Filtering and ordering of the trains a query returned: the train-type
    filter read from a comma-separated list, the two shapes a train entry
    can take (a raw `|`-separated row, or a bare train number looked up in
    the booking's ticket information), and the stable sort by departure
    time or by duration. */
module TrainFilter {
  import opened Common
  import opened Strings
  import opened LeftTicket
  import opened StableSort

  // -----------------------------------------------------------------------
  // The train-type filter

  /** The ideographic comma, accepted as a separator beside `,`. */
  const FullWidthComma: char := '\U{FF0C}'

  /** The type names in `trainTypes`: the full-width comma is read as `,`,
      the text is split on `,`, and each part is stripped; empty parts are
      dropped. */
  function TypeTokens(trainTypes: string): (tokens: set<string>)
    ensures forall t :: t in tokens ==> t != "" && ',' !in t
  {
    var parts := Split(ReplaceChar(trainTypes, FullWidthComma, ','), ',');
    var tokens := set p | p in parts && Strip(p) != "" :: Strip(p);
    assert forall t :: t in tokens ==> ',' !in t by {
      forall t | t in tokens ensures ',' !in t {
        var p :| p in parts && Strip(p) == t;
        assert ',' !in p;
      }
    }
    tokens
  }

  /** A character in neither the parts nor the separator is not in their
      join. */
  lemma {:induction false} JoinAvoids(parts: seq<string>, sep: char, c: char)
    requires |parts| >= 1 && c != sep
    requires forall k :: 0 <= k < |parts| ==> c !in parts[k]
    ensures c !in Join(parts, sep)
    decreases |parts|
  {
    if |parts| > 1 {
      JoinAvoids(parts[1..], sep, c);
    }
  }

  /** Round trip: type names that are non-empty, already stripped and free
      of either comma, written out separated by `,`, read back as exactly
      the set of those names. */
  lemma TypeTokensOfJoined(names: seq<string>)
    requires |names| >= 1
    requires forall k :: 0 <= k < |names| ==>
      names[k] != "" && Strip(names[k]) == names[k] && ',' !in names[k] && FullWidthComma !in names[k]
    ensures TypeTokens(Join(names, ',')) == set t | t in names
  {
    var text := Join(names, ',');
    JoinAvoids(names, ',', FullWidthComma);
    ReplaceAbsent(text, FullWidthComma, ',');
    SplitJoin(names, ',');
    TokensOfParts(text, names);
    StrippedParts(names);
  }

  /** `TypeTokens` only depends on the parts the text splits into. */
  lemma TokensOfParts(text: string, parts: seq<string>)
    requires Split(ReplaceChar(text, FullWidthComma, ','), ',') == parts
    ensures TypeTokens(text) == set p | p in parts && Strip(p) != "" :: Strip(p)
  {
  }

  /** Parts that are already stripped and non-empty are their own tokens. */
  lemma StrippedParts(parts: seq<string>)
    requires forall k :: 0 <= k < |parts| ==> parts[k] != "" && Strip(parts[k]) == parts[k]
    ensures (set p | p in parts && Strip(p) != "" :: Strip(p)) == set t | t in parts
  {
    forall t | t in parts ensures t in set p | p in parts && Strip(p) != "" :: Strip(p) {
      assert Strip(t) == t;
    }
  }

  /** Replacing a character that does not occur changes nothing. */
  lemma ReplaceAbsent(s: string, from: char, to: char)
    requires from !in s
    ensures ReplaceChar(s, from, to) == s
  {
    assert forall k :: 0 <= k < |s| ==> ReplaceChar(s, from, to)[k] == s[k];
  }

  /** The full-width comma separates exactly like `,`. */
  lemma FullWidthCommaSeparates(before: string, after: string)
    ensures TypeTokens(before + [FullWidthComma] + after) == TypeTokens(before + [','] + after)
  {
    var wide, plain := before + [FullWidthComma] + after, before + [','] + after;
    assert ReplaceChar(wide, FullWidthComma, ',') == ReplaceChar(plain, FullWidthComma, ',');
  }

  /** The loop that fills `train_type_set`. */
  method TrainTypeSet(trainTypes: string) returns (tokens: set<string>)
    ensures tokens == TypeTokens(trainTypes)
  {
    tokens := {};
    if trainTypes == "" {
      assert Split(ReplaceChar(trainTypes, FullWidthComma, ','), ',') == [""];
      return;
    }
    var parts := Split(ReplaceChar(trainTypes, FullWidthComma, ','), ',');
    var i := 0;
    while i < |parts|
      invariant 0 <= i <= |parts|
      invariant tokens == set p | p in parts[..i] && Strip(p) != "" :: Strip(p)
    {
      assert parts[..i + 1] == parts[..i] + [parts[i]];
      var t := Strip(parts[i]);
      if t != "" {
        tokens := tokens + {t};
      }
      i := i + 1;
    }
    assert parts[..i] == parts;
  }

  // -----------------------------------------------------------------------
  // Train entries

  /** `ticket_info`: train number -> field name -> value. */
  type TicketInfo = map<string, map<string, string>>

  /** An element of the train list: a string, or anything else (skipped). */
  datatype TrainItem = Text(s: string) | NotText

  /** A train record with its type, the first character of its number. */
  datatype TrainRecord = TrainRecord(train: Train, trainType: string)

  /** Why the filter raised. */
  datatype FilterError =
    | EmptyTrainNumber   // `parts[3][0]` on an empty train-number field
    | NoTicketInfo       // the booking object has no `ticket_info`

  datatype Entry = Skip | Keep(record: TrainRecord) | Raise(error: FilterError)

  /** `info.get(key, '--')` */
  function InfoField(info: map<string, string>, key: string): (v: string)
    ensures key !in info ==> v == "--"
  {
    if key in info then info[key] else "--"
  }

  /** The record for a bare train number. */
  function RecordFromInfo(trainNo: string, info: map<string, string>): TrainRecord {
    TrainRecord(
      Train(trainNo, InfoField(info, "start_time"), InfoField(info, "arrive_time"), InfoField(info, "duration"),
            InfoField(info, "ze_num"), InfoField(info, "zy_num"), InfoField(info, "swz_num")),
      if trainNo != "" then [trainNo[0]] else "")
  }

  /** How one element of the list is read; `ticketInfo` is `None` when the
      booking object has no such attribute. */
  function DecodeEntry(item: TrainItem, ticketInfo: Option<TicketInfo>): (e: Entry)
    ensures item.NotText? ==> e == Skip
    ensures e.Keep? ==> |e.record.trainType| <= 1
    ensures e.Keep? && item.Text? && '|' in item.s ==>
      && DecodeRow(item.s).Some? && DecodeRow(item.s).value.trainNo != ""
      && e.record == TrainRecord(DecodeRow(item.s).value, [DecodeRow(item.s).value.trainNo[0]])
    ensures item.Text? && '|' in item.s ==>
      (e.Raise? <==> DecodeRow(item.s).Some? && DecodeRow(item.s).value.trainNo == "")
    ensures item.Text? && '|' in item.s && DecodeRow(item.s).None? ==> e == Skip
    ensures item.Text? && '|' !in item.s ==> (e == Raise(NoTicketInfo) <==> ticketInfo.None?)
    ensures item.Text? && '|' in item.s && DecodeRow(item.s).Some? && DecodeRow(item.s).value.trainNo != "" ==>
      e == Keep(TrainRecord(DecodeRow(item.s).value, [DecodeRow(item.s).value.trainNo[0]]))
    ensures item.Text? && '|' !in item.s && ticketInfo.Some? ==>
      && e.Keep? && e.record.train.trainNo == item.s
      && e.record == RecordFromInfo(item.s, if item.s in ticketInfo.value then ticketInfo.value[item.s] else map[])
  {
    match item
    case NotText => Skip
    case Text(s) =>
      if '|' in s then
        var parts := Split(s, '|');
        if |parts| >= RowFields then
          if parts[3] == "" then Raise(EmptyTrainNumber)
          else Keep(TrainRecord(TrainOf(parts), [parts[3][0]]))
        else Skip
      else
        match ticketInfo
        case None => Raise(NoTicketInfo)
        case Some(table) =>
          var info := if s in table then table[s] else map[];
          Keep(RecordFromInfo(s, info))
  }

  /** The type filter lets a record through. */
  predicate Passes(r: TrainRecord, tokens: set<string>) {
    tokens == {} || r.trainType in tokens
  }

  /** One element's effect on the collection so far. */
  function Step(sofar: Result<seq<TrainRecord>, FilterError>, entry: Entry, tokens: set<string>)
    : Result<seq<TrainRecord>, FilterError>
  {
    if sofar.Err? then sofar
    else
      match entry
      case Raise(e) => Err(e)
      case Skip => sofar
      case Keep(x) => if Passes(x, tokens) then Ok(sofar.value + [x]) else sofar
  }

  /** The records collected from `items`, in order, or the error of the
      first element that raises. */
  function Collect(items: seq<TrainItem>, tokens: set<string>, ticketInfo: Option<TicketInfo>)
    : (r: Result<seq<TrainRecord>, FilterError>)
    ensures r.Ok? ==> |r.value| <= |items|
    ensures r.Ok? ==> forall x :: x in r.value ==> Passes(x, tokens)
    decreases |items|
  {
    if items == [] then Ok([])
    else Step(Collect(items[..|items| - 1], tokens, ticketInfo), DecodeEntry(items[|items| - 1], ticketInfo), tokens)
  }

  /** The collection fails exactly when some element raises. */
  lemma {:induction false} CollectErrIffRaise(items: seq<TrainItem>, tokens: set<string>, ticketInfo: Option<TicketInfo>)
    ensures Collect(items, tokens, ticketInfo).Err? <==> exists i :: 0 <= i < |items| && DecodeEntry(items[i], ticketInfo).Raise?
    decreases |items|
  {
    if items != [] {
      var prefix := items[..|items| - 1];
      CollectErrIffRaise(prefix, tokens, ticketInfo);
      assert forall i :: 0 <= i < |prefix| ==> prefix[i] == items[i];
    }
  }

  /** Every collected record is the reading of some element. */
  lemma {:induction false} CollectFromItems(items: seq<TrainItem>, tokens: set<string>, ticketInfo: Option<TicketInfo>, x: TrainRecord)
    requires Collect(items, tokens, ticketInfo).Ok? && x in Collect(items, tokens, ticketInfo).value
    ensures exists i :: 0 <= i < |items| && DecodeEntry(items[i], ticketInfo) == Keep(x)
    decreases |items|
  {
    var prefix := items[..|items| - 1];
    var last := items[|items| - 1];
    if Collect(prefix, tokens, ticketInfo).Ok? && x in Collect(prefix, tokens, ticketInfo).value {
      CollectFromItems(prefix, tokens, ticketInfo, x);
      var i :| 0 <= i < |prefix| && DecodeEntry(prefix[i], ticketInfo) == Keep(x);
      assert prefix[i] == items[i];
    } else {
      assert DecodeEntry(last, ticketInfo) == Keep(x);
    }
  }

  /** One more element extends the collection as the loop body does. */
  lemma CollectSnoc(items: seq<TrainItem>, x: TrainItem, tokens: set<string>, ticketInfo: Option<TicketInfo>)
    ensures Collect(items + [x], tokens, ticketInfo) ==
      Step(Collect(items, tokens, ticketInfo), DecodeEntry(x, ticketInfo), tokens)
  {
    var all := items + [x];
    assert all[..|all| - 1] == items && all[|all| - 1] == x;
  }

  /** Once an element has raised, later elements change nothing. */
  lemma {:induction false} CollectErrStays(items: seq<TrainItem>, more: seq<TrainItem>, tokens: set<string>, ticketInfo: Option<TicketInfo>)
    requires Collect(items, tokens, ticketInfo).Err?
    ensures Collect(items + more, tokens, ticketInfo) == Collect(items, tokens, ticketInfo)
    decreases |more|
  {
    if more == [] {
      assert items + more == items;
    } else {
      var shorter := more[..|more| - 1];
      CollectErrStays(items, shorter, tokens, ticketInfo);
      CollectSnoc(items + shorter, more[|more| - 1], tokens, ticketInfo);
      assert items + more == (items + shorter) + [more[|more| - 1]];
    }
  }

  /** The error reported is that of the first element that raises. */
  lemma CollectFirstError(before: seq<TrainItem>, bad: TrainItem, after: seq<TrainItem>, tokens: set<string>, ticketInfo: Option<TicketInfo>)
    requires forall i :: 0 <= i < |before| ==> !DecodeEntry(before[i], ticketInfo).Raise?
    requires DecodeEntry(bad, ticketInfo).Raise?
    ensures Collect(before + [bad] + after, tokens, ticketInfo) == Err(DecodeEntry(bad, ticketInfo).error)
  {
    CollectErrIffRaise(before, tokens, ticketInfo);
    CollectSnoc(before, bad, tokens, ticketInfo);
    CollectErrStays(before + [bad], after, tokens, ticketInfo);
  }

  /** Nothing that passes the filter is lost. */
  lemma {:induction false} CollectComplete(items: seq<TrainItem>, tokens: set<string>, ticketInfo: Option<TicketInfo>, i: int)
    requires 0 <= i < |items| && Collect(items, tokens, ticketInfo).Ok?
    requires DecodeEntry(items[i], ticketInfo).Keep? && Passes(DecodeEntry(items[i], ticketInfo).record, tokens)
    ensures DecodeEntry(items[i], ticketInfo).record in Collect(items, tokens, ticketInfo).value
    decreases |items|
  {
    var prefix := items[..|items| - 1];
    assert forall j :: 0 <= j < |prefix| ==> prefix[j] == items[j];
    if i < |items| - 1 {
      CollectComplete(prefix, tokens, ticketInfo, i);
    }
  }

  // -----------------------------------------------------------------------
  // The sort keys

  datatype SortKey = ByStartTime | ByDuration

  /** `sort_by`: `"time"` and `"duration"` sort; anything else keeps the
      order. */
  function SortKeyOf(sortBy: string): Option<SortKey> {
    if sortBy == "time" then Some(ByStartTime)
    else if sortBy == "duration" then Some(ByDuration)
    else None
  }

  function Key(k: SortKey, r: TrainRecord): string {
    match k
    case ByStartTime => r.train.startTime
    case ByDuration => r.train.duration
  }

  /** The sort key as a function of the record. */
  function KeyOf(k: SortKey): TrainRecord -> string {
    r => Key(k, r)
  }

  /** The list after the optional sort. */
  function Ordered(sortBy: string, records: seq<TrainRecord>): seq<TrainRecord> {
    match SortKeyOf(sortBy)
    case None => records
    case Some(k) => SortBy(KeyOf(k), records)
  }

  /** `_filter_and_sort_trains`: the outcome the loop and sort compute. */
  function FilterAndSort(items: seq<TrainItem>, trainTypes: string, sortBy: string, ticketInfo: Option<TicketInfo>)
    : Result<seq<TrainRecord>, FilterError>
  {
    match Collect(items, TypeTokens(trainTypes), ticketInfo)
    case Err(e) => Err(e)
    case Ok(records) => Ok(Ordered(sortBy, records))
  }

  /** The result holds the records that passed the filter, each passing
      the type filter, in list order unless a sort was asked for. */
  lemma FilterAndSortKeeps(items: seq<TrainItem>, trainTypes: string, sortBy: string, ticketInfo: Option<TicketInfo>)
    requires FilterAndSort(items, trainTypes, sortBy, ticketInfo).Ok?
    ensures var out := FilterAndSort(items, trainTypes, sortBy, ticketInfo).value;
      var collected := Collect(items, TypeTokens(trainTypes), ticketInfo).value;
      && multiset(out) == multiset(collected)
      && (forall x :: x in out ==> Passes(x, TypeTokens(trainTypes)))
      && (SortKeyOf(sortBy).None? ==> out == collected)
  {
    var collected := Collect(items, TypeTokens(trainTypes), ticketInfo).value;
    var out := FilterAndSort(items, trainTypes, sortBy, ticketInfo).value;
    if SortKeyOf(sortBy).Some? {
      SortByPermutes(KeyOf(SortKeyOf(sortBy).value), collected);
    }
    forall x | x in out ensures Passes(x, TypeTokens(trainTypes)) {
      assert x in multiset(out);
    }
  }

  /** With `"time"` or `"duration"` the result is ordered by that field,
      and records with equal values keep their relative order. */
  lemma FilterAndSortOrders(items: seq<TrainItem>, trainTypes: string, sortBy: string, ticketInfo: Option<TicketInfo>)
    requires FilterAndSort(items, trainTypes, sortBy, ticketInfo).Ok? && SortKeyOf(sortBy).Some?
    ensures var out := FilterAndSort(items, trainTypes, sortBy, ticketInfo).value;
      var collected := Collect(items, TypeTokens(trainTypes), ticketInfo).value;
      var k := SortKeyOf(sortBy).value;
      && (forall i, j :: 0 <= i < j < |out| ==> LessEq(Key(k, out[i]), Key(k, out[j])))
      && (forall v :: WithKey(KeyOf(k), v, out) == WithKey(KeyOf(k), v, collected))
  {
    var collected := Collect(items, TypeTokens(trainTypes), ticketInfo).value;
    var out := FilterAndSort(items, trainTypes, sortBy, ticketInfo).value;
    var k := SortKeyOf(sortBy).value;
    SortByIsSorted(KeyOf(k), collected);
    forall i, j | 0 <= i < j < |out| ensures LessEq(Key(k, out[i]), Key(k, out[j])) {
      SortedPairwise(KeyOf(k), out, i, j);
    }
    forall v {
      SortByStable(KeyOf(k), collected, v);
    }
  }

  /** The loop of `_filter_and_sort_trains` over the entries. */
  method CollectTrains(items: seq<TrainItem>, tokens: set<string>, ticketInfo: Option<TicketInfo>)
    returns (r: Result<seq<TrainRecord>, FilterError>)
    ensures r == Collect(items, tokens, ticketInfo)
  {
    var result: seq<TrainRecord> := [];
    var i := 0;
    while i < |items|
      invariant 0 <= i <= |items|
      invariant Collect(items[..i], tokens, ticketInfo) == Ok(result)
    {
      var entry := DecodeEntry(items[i], ticketInfo);
      assert Collect(items[..i + 1], tokens, ticketInfo) == Step(Ok(result), entry, tokens) by {
        assert items[..i + 1] == items[..i] + [items[i]];
        CollectSnoc(items[..i], items[i], tokens, ticketInfo);
      }
      if entry.Raise? {
        CollectErrStays(items[..i + 1], items[i + 1..], tokens, ticketInfo);
        assert items[..i + 1] + items[i + 1..] == items;
        return Err(entry.error);
      }
      if entry.Keep? && (tokens == {} || entry.record.trainType in tokens) {
        result := result + [entry.record];
      }
      i := i + 1;
    }
    assert items[..i] == items;
    r := Ok(result);
  }

  /** `_filter_and_sort_trains`: read the type filter, collect, then sort. */
  method FilterAndSortTrains(items: seq<TrainItem>, trainTypes: string, sortBy: string, ticketInfo: Option<TicketInfo>)
    returns (r: Result<seq<TrainRecord>, FilterError>)
    ensures r == FilterAndSort(items, trainTypes, sortBy, ticketInfo)
  {
    var tokens := TrainTypeSet(trainTypes);
    var collected := CollectTrains(items, tokens, ticketInfo);
    if collected.Err? {
      return Err(collected.error);
    }
    var records := collected.value;
    var key := SortKeyOf(sortBy);
    if key.Some? {
      records := SortBy(KeyOf(key.value), records);
    }
    r := Ok(records);
  }
}
