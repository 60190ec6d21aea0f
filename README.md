# 12306 ticket helper — a Dafny model

This project models the core of a small client for the 12306 railway
ticketing site. The client has five parts:

- **Station table.** It downloads `station_name.js`, parses it into an ordered
  name → code dictionary, and looks codes and names up in it
  (`stations.py`, modelled in `stations.dfy`).
- **Station search and date normalisation** (`mcp_integration.py`):
  - the exact-then-fuzzy station code lookup and the list of stations in a
    city (`station_search.dfy`);
  - `format_date`, which turns `今天`/`明天`/`后天`, `YYYYMMDD` and
    `Y/M/D`-style input into `YYYY-MM-DD` (`dates.dfy`, over a proleptic
    Gregorian calendar with day numbers as the reference);
  - the train-type filter and the optional stable sort by departure time or
    duration (`train_filter.dfy`, `stable_sort.dfy`);
  - the smart query and the batch query over several dates
    (`smart_query.dfy`).
- **Remaining-ticket query of the command-line client** (`main.py`,
  `left_ticket.dfy`). It does the station pre-check and builds the request
  sent. It checks the reply envelope. It lists the bookable rows until an element
  that is not a string, or a row with too few fields, raises.
- **QR-code login** (`test.py`, `qr_login.dfy`). It creates a code, polls its
  status until it is confirmed or expired, then activates the session with
  the `uamtk` → `uamauthclient` handshake.
- **Web front end's session layer** (`app.py`). This covers:
  - the key-value store with expiry (`session_store.dfy`);
  - the per-session `BookingManager`, covering save/load/clear of the
    session, the state reset when a QR code is issued, and the QR poll loop
    (`booking_manager.dfy`);
  - the manager registry, the save-after-request policy, and the
    login-status, QR-code, passenger-list and booking routes
    (`web_app.dfy`).

Dafny has no network, clock or threads, so each is replaced by a value:
- Every upstream reply is an input: a value, an oracle function, or a
  sequence of replies consumed in order.
- "Now" is a parameter.
- The poll loops run sequentially over the replies they are given.

Python semantics are written out where they matter:
- truthiness, `dict` insertion order (a sequence of pairs), `str.split`,
  `strip`, `find`/`rfind` and slicing;
- `int()` on ASCII text, `:02d` padding, list indexing with negative
  indices, and `or` chains;
- exceptions, as error results.

The booking object that `app.py` drives (`TicketBooking` in `main.py`) lacks
`ticket_info`, `get_qr_code_data`, `check_qr_status_once`,
`get_passengers_direct` and `execute_booking`. Their results are inputs of the
model, and `ticket_info` is an `Option`: `None` stands for the missing
attribute. Two behaviours follow from this:
- The command-line `query_ticket` always returns `None`. So a smart query over
  it returns `[]` or raises (`SmartQuery.CommandLineBookingFindsNothing`).
- `save_session` on a manager whose booking never had `ticket_info` assigned
  raises inside its `try` and returns false
  (`WebSession.BookingManager.SaveSession`).

## Model

| member | source | states |
|---|---|---|
| `Stations.Lookup` | stations.py:54-55 | `get(name)` is `None` exactly when no entry has the name; otherwise it returns a code stored under it |
| `Stations.LookupAt` | stations.py:54-55 | in a dictionary with distinct keys, the code stored under a name is the one `get` finds |
| `Stations.Put` | stations.py:34 | `d[name] = code` keeps keys distinct; an existing name keeps its position and takes the new code; a new name is appended |
| `Stations.PutLookup` | stations.py:34 | after `d[k] = v`, `get(k)` is `v` and every other name reads as before |
| `Stations.PayloadBetweenQuotes` | stations.py:21-23 | the payload is the text strictly between the first and last `'`; it is empty with one quote; with none, Python's `[0:-1]` drops the last character |
| `Stations.Contribution` | stations.py:28-33 | a segment contributes `fields[1] → fields[2]` exactly when it is non-empty and has more than two bar-separated fields |
| `Stations.BuildTable` | stations.py:25-34 | the dictionary built from the segments has distinct keys |
| `Stations.BuildTableLookup` | stations.py:25-36 | every contributing segment is recorded, skipped segments add nothing, and for a repeated name the last segment's code wins |
| `Stations.NewNameAppended` | stations.py:34 | a new station name goes to the end, so the table lists stations in order of first appearance |
| `Stations.StationManager.DownloadStations` | stations.py:12-42 | a download that raised leaves the table as it was; otherwise the table becomes the parsed one, whose keys are distinct |
| `Stations.StationManager.GetCode` | stations.py:54-55 | `None` exactly when no entry has the name; otherwise the code stored under it |
| `Stations.StationManager.GetName` | stations.py:57-61 | the first name in table order whose code matches, `None` when none does; the name found maps back to that code |
| `StationSearch.FuzzyMatchIsContains` | mcp_integration.py:36 | `city in name or name.startswith(city)` is exactly substring containment |
| `StationSearch.FirstFuzzyCode` | mcp_integration.py:35-39 | the code of the first entry in table order whose name passes the fuzzy test, `None` exactly when no name does |
| `StationSearch.StationCode` | mcp_integration.py:28-39 | an exact key gives its own code; otherwise the code of the first name containing the query, `None` when no name contains it |
| `StationSearch.GetStationCode` | mcp_integration.py:28-39 | the lookup loop returns what `StationCode` specifies |
| `StationSearch.Matching` | mcp_integration.py:41-50 | exactly the entries whose name contains the query: each result comes from the table, and every containing entry is in the result |
| `StationSearch.MatchingHead` | mcp_integration.py:105-113 | the first listed station is the first one in table order whose name contains the query, the one the smart query falls back to |
| `StationSearch.MatchingNonEmptyIffCode` | mcp_integration.py:35-50 | the city list is non-empty exactly when the code lookup finds a code |
| `StationSearch.GetStationsInCity` | mcp_integration.py:41-50 | the append loop returns the matching entries in table order |
| `Dates.NextDay` | mcp_integration.py:59-61 | the following calendar day is a valid date; it is absent only after 9999-12-31 |
| `Dates.NextDayNumber` | mcp_integration.py:59-61 | the next day has day number one higher |
| `Dates.AddDaysNumber` | mcp_integration.py:59-61 | adding `n` days moves the day number by `n` |
| `Dates.IsoOfValidDate` | mcp_integration.py:57 | `strftime("%Y-%m-%d")` of a date is four digits, dash, two digits, dash, two digits |
| `Dates.Assemble` | mcp_integration.py:73-77 | year verbatim, month and day zero-padded to two digits; today when month or day is not an integer |
| `Dates.FirstFitting` | mcp_integration.py:69-72 | the first of `/`, `.`, `-` that occurs and gives exactly three parts, or none |
| `Dates.RelativeDates` | mcp_integration.py:56-61 | `今天`, `明天` and `后天` give today, today + 1 and today + 2 days, in `YYYY-MM-DD` |
| `Dates.FormatDateFailsOnlyAtCalendarEnd` | mcp_integration.py:52-78 | `format_date` raises only when a relative word runs past 9999-12-31 |
| `Dates.CompactDate` | mcp_integration.py:66-67 | eight digits are cut into `YYYY-MM-DD` whatever the digits are |
| `Dates.IsoIsFixpoint` | mcp_integration.py:69-75 | a digit-only `YYYY-MM-DD` comes back unchanged |
| `Dates.FormatDateIdempotent` | mcp_integration.py:52-78 | formatting a digit-only output again changes nothing |
| `LeftTicket.SeatText` | main.py:71-73 | an empty seat count shows as `--`; a non-empty one is kept |
| `LeftTicket.DecodeRow` | main.py:63-73 | a row can be read exactly when it has at least 33 bar-separated fields |
| `LeftTicket.DecodeRowOfWritten` | main.py:63-76 | a row written from a train, with no bar inside a field, reads back as that train |
| `LeftTicket.Characters` | main.py:62-63 | iterating a string `result` visits one one-character string per character |
| `LeftTicket.Elements` | main.py:62-63 | iterating a list `result` visits one element per item, and an element is a row exactly when it is a string |
| `LeftTicket.ListRows` | main.py:62-84 | the fold of the row loop; it never lists more trains than there are elements (its meaning is stated by the lemmas below) |
| `LeftTicket.ListedRowsComeFromItems` | main.py:62-79 | every listed train comes from a string element that reads as a row whose field 11 is `Y` |
| `LeftTicket.AbortedIffRaisingRow` | main.py:62-84 | the listing is cut short exactly when some element is not a string or has fewer than 33 fields |
| `LeftTicket.AbortedStays` | main.py:83-84 | once an element has raised, later elements change nothing |
| `LeftTicket.ListingStopsAtFirstRaise` | main.py:62-84 | after elements that do not raise, one that does ends the listing with exactly what was listed before it |
| `LeftTicket.BookableRowsListed` | main.py:78-79 | when nothing raises, every readable bookable row is listed |
| `LeftTicket.StringResultListsNothing` | main.py:58-84 | a string `result` lists nothing: the empty string ends normally, any other raises on its first character |
| `LeftTicket.QueryOutcome` | main.py:20-84 | a request is sent exactly when both codes are truthy, and it carries date, codes and `ADULT`; otherwise the first unknown station is reported; once sent, the report is the envelope's |
| `LeftTicket.EnvelopeCases` | main.py:43-84 | a listing happens exactly when `data` is an object holding `map` and a `result` that has a length (a list, string or object), and it is the row loop's listing of that value; without `result` the format-changed message is printed |
| `LeftTicket.QueryTicket` | main.py:13-84 | the method sends and reports what `QueryOutcome` specifies |
| `LeftTicket.PrintRows` | main.py:62-79 | the row loop lists what `ListRows` specifies |
| `StableSort.SortByPermutes` | mcp_integration.py:183-186 | the sort only rearranges the records |
| `StableSort.SortByIsSorted` | mcp_integration.py:183-186 | the sorted records are ordered by the key |
| `StableSort.SortByStable` | mcp_integration.py:183-186 | records sharing a key keep their relative order |
| `StableSort.SortedPairwise` | mcp_integration.py:183-186 | ordered neighbours mean every pair is ordered |
| `TrainFilter.TypeTokens` | mcp_integration.py:136-141 | no type token is empty or contains a comma |
| `TrainFilter.TypeTokensOfJoined` | mcp_integration.py:136-141 | non-empty, stripped type names without commas, joined with `,`, read back as exactly the set of those names |
| `TrainFilter.FullWidthCommaSeparates` | mcp_integration.py:138 | writing `，` in place of `,` gives the same set of type names |
| `TrainFilter.TrainTypeSet` | mcp_integration.py:136-141 | the loop builds exactly that set |
| `TrainFilter.DecodeEntry` | mcp_integration.py:143-174 | non-strings are skipped; rows containing a bar but with fewer than 33 fields are skipped; an empty train number raises; a row with at least 33 fields and a non-empty train number is kept as its train, typed by the number's first character; a bare number raises without `ticket_info` and is otherwise kept with that number and the fields of its `ticket_info` entry (`--` where missing) |
| `TrainFilter.Collect` | mcp_integration.py:143-180 | collected records all pass the type filter and never outnumber the items |
| `TrainFilter.CollectErrIffRaise` | mcp_integration.py:143-180 | the filter raises exactly when some element raises |
| `TrainFilter.CollectFirstError` | mcp_integration.py:143-180 | the error raised is that of the first raising element |
| `TrainFilter.CollectFromItems` | mcp_integration.py:143-180 | every collected record is the reading of some element |
| `TrainFilter.CollectComplete` | mcp_integration.py:176-180 | nothing that passes the filter is lost |
| `TrainFilter.FilterAndSortKeeps` | mcp_integration.py:133-188 | the result is a permutation of the collected records, all of which pass the filter; it keeps their order unless a sort is asked for |
| `TrainFilter.FilterAndSortOrders` | mcp_integration.py:182-186 | with `time` or `duration` the result is ordered by that field |
| `TrainFilter.CollectTrains` | mcp_integration.py:143-180 | the loop collects what `Collect` specifies |
| `TrainFilter.FilterAndSortTrains` | mcp_integration.py:133-188 | the method returns what `FilterAndSort` specifies |
| `SmartQuery.SmartQueryResult` | mcp_integration.py:87-131 | a station error names both cities; with both stations found and the date formatted, a missing or empty train list gives `[]` |
| `SmartQuery.StationErrorIffNoMatch` | mcp_integration.py:100-109 | the station error is raised exactly when no station name contains one of the two cities |
| `SmartQuery.DateErrorOnlyAtCalendarEnd` | mcp_integration.py:116-117 | a date error is raised only when the stations were found and a relative word runs past the calendar's end |
| `SmartQuery.ResultFiltered` | mcp_integration.py:123-131 | every returned record passes the type filter and was read from the trains the query returned |
| `SmartQuery.ResultOrdered` | mcp_integration.py:129 | with `time` or `duration` the records come out ordered |
| `SmartQuery.SmartQueryTickets` | mcp_integration.py:87-131 | the method returns what `SmartQueryResult` specifies |
| `SmartQuery.Batch` | mcp_integration.py:190-204 | the results dictionary has distinct keys |
| `SmartQuery.BatchLookup` | mcp_integration.py:193-204 | the keys are exactly the requested dates, each mapped to its own query's records, or `[]` when that query raised |
| `SmartQuery.BatchKeepsOrder` | mcp_integration.py:195-202 | distinct dates come back in the order asked |
| `SmartQuery.BatchQueryMultipleDates` | mcp_integration.py:190-204 | the loop fills the dictionary `Batch` specifies |
| `QrLogin.Token` | test.py:104-110 | a token exists exactly when `uamtk` answered an object with a truthy `newapptk` |
| `QrLogin.AuthSucceedsOnlyWithToken` | test.py:97-132 | the handshake succeeds exactly when a truthy token was sent on and `uamauthclient` answered `result_code` 0; without a token `uamauthclient` is never called |
| `QrLogin.Checks` | test.py:57-67 | the status checks all carry the uuid read at the start |
| `QrLogin.PollStopsAtFirstTerminal` | test.py:65-95 | the loop stops at the first `2` or `3`; `3` gives false, and `2` gives the handshake's answer |
| `QrLogin.PollKeepsPolling` | test.py:65-95 | without `2` or `3` the loop keeps polling: `0`, `1`, other codes and exceptions only lead to another check |
| `QrLogin.PollDecided` | test.py:65-95 | the outcome once it is known how many checks found no final code |
| `QrLogin.Login.GetQrCode` | test.py:20-45 | true, with the new uuid recorded, exactly when the reply's `result_code` is the string `"0"`; otherwise false with the uuid unchanged |
| `QrLogin.Login.CookieAuth` | test.py:97-132 | the requests posted and the answer are those of the handshake specification |
| `QrLogin.Login.AwaitTerminal` | test.py:65-95 | the checks up to the first final code, all carrying the uuid |
| `QrLogin.Login.CheckQrStatus` | test.py:57-95 | the requests posted and the answer are those of `Poll` |
| `QrLogin.Login.Run` | test.py:134-137 | the status is polled only after a code was created; otherwise the answer is false |
| `SessionStore.SessionKey` | app.py:55 | the key is `session:` followed by the id |
| `SessionStore.SessionKeyInjective` | app.py:55 | distinct sessions never share a key |
| `SessionStore.Store.Lookup` | app.py:67 | `get` returns the stored text only before it expires |
| `SessionStore.Store.SetEx` | app.py:55 | `setex` stores the text to expire `ttl` seconds later, or raises on an unreachable store |
| `SessionStore.Store.Delete` | app.py:89 | `delete` removes the key, or raises on an unreachable store |
| `WebSession.Restore` | app.py:67-72 | a load succeeds exactly when the store returns text that decodes to a JSON object |
| `WebSession.RestoreSaved` | app.py:45-72 | loading what was saved gives back `login_status`, `current_qr_uuid` and `ticket_info` |
| `WebSession.RestoreDefaults` | app.py:70-72 | missing fields read as `False`, `None` and `{}` |
| `WebSession.FirstStop` | app.py:115-128 | the poller reads replies up to the first exception, non-dict value or final status, and no further |
| `WebSession.FirstStopIsFirst` | app.py:115-128 | the stopping point is the first reply that is an exception, is not a dict, or has status `success`, `failed` or `expired` |
| `WebSession.BookingManager.SaveSession` | app.py:45-61 | the record is written under `session:<id>` for 86400 s exactly when there is a store, it answers, and the booking has `ticket_info` |
| `WebSession.BookingManager.LoadSession` | app.py:63-83 | true, with the three fields restored, exactly when the store answers with an object; otherwise nothing changes |
| `WebSession.BookingManager.ClearSession` | app.py:85-95 | the session's key is deleted when there is a store and it answers |
| `WebSession.BookingManager.GetQrCode` | app.py:97-104 | an exception or a non-dict answer raises and changes nothing; a dict is returned, and on success the new uuid is current, the user is logged out and the status is waiting |
| `WebSession.BookingManager.StartQrPolling` | app.py:106-133 | no-op without a uuid or with a live poller; the loop stores each reply, stops at the first exception or non-dict value leaving the flag set, or at the first final status, where it removes the flag and logs in only on `success` |
| `WebApp.LoginStatusResponse` | app.py:190-214 | any uuid but the current one is invalid; with no status yet the answer is `checking` and logged out; a stored dict holding `status` and `message` is reported with the manager's login flag; the answer is a failure exactly when the stored status is truthy but not such a dict |
| `WebApp.ReportedLoginIsManagers` | app.py:195-205 | a status is reported only for the current code, and it says logged in only when the manager is logged in |
| `WebApp.QrRouteReply` | app.py:176-188 | a code is issued exactly when `success` is truthy and `uuid` is present; a refusal needs `message`; a missing key fails |
| `WebApp.PassengerFallbacks` | app.py:392-405 | each of name, id number, id type and mobile takes the long key if set, else the short key, else its placeholder; name, number and type are never empty; `id` is the position |
| `WebApp.NormalisePassengers` | app.py:391-405 | the loop builds one entry per passenger, in order, with `id` equal to its position |
| `WebApp.PassengersResponse` | app.py:373-412 | not logged in is reported exactly when the login flag is falsy; when logged in, a raising fetch is a failure, no list or an empty one is "no passengers", and a non-empty list is returned as one normalised entry per passenger |
| `WebApp.PickOf` | app.py:444 | an id at or past the end is dropped; a negative one counts from the end; below `-len` it raises |
| `WebApp.Select` | app.py:444 | the selected passengers come from the list and never outnumber the ids |
| `WebApp.SelectRaisesIff` | app.py:444 | the selection raises exactly when some requested id does |
| `WebApp.SelectInRange` | app.py:444 | valid positions select exactly those passengers, in request order, repeats included |
| `WebApp.SelectIntIds` | app.py:444 | integer ids no lower than minus the list's length never raise, and the selection equals keeping the ids below the length, in order, then indexing the list with each, negative ids counting from the end |
| `WebApp.SelectPassengers` | app.py:444 | the comprehension's loop returns what `Select` specifies |
| `WebApp.SubmitResponse` | app.py:423-459 | a body that is not an object fails; an object lacking a parameter gets "missing parameters"; then a logged-out user gets "not logged in"; with no passenger list or non-list ids it fails; a raising selection fails, an empty one gets "no valid passengers"; otherwise the order carries the body's four parameters, the selected passengers and the seat type (default `O`), and the answer is `execute_booking`'s result, or a failure when it raises |
| `WebApp.SubmitValidIds` | app.py:435-452 | requesting only valid positions selects exactly those passengers, in order, and the booking is submitted with them whenever `execute_booking` answers |
| `WebApp.App.SessionIdOf` | app.py:137-140 | the cookie's id when it is truthy, else the freshly drawn one |
| `WebApp.App.GetManager` | app.py:135-143 | the same manager for the same session id, with the registry unchanged; a new id gets a fresh manager in its initial state |
| `WebApp.App.LoadUserSession` | app.py:145-151 | a session with an id is restored from the store into its own manager, the only one that can change; when nothing loads its fields stay as they were |
| `WebApp.App.SaveUserSession` | app.py:153-161 | the session's existing manager is saved exactly when the cookie has an id, that manager is logged in and has `ticket_info`, and the store answers; a manager made here is never saved; whether the store answers is unchanged |
| `WebApp.App.RequestQrCode` | app.py:170-188 | the reply follows `QrRouteReply`, and a raising or non-dict answer fails; on an issued code the session's manager holds the uuid, the uuid is flagged, and the poll's outcome fixes the flag, login flag, stored status and poller state; otherwise the flags are unchanged and the manager is untouched, except that a truthy `success` without `uuid` has already reset it to no uuid, logged out and waiting; `ticket_info` never changes |
| `WebApp.App.CheckLoginStatus` | app.py:190-214 | the route answers `LoginStatusResponse` from the session's existing manager, or from a fresh one for a new id |
| `WebApp.App.GetPassengers` | app.py:367-421 | the route answers `PassengersResponse` from the session's existing manager, or from a fresh one for a new id |
| `WebApp.App.SubmitBooking` | app.py:423-459 | parameters are checked before the manager is looked up, and a missing one leaves the managers alone and draws no id; otherwise the route answers `SubmitResponse` for the session's own manager |

## Left out

- Network I/O, browser impersonation, cookies and the Redis connection set-up are not modelled. Every reply is an input value, an oracle function, or a sequence of replies consumed in order.
- Threads and `time.sleep` are not modelled. The web poller runs sequentially to the end of the replies it is given. A poller that used them all with its flag still set counts as alive.
- `QrLogin.Login.CheckQrStatus` is bounded by `polls`: the source's `while True` loop has no bound. `None` means it was still polling after that many checks.
- `print` output, PIL image display, `stations.json` file I/O and `load_cookies`/`save_cookies` are not modelled. Their exceptions are swallowed in the source.
- `datetime.now()` is a parameter.
- `SmartQuery.SmartQueryTickets` does not model the printed station names and codes.
- `int()` is modelled on ASCII text only: whitespace, an optional sign and ASCII digits. Underscores and non-ASCII digits are not accepted. `isdigit()` is likewise ASCII.
- `StableSort.SortBy` models `list.sort` on a sequence value, not in place. It is Python's stable sort specified by its result, not Timsort.
- JSON text encoding is not modelled. A stored session is its decoded value, empty text or text that does not decode.
- The booking workflow behind `execute_booking` is not modelled: `main.py:86-99` is a stub.
- The routes that only call into the booking object and render JSON (station suggestions and lists, ticket query, smart and batch query routes, user status) are not modelled. Flask routing, rendering and the session cookie are not modelled either; the cookie is the `sessionId` parameter, and a fresh id is a parameter.
- `WebApp.App.RequestQrCode`: keys of `qr_status_polling` must be hashable in Python; a non-hashable uuid raising `TypeError` is not modelled.
- `Dates.FormatDate` takes a string. The branch of `format_date` for a non-string argument (mcp_integration.py:54, 78), which returns today's date, is not modelled: every caller in the model passes a string.
- `TrainFilter.DecodeEntry` reads `ticket_info` as a dictionary of dictionaries of strings (`TrainFilter.TicketInfo`). A `ticket_info` or entry that is not a dict, which raises `AttributeError` at `.get` (mcp_integration.py:158-159), is not modelled. Neither are non-string values reaching `result.sort` (mcp_integration.py:183-186), where comparing a string with a number raises `TypeError`.
- `static/js/main.js` is not part of this model.
