/** Normalisation of a user-supplied travel date to `YYYY-MM-DD`, the
    extended complete calendar-date form of ISO 8601:2004, section 4.1.2.2:
    the relative words for today, tomorrow and the day after, the basic form
    `YYYYMMDD`, and dates separated by `/`, `.` or `-`.  The current date is a
    parameter; calendar arithmetic is the proleptic Gregorian calendar that
    Python's `datetime` uses, for years 1 to 9999. */
module Dates {
  import opened Common
  import opened Strings

  datatype Date = Date(year: int, month: int, day: int)

  predicate IsLeapYear(y: int) {
    y % 4 == 0 && (y % 100 != 0 || y % 400 == 0)
  }

  function DaysInMonth(y: int, m: int): int
    requires 1 <= m <= 12
  {
    if m == 2 then (if IsLeapYear(y) then 29 else 28)
    else if m == 4 || m == 6 || m == 9 || m == 11 then 30
    else 31
  }

  /** A date `datetime.date` can hold. */
  predicate ValidDate(d: Date) {
    && 1 <= d.year <= 9999
    && 1 <= d.month <= 12
    && 1 <= d.day <= DaysInMonth(d.year, d.month)
  }

  // -----------------------------------------------------------------------
  // Day numbers: the independent reference for date arithmetic

  /** Days in the years before `y`. */
  function DaysBeforeYear(y: int): int
    requires y >= 1
  {
    var p := y - 1;
    365 * p + p / 4 - p / 100 + p / 400
  }

  /** Days in the months of year `y` before month `m`. */
  function DaysBeforeMonth(y: int, m: int): int
    requires 1 <= m <= 12
  {
    if m == 1 then 0 else DaysBeforeMonth(y, m - 1) + DaysInMonth(y, m - 1)
  }

  /** The proleptic Gregorian ordinal: 0001-01-01 is day 1, as
      `date.toordinal()` counts. */
  function DayNumber(d: Date): int
    requires ValidDate(d)
  {
    DaysBeforeYear(d.year) + DaysBeforeMonth(d.year, d.month) + d.day
  }

  /** The following calendar day; `None` after 9999-12-31, where Python's
      date arithmetic raises `OverflowError`. */
  function NextDay(d: Date): (r: Option<Date>)
    requires ValidDate(d)
    ensures r.Some? ==> ValidDate(r.value)
    ensures r.None? <==> d == Date(9999, 12, 31)
  {
    if d.day < DaysInMonth(d.year, d.month) then Some(Date(d.year, d.month, d.day + 1))
    else if d.month < 12 then Some(Date(d.year, d.month + 1, 1))
    else if d.year < 9999 then Some(Date(d.year + 1, 1, 1))
    else None
  }

  /** Each of the three leap-year counts in `DaysBeforeYear` grows by one
      exactly at a multiple of its period. */
  lemma CountSteps(y: int)
    ensures y / 4 - (y - 1) / 4 == if y % 4 == 0 then 1 else 0
    ensures y / 100 - (y - 1) / 100 == if y % 100 == 0 then 1 else 0
    ensures y / 400 - (y - 1) / 400 == if y % 400 == 0 then 1 else 0
  {
  }

  lemma PeriodsNest(y: int)
    ensures y % 400 == 0 ==> y % 100 == 0
    ensures y % 100 == 0 ==> y % 4 == 0
  {
  }

  /** A year has 366 days exactly when it is a leap year. */
  lemma YearLength(y: int)
    requires 1 <= y
    ensures DaysBeforeYear(y + 1) - DaysBeforeYear(y) == if IsLeapYear(y) then 366 else 365
  {
    CountSteps(y);
    PeriodsNest(y);
  }

  lemma DaysBeforeDecember(y: int)
    ensures DaysBeforeMonth(y, 12) + 31 == if IsLeapYear(y) then 366 else 365
  {
    assert DaysBeforeMonth(y, 2) == 31;
    assert DaysBeforeMonth(y, 3) == 31 + DaysInMonth(y, 2);
    assert DaysBeforeMonth(y, 4) == 62 + DaysInMonth(y, 2);
    assert DaysBeforeMonth(y, 5) == 92 + DaysInMonth(y, 2);
    assert DaysBeforeMonth(y, 6) == 123 + DaysInMonth(y, 2);
    assert DaysBeforeMonth(y, 7) == 153 + DaysInMonth(y, 2);
    assert DaysBeforeMonth(y, 8) == 184 + DaysInMonth(y, 2);
    assert DaysBeforeMonth(y, 9) == 215 + DaysInMonth(y, 2);
    assert DaysBeforeMonth(y, 10) == 245 + DaysInMonth(y, 2);
    assert DaysBeforeMonth(y, 11) == 276 + DaysInMonth(y, 2);
    assert DaysBeforeMonth(y, 12) == 306 + DaysInMonth(y, 2);
  }

  /** `NextDay` advances the ordinal by exactly one. */
  lemma NextDayNumber(d: Date)
    requires ValidDate(d) && NextDay(d).Some?
    ensures DayNumber(NextDay(d).value) == DayNumber(d) + 1
  {
    if d.day == DaysInMonth(d.year, d.month) && d.month == 12 {
      YearLength(d.year);
      DaysBeforeDecember(d.year);
    }
  }

  /** `d + timedelta(days=n)`; `None` when the result would pass 9999-12-31. */
  function AddDays(d: Date, n: nat): (r: Option<Date>)
    requires ValidDate(d)
    ensures r.Some? ==> ValidDate(r.value)
    decreases n
  {
    if n == 0 then Some(d)
    else
      match NextDay(d)
      case None => None
      case Some(e) => AddDays(e, n - 1)
  }

  /** Adding `n` days moves the ordinal by `n`. */
  lemma {:induction false} AddDaysNumber(d: Date, n: nat)
    requires ValidDate(d) && AddDays(d, n).Some?
    ensures DayNumber(AddDays(d, n).value) == DayNumber(d) + n
    decreases n
  {
    if n > 0 {
      NextDayNumber(d);
      AddDaysNumber(NextDay(d).value, n - 1);
    }
  }

  // -----------------------------------------------------------------------
  // Formatting and recognising YYYY-MM-DD

  /** `strftime("%Y-%m-%d")` */
  function Iso(d: Date): string {
    ZeroPad(d.year, 4) + "-" + ZeroPad(d.month, 2) + "-" + ZeroPad(d.day, 2)
  }

  /** Ten characters: four digits, a dash, two digits, a dash, two digits. */
  predicate IsIsoDigits(s: string) {
    && |s| == 10
    && AllDigits(s[..4]) && s[4] == '-'
    && AllDigits(s[5..7]) && s[7] == '-'
    && AllDigits(s[8..])
  }

  lemma IsoOfValidDate(d: Date)
    requires ValidDate(d)
    ensures IsIsoDigits(Iso(d))
  {
    ZeroPadDigits(d.year, 4);
    ZeroPadDigits(d.month, 2);
    ZeroPadDigits(d.day, 2);
    var s := Iso(d);
    assert s[..4] == ZeroPad(d.year, 4);
    assert s[5..7] == ZeroPad(d.month, 2);
    assert s[8..] == ZeroPad(d.day, 2);
  }

  // -----------------------------------------------------------------------
  // format_date

  datatype DateError = DateOverflow

  /** The relative words and how many days after today each names. */
  function RelativeOffset(s: string): Option<nat> {
    if s == "今天" then Some(0)
    else if s == "明天" then Some(1)
    else if s == "后天" then Some(2)
    else None
  }

  /** A separator that occurs and cuts the text into exactly three parts. */
  predicate Fits(s: string, sep: char) {
    sep in s && |Split(s, sep)| == 3
  }

  /** `f"{year}-{int(month):02d}-{int(day):02d}"`, or today when either
      `int()` raises. */
  function Assemble(today: Date, parts: seq<string>): (r: string)
    requires |parts| == 3
    ensures ParseInt(parts[1]).Some? && ParseInt(parts[2]).Some? ==>
      r == parts[0] + "-" + ZeroPad(ParseInt(parts[1]).value, 2) + "-" + ZeroPad(ParseInt(parts[2]).value, 2)
    ensures ParseInt(parts[1]).None? || ParseInt(parts[2]).None? ==> r == Iso(today)
  {
    match (ParseInt(parts[1]), ParseInt(parts[2]))
    case (Some(m), Some(d)) => parts[0] + "-" + ZeroPad(m, 2) + "-" + ZeroPad(d, 2)
    case _ => Iso(today)
  }

  /** The separators tried, in order. */
  const Separators: seq<char> := ['/', '.', '-']

  /** The index of the first separator in `seps` that fits, or -1. */
  function FirstFitting(s: string, seps: seq<char>): (r: int)
    ensures -1 <= r < |seps|
    ensures r == -1 <==> forall k :: 0 <= k < |seps| ==> !Fits(s, seps[k])
    ensures r >= 0 ==> Fits(s, seps[r]) && forall j :: 0 <= j < r ==> !Fits(s, seps[j])
    decreases |seps|
  {
    if seps == [] then -1
    else if seps[0] in s && |Split(s, seps[0])| == 3 then 0
    else
      var r := FirstFitting(s, seps[1..]);
      assert forall k :: 1 <= k < |seps| ==> seps[k] == seps[1..][k - 1];
      if r == -1 then -1 else r + 1
  }

  /** The separator loop: the first separator that fits decides; when none
      fits the text is returned unchanged. */
  function Separated(today: Date, s: string): string {
    var k := FirstFitting(s, Separators);
    if k == -1 then s else Assemble(today, Split(s, Separators[k]))
  }

  /** `format_date(date_input)` with `datetime.now()` read as `today`. */
  function FormatDate(today: Date, input: string): Result<string, DateError>
    requires ValidDate(today)
  {
    match RelativeOffset(input)
    case Some(k) =>
      (match AddDays(today, k)
       case Some(d) => Ok(Iso(d))
       case None => Err(DateOverflow))
    case None =>
      if |input| == 8 && AllDigits(input) then Ok(input[..4] + "-" + input[4..6] + "-" + input[6..])
      else Ok(Separated(today, input))
  }

  /** The relative words name today, tomorrow and the day after: the date
      printed is `k` days after `today` by the ordinal, and in `YYYY-MM-DD`
      form; only running past 9999-12-31 fails. */
  lemma RelativeDates(today: Date, input: string)
    requires ValidDate(today) && RelativeOffset(input).Some?
    ensures var k := RelativeOffset(input).value;
      FormatDate(today, input).Ok? <==> AddDays(today, k).Some?
    ensures FormatDate(today, input).Ok? ==>
      exists d :: ValidDate(d) && DayNumber(d) == DayNumber(today) + RelativeOffset(input).value
                  && FormatDate(today, input) == Ok(Iso(d)) && IsIsoDigits(Iso(d))
  {
    var k := RelativeOffset(input).value;
    if AddDays(today, k).Some? {
      var d := AddDays(today, k).value;
      AddDaysNumber(today, k);
      IsoOfValidDate(d);
    }
  }

  /** `format_date` raises only when a relative word runs past the last
      date Python can represent: tomorrow of 9999-12-31, or the day after
      tomorrow of 9999-12-30 or 9999-12-31. */
  lemma FormatDateFailsOnlyAtCalendarEnd(today: Date, input: string)
    requires ValidDate(today)
    ensures FormatDate(today, input).Err? <==>
      || (input == "明天" && today == Date(9999, 12, 31))
      || (input == "后天" && (today == Date(9999, 12, 30) || today == Date(9999, 12, 31)))
  {
    if input == "明天" {
      assert AddDays(today, 1) == (match NextDay(today) case None => None case Some(e) => AddDays(e, 0));
    } else if input == "后天" {
      match NextDay(today)
      case None =>
      case Some(e) =>
        assert AddDays(today, 2) == AddDays(e, 1);
        assert AddDays(e, 1) == (match NextDay(e) case None => None case Some(f) => AddDays(f, 0));
        assert e == Date(9999, 12, 31) <==> today == Date(9999, 12, 30);
    }
  }

  /** `YYYYMMDD` is cut into `YYYY-MM-DD`, whatever the digits are. */
  lemma CompactDate(today: Date, input: string)
    requires ValidDate(today) && |input| == 8 && AllDigits(input)
    ensures FormatDate(today, input) == Ok(input[..4] + "-" + input[4..6] + "-" + input[6..])
    ensures IsIsoDigits(FormatDate(today, input).value)
  {
    var r := input[..4] + "-" + input[4..6] + "-" + input[6..];
    assert r[..4] == input[..4] && r[5..7] == input[4..6] && r[8..] == input[6..];
  }

  lemma IsoCharacters(s: string)
    requires IsIsoDigits(s)
    ensures forall i :: 0 <= i < |s| ==> IsDigit(s[i]) || s[i] == '-'
  {
    forall i | 0 <= i < |s| ensures IsDigit(s[i]) || s[i] == '-' {
      if i < 4 { assert s[i] == s[..4][i]; }
      else if 5 <= i < 7 { assert s[i] == s[5..7][i - 5]; }
      else if 8 <= i { assert s[i] == s[8..][i - 8]; }
    }
  }

  /** Splitting `YYYY-MM-DD` on `-` gives its three digit groups. */
  lemma IsoSplit(s: string)
    requires IsIsoDigits(s)
    ensures '/' !in s && '.' !in s && '-' in s
    ensures Split(s, '-') == [s[..4], s[5..7], s[8..]]
    ensures s == s[..4] + "-" + s[5..7] + "-" + s[8..]
  {
    IsoCharacters(s);
    var y, m, d := s[..4], s[5..7], s[8..];
    assert s == y + ['-'] + (m + ['-'] + d);
    assert '-' !in y && '-' !in m && '-' !in d;
    SplitAtFirst(y, '-', m + ['-'] + d);
    SplitAtFirst(m, '-', d);
    SplitWithoutSeparator(d, '-');
  }

  /** A digit-only `YYYY-MM-DD` is already normal: `format_date` returns it
      unchanged (through the `-` separator and `int()`/`:02d`). */
  lemma IsoIsFixpoint(today: Date, s: string)
    requires ValidDate(today) && IsIsoDigits(s)
    ensures FormatDate(today, s) == Ok(s)
  {
    assert Separated(today, s) == s by {
      IsoReassembles(today, s);
      assert FirstFitting(s, Separators) == 2;
    }
    assert RelativeOffset(s).None? && |s| != 8;
  }

  /** The `-` branch rebuilds `YYYY-MM-DD` from its own parts. */
  lemma IsoReassembles(today: Date, s: string)
    requires IsIsoDigits(s)
    ensures '/' !in s && '.' !in s && Fits(s, '-')
    ensures Assemble(today, Split(s, '-')) == s
  {
    IsoSplit(s);
    var y, m, d := s[..4], s[5..7], s[8..];
    TwoDigitsRoundTrip(m);
    TwoDigitsRoundTrip(d);
  }

  /** `format_date` is idempotent on its digit-only outputs. */
  lemma FormatDateIdempotent(today: Date, input: string)
    requires ValidDate(today)
    requires FormatDate(today, input).Ok? && IsIsoDigits(FormatDate(today, input).value)
    ensures FormatDate(today, FormatDate(today, input).value) == FormatDate(today, input)
  {
    IsoIsFixpoint(today, FormatDate(today, input).value);
  }
}
