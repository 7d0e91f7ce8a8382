/** The detail extractors and the date parser of extract.py.

    An upstream detail record is a JSON object in one of two shapes (a
    hearing or a committee meeting).  Each getter reads it with `dict.get`
    and "first present wins" fallbacks; the parser accepts a timestamp or a
    bare date and raises otherwise. */
module Extract {
  import opened Wrappers
  import Text

  /** A scalar member of a JSON object.  `dict.get(key, default)` tells an
      absent key (the default) from a key holding `null` (`None`). */
  datatype Field = Missing | Null | Str(s: string)

  /** One entry of the `dates` array. */
  datatype DateEntry = DateEntry(date: Field, meetingDate: Field)

  /** One entry of the `committees` array. */
  datatype CommitteeRef = CommitteeRef(name: Field)

  /** One entry of the `meetingDocuments` or `formats` array. */
  datatype Document = Document(url: Field)

  /** A detail record.  An array member that is absent, `null` or empty is
      an empty sequence: every use in the source treats the three alike. */
  datatype Detail = Detail(
    date: Field,
    dates: seq<DateEntry>,
    title: Field,
    committeeName: Field,
    committees: seq<CommitteeRef>,
    meetingDocuments: seq<Document>,
    formats: seq<Document>)

  /** The empty object `{}`: what the fetcher returns on any failure. */
  const EmptyDetail := Detail(Missing, [], Missing, Missing, [], [], [])

  /** `dict.get(key, default)` on a scalar member. */
  function Get(f: Field, default: Option<string>): Option<string>
  {
    match f
    case Missing => default
    case Null => None
    case Str(s) => Some(s)
  }

  /** Python truthiness of a string-or-None value. */
  predicate Truthy(v: Option<string>)
  {
    v.Some? && v.value != ""
  }

  // ─── Getters ───────────────────────────────────────────────────────────────

  /** get_date: a truthy top-level `date`, else the first `dates` entry's
      `date` (absent or null giving None), else None. */
  function GetDate(d: Detail): (r: Option<string>)
    ensures d.date.Str? && d.date.s != "" ==> r == Some(d.date.s)
    ensures !(d.date.Str? && d.date.s != "") && d.dates != [] ==>
              r == (if d.dates[0].date.Str? then Some(d.dates[0].date.s) else None)
    ensures !(d.date.Str? && d.date.s != "") && d.dates == [] ==> r == None
  {
    if Truthy(Get(d.date, None)) then Get(d.date, None)
    else if d.dates != [] then Get(d.dates[0].date, None)
    else None
  }

  /** get_title: `detail.get("title", "")`; an explicit null reads as None. */
  function GetTitle(d: Detail): (r: Option<string>)
    ensures d.title.Missing? ==> r == Some("")
    ensures d.title.Str? ==> r == Some(d.title.s)
    ensures r == None <==> d.title.Null?
  {
    Get(d.title, Some(""))
  }

  /** get_committee: a non-empty `committeeName`, else the first
      `committees` entry's `name` (absent giving ""), else "". */
  function GetCommittee(d: Detail): (r: Option<string>)
    ensures d.committeeName.Str? && d.committeeName.s != "" ==> r == Some(d.committeeName.s)
    ensures !(d.committeeName.Str? && d.committeeName.s != "") && d.committees == [] ==> r == Some("")
    ensures !(d.committeeName.Str? && d.committeeName.s != "") && d.committees != [] ==>
              r == Get(d.committees[0].name, Some(""))
  {
    if Truthy(Get(d.committeeName, Some(""))) then Get(d.committeeName, Some(""))
    else if d.committees != [] then Get(d.committees[0].name, Some(""))
    else Some("")
  }

  /** The exception `get_URL` raises: `formats[1]` on a one-element list. */
  datatype UrlError = FormatsIndexError

  /** get_URL.  A non-empty `meetingDocuments` decides alone (its first
      entry's `url`, "" when that entry has none).  Otherwise a non-empty
      `formats` gives its SECOND entry's `url`, and a one-element `formats`
      raises IndexError.  With neither array the result is None. */
  function GetUrl(d: Detail): (r: Result<Option<string>, UrlError>)
    ensures d.meetingDocuments != [] ==>
              r == Ok(Get(d.meetingDocuments[0].url, Some("")))
    ensures d.meetingDocuments == [] && |d.formats| >= 2 ==>
              r == Ok(Get(d.formats[1].url, Some("")))
    ensures d.meetingDocuments == [] && |d.formats| == 1 ==> r == Err(FormatsIndexError)
    ensures d.meetingDocuments == [] && d.formats == [] ==> r == Ok(None)
  {
    if d.meetingDocuments != [] then
      Ok(Get(d.meetingDocuments[0].url, Some("")))
    else if d.formats != [] then
      if |d.formats| > 1 then Ok(Get(d.formats[1].url, Some(""))) else Err(FormatsIndexError)
    else
      Ok(None)
  }

  // ─── Dates ─────────────────────────────────────────────────────────────────

  /** A `datetime` value. */
  datatype DateTime = DateTime(year: int, month: int, day: int, hour: int, minute: int, second: int)
  {
    /** `.date()`: the calendar part. */
    function Date(): DateTime
    {
      DateTime(year, month, day, 0, 0, 0)
    }
  }

  /** The ValueError `parse_date` raises, naming the input. */
  datatype DateError = Unrecognized(input: string)

  predicate IsLeapYear(y: int)
  {
    y % 4 == 0 && (y % 100 != 0 || y % 400 == 0)
  }

  function DaysInMonth(y: int, m: int): int
    requires 1 <= m <= 12
  {
    if m == 2 then (if IsLeapYear(y) then 29 else 28)
    else if m == 4 || m == 6 || m == 9 || m == 11 then 30
    else 31
  }

  /** What `datetime` accepts: years 1..9999, a real day of the month, and a
      time of day below 24:00:00. */
  predicate Valid(t: DateTime)
  {
    1 <= t.year <= 9999 && 1 <= t.month <= 12 && 1 <= t.day <= DaysInMonth(t.year, t.month) &&
    0 <= t.hour <= 23 && 0 <= t.minute <= 59 && 0 <= t.second <= 59
  }

  predicate IsDigit(c: char)
  {
    '0' <= c <= '9'
  }

  predicate AllDigits(s: string)
  {
    forall k :: 0 <= k < |s| ==> IsDigit(s[k])
  }

  /** The value of a run of decimal digits. */
  function DigitsValue(s: string): nat
    requires AllDigits(s)
  {
    if s == [] then 0
    else 10 * DigitsValue(s[..|s| - 1]) + (s[|s| - 1] - '0') as nat
  }

  /** `%Y-%m-%d` at the start of `s`, fixed width. */
  predicate DateLayoutAt(s: string)
  {
    |s| >= 10 && AllDigits(s[0..4]) && s[4] == '-' && AllDigits(s[5..7]) && s[7] == '-' && AllDigits(s[8..10])
  }

  /** `%Y-%m-%dT%H:%M:%SZ`, fixed width.  strptime matches the literal
      letters without regard to case. */
  predicate TimestampLayout(s: string)
  {
    |s| == 20 && DateLayoutAt(s) && (s[10] == 'T' || s[10] == 't') &&
    AllDigits(s[11..13]) && s[13] == ':' && AllDigits(s[14..16]) && s[16] == ':' &&
    AllDigits(s[17..19]) && (s[19] == 'Z' || s[19] == 'z')
  }

  /** `%Y-%m-%d`, fixed width. */
  predicate BareLayout(s: string)
  {
    |s| == 10 && DateLayoutAt(s)
  }

  function DateFields(s: string, hour: int, minute: int, second: int): DateTime
    requires DateLayoutAt(s)
  {
    DateTime(DigitsValue(s[0..4]), DigitsValue(s[5..7]), DigitsValue(s[8..10]), hour, minute, second)
  }

  /** `datetime.strptime(s, "%Y-%m-%dT%H:%M:%SZ")`. */
  function StrptimeTimestamp(s: string): (r: Option<DateTime>)
    ensures r.Some? ==> Valid(r.value) && |s| == 20
  {
    if TimestampLayout(s) then
      var t := DateFields(s, DigitsValue(s[11..13]), DigitsValue(s[14..16]), DigitsValue(s[17..19]));
      if Valid(t) then Some(t) else None
    else None
  }

  /** `datetime.strptime(s, "%Y-%m-%d")`. */
  function StrptimeBare(s: string): (r: Option<DateTime>)
    ensures r.Some? ==> Valid(r.value) && r.value == r.value.Date() && |s| == 10
  {
    if BareLayout(s) then
      var t := DateFields(s, 0, 0, 0);
      if Valid(t) then Some(t) else None
    else None
  }

  /** parse_date: the timestamp layout first, then the bare date; neither
      matching raises a ValueError that carries the input. */
  function ParseDate(s: string): (r: Result<DateTime, DateError>)
    ensures r.Ok? ==> Valid(r.value)
    ensures r.Err? ==> r.error == Unrecognized(s)
    ensures r.Ok? ==> |s| == 20 || (|s| == 10 && r.value == r.value.Date())
    ensures r.Ok? && |s| == 20 ==> TimestampLayout(s)
    ensures r.Ok? && |s| == 10 ==> BareLayout(s)
  {
    match StrptimeTimestamp(s)
    case Some(t) => Ok(t)
    case None =>
      match StrptimeBare(s)
      case Some(t) => Ok(t)
      case None => Err(Unrecognized(s))
  }

  // ─── Formatting: date.isoformat() and the timestamp layout ─────────────────

  function DigitChar(n: nat): char
    requires n < 10
  {
    '0' + n as char
  }

  /** `n` as exactly `width` decimal digits. */
  function Padded(n: nat, width: nat): (r: string)
    ensures |r| == width && AllDigits(r)
  {
    if width == 0 then "" else Padded(n / 10, width - 1) + [DigitChar(n % 10)]
  }

  /** `date.isoformat()`: `YYYY-MM-DD`. */
  function IsoDate(t: DateTime): (r: string)
    requires Valid(t)
    ensures BareLayout(r)
  {
    Padded(t.year, 4) + "-" + Padded(t.month, 2) + "-" + Padded(t.day, 2)
  }

  /** The timestamp layout `YYYY-MM-DDTHH:MM:SSZ` written out. */
  function Timestamp(t: DateTime): (r: string)
    requires Valid(t)
    ensures TimestampLayout(r)
  {
    IsoDate(t) + "T" + Padded(t.hour, 2) + ":" + Padded(t.minute, 2) + ":" + Padded(t.second, 2) + "Z"
  }

  // ─── Lemmas ────────────────────────────────────────────────────────────────

  /** Reading back `width` padded digits gives the number, when it fits. */
  lemma {:induction false} DigitsValuePadded(n: nat, width: nat)
    requires n < Pow10(width)
    ensures DigitsValue(Padded(n, width)) == n
  {
    if width > 0 {
      DigitsValuePadded(n / 10, width - 1);
      var p := Padded(n, width);
      assert p[..|p| - 1] == Padded(n / 10, width - 1);
    }
  }

  /** Writing out the value of a digit run gives the run back. */
  lemma {:induction false} PaddedDigitsValue(s: string)
    requires AllDigits(s)
    ensures Padded(DigitsValue(s), |s|) == s
  {
    if s != [] {
      var init := s[..|s| - 1];
      PaddedDigitsValue(init);
      assert DigitsValue(s) / 10 == DigitsValue(init);
      assert DigitsValue(s) % 10 == (s[|s| - 1] - '0') as nat;
      assert s == init + [s[|s| - 1]];
    }
  }

  function Pow10(n: nat): nat
  {
    if n == 0 then 1 else 10 * Pow10(n - 1)
  }

  lemma IsoDateFields(t: DateTime)
    requires Valid(t)
    ensures DateLayoutAt(IsoDate(t)) && DateFields(IsoDate(t), 0, 0, 0) == t.Date()
  {
    var s := IsoDate(t);
    assert s[0..4] == Padded(t.year, 4);
    assert s[5..7] == Padded(t.month, 2);
    assert s[8..10] == Padded(t.day, 2);
    DigitsValuePadded(t.year, 4);
    DigitsValuePadded(t.month, 2);
    DigitsValuePadded(t.day, 2);
  }

  /** `parse_date(d.isoformat())` gives back the date, at midnight. */
  lemma ParseIsoDate(t: DateTime)
    requires Valid(t)
    ensures ParseDate(IsoDate(t)) == Ok(t.Date())
  {
    IsoDateFields(t);
  }

  /** A timestamp written in the first layout parses back to itself. */
  lemma ParseTimestamp(t: DateTime)
    requires Valid(t)
    ensures ParseDate(Timestamp(t)) == Ok(t)
  {
    var s := Timestamp(t);
    IsoDateFields(t);
    assert s[..10] == IsoDate(t);
    assert s[0..4] == IsoDate(t)[0..4] && s[5..7] == IsoDate(t)[5..7] && s[8..10] == IsoDate(t)[8..10];
    assert s[11..13] == Padded(t.hour, 2);
    assert s[14..16] == Padded(t.minute, 2);
    assert s[17..19] == Padded(t.second, 2);
    DigitsValuePadded(t.hour, 2);
    DigitsValuePadded(t.minute, 2);
    DigitsValuePadded(t.second, 2);
  }

  /** A timestamp and the bare date of the same day name the same calendar
      date. */
  lemma TimestampAndBareDateAgree(t: DateTime)
    requires Valid(t)
    ensures ParseDate(Timestamp(t)).Ok? && ParseDate(IsoDate(t)).Ok?
    ensures ParseDate(Timestamp(t)).value.Date() == ParseDate(IsoDate(t)).value
  {
    ParseTimestamp(t);
    ParseIsoDate(t);
  }

  /** A ten-character string that parses is already in canonical form:
      `parse_date(s).date().isoformat() == s`. */
  lemma CanonicalDateRoundTrip(s: string)
    requires |s| == 10 && ParseDate(s).Ok?
    ensures IsoDate(ParseDate(s).value) == s
  {
    ParsedDatePrefix(s);
    assert s[..10] == s;
  }

  /** Whichever layout matched, the first ten characters are the parsed
      date in canonical form, and a timestamp's time digits are the parsed
      time of day. */
  lemma ParsedDatePrefix(s: string)
    requires ParseDate(s).Ok?
    ensures |s| >= 10 && IsoDate(ParseDate(s).value) == s[..10]
    ensures |s| == 20 ==> TimestampLayout(s) && Padded(ParseDate(s).value.hour, 2) == s[11..13] &&
                          Padded(ParseDate(s).value.minute, 2) == s[14..16] &&
                          Padded(ParseDate(s).value.second, 2) == s[17..19]
  {
    PaddedDigitsValue(s[0..4]);
    PaddedDigitsValue(s[5..7]);
    PaddedDigitsValue(s[8..10]);
    assert s[..10] == s[0..4] + "-" + s[5..7] + "-" + s[8..10];
    if |s| == 20 {
      PaddedDigitsValue(s[11..13]);
      PaddedDigitsValue(s[14..16]);
      PaddedDigitsValue(s[17..19]);
    }
  }

  /** 18 June 2025 written as a bare date. */
  lemma ExampleIsoDate()
    ensures IsoDate(DateTime(2025, 6, 18, 0, 0, 0)) == "2025-06-18"
  {
    assert Padded(2025, 4) == "2025";
    assert Padded(6, 2) == "06" && Padded(18, 2) == "18";
  }

  /** 18 June 2025 at midnight written as a timestamp. */
  lemma ExampleTimestamp()
    ensures Timestamp(DateTime(2025, 6, 18, 0, 0, 0)) == "2025-06-18T00:00:00Z"
  {
    ExampleIsoDate();
    assert Padded(0, 2) == "00";
  }

  /** The examples: a timestamp and a bare date of 18 June 2025 give the
      same date. */
  lemma ParseDateExamples()
    ensures ParseDate("2025-06-18T00:00:00Z") == Ok(DateTime(2025, 6, 18, 0, 0, 0))
    ensures ParseDate("2025-06-18") == Ok(DateTime(2025, 6, 18, 0, 0, 0))
  {
    var t := DateTime(2025, 6, 18, 0, 0, 0);
    ExampleIsoDate();
    ExampleTimestamp();
    ParseTimestamp(t);
    ParseIsoDate(t);
  }

  /** The example of an unrecognized string: it raises, naming itself. */
  lemma ParseDateRejects()
    ensures ParseDate("not-a-date") == Err(Unrecognized("not-a-date"))
  {
    var s := "not-a-date";
    assert !IsDigit(s[0]);
    assert !AllDigits(s[0..4]);
  }
}
