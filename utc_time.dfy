/** The timestamp of a log line, read as a UTC date-time and converted to
    microseconds since the Unix epoch. Only the restricted RFC 3339 form
    `YYYY-MM-DDTHH:MM:SSZ` (section 5.6 of RFC 3339 with the `Z` offset, no
    fractional seconds, no leap second) is modelled; the proleptic Gregorian
    calendar is used for every year from 0000 to 9999. */
module UtcTime {
  import opened Outcome

  datatype DateTime = DateTime(year: int, month: int, day: int, hour: int, minute: int, second: int)

  predicate IsLeapYear(y: int) {
    y % 4 == 0 && (y % 100 != 0 || y % 400 == 0)
  }

  function DaysInYear(y: int): int {
    if IsLeapYear(y) then 366 else 365
  }

  function DaysInMonth(y: int, m: int): int
    requires 1 <= m <= 12
  {
    if m == 2 then (if IsLeapYear(y) then 29 else 28)
    else if m == 4 || m == 6 || m == 9 || m == 11 then 30
    else 31
  }

  /** A calendar date-time that the four-digit-year text form can express. */
  predicate Valid(dt: DateTime) {
    && 0 <= dt.year <= 9999
    && 1 <= dt.month <= 12
    && 1 <= dt.day <= DaysInMonth(dt.year, dt.month)
    && 0 <= dt.hour < 24
    && 0 <= dt.minute < 60
    && 0 <= dt.second < 60
  }

  /** The number of leap years in 1 .. y - 1 (negative for years before 1). */
  function LeapYearsBefore(y: int): int {
    (y - 1) / 4 - (y - 1) / 100 + (y - 1) / 400
  }

  /** Days from 1970-01-01 to the first day of year `y`. */
  function DaysBeforeYear(y: int): int {
    365 * (y - 1970) + LeapYearsBefore(y) - LeapYearsBefore(1970)
  }

  /** Days from the first of January to the first day of month `m`. */
  function DaysBeforeMonth(y: int, m: int): int
    requires 1 <= m <= 12
  {
    var common := [0, 31, 59, 90, 120, 151, 181, 212, 243, 273, 304, 334][m - 1];
    if m > 2 && IsLeapYear(y) then common + 1 else common
  }

  /** Days since 1970-01-01 of the date part. */
  function EpochDay(dt: DateTime): int
    requires 1 <= dt.month <= 12
  {
    DaysBeforeYear(dt.year) + DaysBeforeMonth(dt.year, dt.month) + dt.day - 1
  }

  /** `DateTime::timestamp_micros`: microseconds since 1970-01-01T00:00:00Z. */
  function EpochMicros(dt: DateTime): int
    requires 1 <= dt.month <= 12
  {
    ((EpochDay(dt) * 24 + dt.hour) * 60 + dt.minute) * 60_000_000 + dt.second * 1_000_000
  }

  /** The same time of day on the following calendar day. */
  function NextDay(dt: DateTime): (r: DateTime)
    requires Valid(dt)
    ensures 1 <= r.month <= 12
  {
    if dt.day < DaysInMonth(dt.year, dt.month) then dt.(day := dt.day + 1)
    else if dt.month < 12 then dt.(month := dt.month + 1, day := 1)
    else dt.(year := dt.year + 1, month := 1, day := 1)
  }

  /** The epoch day counts from 1970-01-01 ... */
  lemma EpochDayOfEpoch()
    ensures EpochDay(DateTime(1970, 1, 1, 0, 0, 0)) == 0
  {
  }

  /** ... and goes up by one from each day to the next, which with
      `EpochDayOfEpoch` determines it on every valid date. */
  lemma EpochDayNext(dt: DateTime)
    requires Valid(dt)
    ensures EpochDay(NextDay(dt)) == EpochDay(dt) + 1
  {
    if dt.day == DaysInMonth(dt.year, dt.month) && dt.month == 12 {
      DaysBeforeYearStep(dt.year);
    }
  }

  lemma DaysBeforeYearStep(y: int)
    ensures DaysBeforeYear(y + 1) == DaysBeforeYear(y) + DaysInYear(y)
  {
    DivStepBy4(y);
    DivStepBy100(y);
    DivStepBy400(y);
  }

  // One more multiple of d lies in (-inf, y] than in (-inf, y - 1] exactly when d divides y.
  lemma DivStepBy4(y: int)
    ensures y / 4 - (y - 1) / 4 == if y % 4 == 0 then 1 else 0
  {
  }

  lemma DivStepBy100(y: int)
    ensures y / 100 - (y - 1) / 100 == if y % 100 == 0 then 1 else 0
  {
  }

  lemma DivStepBy400(y: int)
    ensures y / 400 - (y - 1) / 400 == if y % 400 == 0 then 1 else 0
  {
  }

  predicate IsDigit(c: char) {
    '0' <= c <= '9'
  }

  function DigitValue(c: char): int {
    c as int - 48
  }

  function DigitChar(d: int): (c: char)
    requires 0 <= d <= 9
    ensures IsDigit(c) && DigitValue(c) == d
  {
    (48 + d) as char
  }

  /** The tens digit of a two-digit number. */
  function Tens(n: int): (c: char)
    requires 0 <= n <= 99
    ensures IsDigit(c)
  {
    DigitChar(n / 10)
  }

  /** The units digit of a two-digit number. */
  function Units(n: int): (c: char)
    requires 0 <= n <= 99
    ensures IsDigit(c)
  {
    DigitChar(n % 10)
  }

  /** The value of the two digits at `s[i]`, `s[i + 1]`. */
  function Number2(s: string, i: nat): int
    requires i + 2 <= |s|
  {
    10 * DigitValue(s[i]) + DigitValue(s[i + 1])
  }

  lemma TwoDigits(n: int)
    requires 0 <= n <= 99
    ensures Number2([Tens(n), Units(n)], 0) == n
  {
  }

  lemma TwoDigitsBack(s: string, i: nat)
    requires i + 2 <= |s| && IsDigit(s[i]) && IsDigit(s[i + 1])
    ensures 0 <= Number2(s, i) <= 99
    ensures Tens(Number2(s, i)) == s[i] && Units(Number2(s, i)) == s[i + 1]
  {
  }

  /** The text form `YYYY-MM-DDTHH:MM:SSZ` of a valid date-time. */
  function Format(dt: DateTime): (s: string)
    requires Valid(dt)
  {
    [ Tens(dt.year / 100), Units(dt.year / 100), Tens(dt.year % 100), Units(dt.year % 100)
    , '-', Tens(dt.month), Units(dt.month)
    , '-', Tens(dt.day), Units(dt.day)
    , 'T', Tens(dt.hour), Units(dt.hour)
    , ':', Tens(dt.minute), Units(dt.minute)
    , ':', Tens(dt.second), Units(dt.second)
    , 'Z' ]
  }

  /** The text of a date-time holds only digits and the separators
      `-`, `T`, `:` and `Z`. */
  lemma FormatChars(dt: DateTime)
    requires Valid(dt)
    ensures |Format(dt)| == 20
    ensures forall k :: 0 <= k < 20 ==> IsDigit(Format(dt)[k]) || Format(dt)[k] in "-T:Z"
  {
    var s := Format(dt);
    forall k | 0 <= k < 20 ensures IsDigit(s[k]) || s[k] in "-T:Z" {
    }
  }

  /** A character that is neither a digit nor a separator is absent from
      the text of every date-time. */
  lemma FormatAvoids(dt: DateTime, c: char)
    requires Valid(dt)
    requires !IsDigit(c) && c !in "-T:Z"
    ensures forall k :: 0 <= k < |Format(dt)| ==> Format(dt)[k] != c
  {
    FormatChars(dt);
  }

  /** The text has the shape `DDDD-DD-DDTDD:DD:DDZ` with `D` a decimal digit. */
  predicate WellShaped(s: string) {
    && |s| == 20
    && IsDigit(s[0]) && IsDigit(s[1]) && IsDigit(s[2]) && IsDigit(s[3]) && s[4] == '-'
    && IsDigit(s[5]) && IsDigit(s[6]) && s[7] == '-'
    && IsDigit(s[8]) && IsDigit(s[9]) && s[10] == 'T'
    && IsDigit(s[11]) && IsDigit(s[12]) && s[13] == ':'
    && IsDigit(s[14]) && IsDigit(s[15]) && s[16] == ':'
    && IsDigit(s[17]) && IsDigit(s[18]) && s[19] == 'Z'
  }

  /** Reads a date-time; `None` when the text is not of the modelled form or
      names a date or time that does not exist. */
  function ParseDateTime(s: string): Option<DateTime> {
    if !WellShaped(s) then None
    else
      var dt := DateTime(100 * Number2(s, 0) + Number2(s, 2), Number2(s, 5), Number2(s, 8),
                         Number2(s, 11), Number2(s, 14), Number2(s, 17));
      if Valid(dt) then Some(dt) else None
  }

  /** Reads the timestamp token as a UTC date-time and converts it to
      microseconds since the epoch. */
  function ParseTimestamp(s: string): (r: Option<int>)
    ensures r.Some? <==> ParseDateTime(s).Some?
    ensures r.Some? ==> && Valid(ParseDateTime(s).value)
                        && Format(ParseDateTime(s).value) == s
                        && r.value == EpochMicros(ParseDateTime(s).value)
  {
    match ParseDateTime(s)
    case None => None
    case Some(dt) => FormatParse(s); Some(EpochMicros(dt))
  }

  /** The timestamp of the text of a valid date-time is that date-time's
      count of microseconds. */
  lemma ParseTimestampOfFormat(dt: DateTime)
    requires Valid(dt)
    ensures ParseTimestamp(Format(dt)) == Some(EpochMicros(dt))
  {
    ParseFormat(dt);
  }

  /** Reading back the text of a date-time gives the date-time ... */
  lemma ParseFormat(dt: DateTime)
    requires Valid(dt)
    ensures ParseDateTime(Format(dt)) == Some(dt)
  {
    var s := Format(dt);
    TwoDigits(dt.year / 100);
    TwoDigits(dt.year % 100);
    TwoDigits(dt.month);
    TwoDigits(dt.day);
    TwoDigits(dt.hour);
    TwoDigits(dt.minute);
    TwoDigits(dt.second);
    assert Number2(s, 0) == dt.year / 100 && Number2(s, 2) == dt.year % 100;
    assert Number2(s, 5) == dt.month && Number2(s, 8) == dt.day;
    assert Number2(s, 11) == dt.hour && Number2(s, 14) == dt.minute && Number2(s, 17) == dt.second;
  }

  /** ... and every text that reads is the text of what it reads as, so
      `ParseDateTime` accepts exactly the `Format` texts. */
  lemma FormatParse(s: string)
    requires ParseDateTime(s).Some?
    ensures Valid(ParseDateTime(s).value) && Format(ParseDateTime(s).value) == s
  {
    var dt := ParseDateTime(s).value;
    TwoDigitsBack(s, 0);
    TwoDigitsBack(s, 2);
    TwoDigitsBack(s, 5);
    TwoDigitsBack(s, 8);
    TwoDigitsBack(s, 11);
    TwoDigitsBack(s, 14);
    TwoDigitsBack(s, 17);
    assert dt.year / 100 == Number2(s, 0) && dt.year % 100 == Number2(s, 2);
    var f := Format(dt);
    assert |f| == 20;
    forall k | 0 <= k < 20 ensures f[k] == s[k] {
    }
  }

  /** The worked example of the line format. */
  lemma ParseTimestampExample()
    ensures Format(DateTime(2023, 1, 1, 10, 0, 0)) == "2023-01-01T10:00:00Z"
    ensures EpochMicros(DateTime(2023, 1, 1, 10, 0, 0)) == 1672567200000000
    ensures ParseTimestamp("2023-01-01T10:00:00Z") == Some(1672567200000000)
  {
    var dt := DateTime(2023, 1, 1, 10, 0, 0);
    ParseFormat(dt);
    assert Format(dt) == "2023-01-01T10:00:00Z";
  }
}
