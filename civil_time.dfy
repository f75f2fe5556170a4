/** The part of chrono the bot uses: turning a Unix timestamp into a
    proleptic-Gregorian date and time (`Utc.timestamp_opt`), adding three
    hours for Moscow time (`+ Duration::hours(3)`), and printing it with
    `format("%d.%m.%Y %H:%M:%S")`. */
module CivilTime {
  import opened Strings
  import opened Wrappers

  const SecondsPerDay := 86400
  /** `Duration::hours(3)`: Moscow is UTC+3 all year round. */
  const MoscowOffset := 10800
  /** The years `NaiveDate` can hold in recent chrono 0.4 releases;
      earlier releases allow one more year at each end. */
  const MinYear := -262143
  const MaxYear := 262142

  // ---------------------------------------------------------------------
  // The calendar
  // ---------------------------------------------------------------------

  predicate IsLeapYear(y: int) {
    y % 4 == 0 && (y % 100 != 0 || y % 400 == 0)
  }

  function DaysInYear(y: int): int {
    if IsLeapYear(y) then 366 else 365
  }

  function DaysInMonth(y: int, m: int): int
    requires 1 <= m <= 12
  {
    if m == 2 then (if IsLeapYear(y) then 29 else 28)
    else if m == 4 || m == 6 || m == 9 || m == 11 then 30
    else 31
  }

  /** Days of year `y` before the first of month `m`; month 13 stands for
      the next New Year. */
  function DaysBeforeMonth(y: int, m: int): (n: int)
    requires 1 <= m <= 13
    ensures m == 1 ==> n == 0
    ensures m == 13 ==> n == DaysInYear(y)
  {
    var leap := if IsLeapYear(y) then 1 else 0;
    if m == 1 then 0
    else if m == 2 then 31
    else if m == 3 then 59 + leap
    else if m == 4 then 90 + leap
    else if m == 5 then 120 + leap
    else if m == 6 then 151 + leap
    else if m == 7 then 181 + leap
    else if m == 8 then 212 + leap
    else if m == 9 then 243 + leap
    else if m == 10 then 273 + leap
    else if m == 11 then 304 + leap
    else if m == 12 then 334 + leap
    else 365 + leap
  }

  /** Each month's length is the gap between its first day and the next
      month's. */
  lemma DaysBeforeMonthStep(y: int, m: int)
    requires 1 <= m <= 12
    ensures DaysBeforeMonth(y, m) + DaysInMonth(y, m) == DaysBeforeMonth(y, m + 1)
  {
  }

  /** Days from 1970-01-01 to the first of January of year `y`. */
  function YearStart(y: int): int
    decreases if y >= 1970 then y - 1970 else 1970 - y
  {
    if y == 1970 then 0
    else if y > 1970 then YearStart(y - 1) + DaysInYear(y - 1)
    else YearStart(y + 1) - DaysInYear(y)
  }

  lemma YearStartStep(y: int)
    ensures YearStart(y + 1) == YearStart(y) + DaysInYear(y)
  {
  }

  /** New Year's days come in increasing order. */
  lemma {:induction false} YearStartIncreasing(a: int, b: int)
    requires a < b
    ensures YearStart(a + 1) <= YearStart(b)
    decreases b - a
  {
    if a + 1 < b {
      YearStartIncreasing(a + 1, b);
      YearStartStep(a + 1);
    }
  }

  /** The year holding day `z`, searching upwards from year `y`. */
  function YearUpFrom(y: int, z: int): (r: int)
    requires YearStart(y) <= z
    ensures YearStart(r) <= z < YearStart(r + 1)
    decreases z - YearStart(y)
  {
    YearStartStep(y);
    if z < YearStart(y + 1) then y else YearUpFrom(y + 1, z)
  }

  /** The year holding day `z`, searching downwards from year `y`. */
  function YearDownFrom(y: int, z: int): (r: int)
    requires z < YearStart(y + 1)
    ensures YearStart(r) <= z < YearStart(r + 1)
    decreases YearStart(y + 1) - z
  {
    YearStartStep(y);
    if YearStart(y) <= z then y else YearDownFrom(y - 1, z)
  }

  /** The year that day `z` (counted from 1970-01-01) falls in. */
  function YearOf(z: int): (y: int)
    ensures YearStart(y) <= z < YearStart(y + 1)
  {
    if z >= 0 then YearUpFrom(1970, z) else YearDownFrom(1969, z)
  }

  /** Only one year holds a given day. */
  lemma YearUnique(y: int, z: int)
    requires YearStart(y) <= z < YearStart(y + 1)
    ensures YearOf(z) == y
  {
    var r := YearOf(z);
    if r < y {
      YearStartIncreasing(r, y);
    } else if y < r {
      YearStartIncreasing(y, r);
    }
  }

  /** The month that day-of-year `d` falls in, searching down from `m`. */
  function MonthFrom(y: int, d: int, m: int): (r: int)
    requires 1 <= m <= 12 && 0 <= d < DaysBeforeMonth(y, m + 1)
    ensures 1 <= r <= m
    ensures DaysBeforeMonth(y, r) <= d < DaysBeforeMonth(y, r + 1)
    decreases m
  {
    DaysBeforeMonthStep(y, m);
    if DaysBeforeMonth(y, m) <= d then m else MonthFrom(y, d, m - 1)
  }

  // ---------------------------------------------------------------------
  // Date and time of day
  // ---------------------------------------------------------------------

  datatype DateTime = DateTime(year: int, month: int, day: int, hour: int, minute: int, second: int)

  predicate ValidDateTime(dt: DateTime) {
    && 1 <= dt.month <= 12
    && 1 <= dt.day <= DaysInMonth(dt.year, dt.month)
    && 0 <= dt.hour < 24 && 0 <= dt.minute < 60 && 0 <= dt.second < 60
  }

  /** Seconds from 1970-01-01 00:00:00 UTC to `dt`. */
  function Timestamp(dt: DateTime): int
    requires 1 <= dt.month <= 12
  {
    (YearStart(dt.year) + DaysBeforeMonth(dt.year, dt.month) + dt.day - 1) * SecondsPerDay
      + dt.hour * 3600 + dt.minute * 60 + dt.second
  }

  /** The UTC date and time of Unix timestamp `t`, the one whose timestamp
      is `t`. */
  function FromTimestamp(t: int): (dt: DateTime)
    ensures ValidDateTime(dt)
    ensures Timestamp(dt) == t
  {
    var days := t / SecondsPerDay;
    var secs := t % SecondsPerDay;
    var y := YearOf(days);
    var doy := days - YearStart(y);
    YearStartStep(y);
    var m := MonthFrom(y, doy, 12);
    DaysBeforeMonthStep(y, m);
    DateTime(y, m, doy - DaysBeforeMonth(y, m) + 1, secs / 3600, secs % 3600 / 60, secs % 60)
  }

  /** Every valid date and time is the one of its own timestamp: the two
      conversions are inverse to each other. */
  lemma FromTimestampOfTimestamp(dt: DateTime)
    requires ValidDateTime(dt)
    ensures FromTimestamp(Timestamp(dt)) == dt
  {
    var t := Timestamp(dt);
    var days := YearStart(dt.year) + DaysBeforeMonth(dt.year, dt.month) + dt.day - 1;
    var secs := dt.hour * 3600 + dt.minute * 60 + dt.second;
    assert t / SecondsPerDay == days && t % SecondsPerDay == secs;
    YearStartStep(dt.year);
    YearUnique(dt.year, days);
    var r := FromTimestamp(t);
    assert r.year == dt.year;
    if r.month < dt.month {
      MonthsIncreasing(dt.year, r.month + 1, dt.month);
    } else if dt.month < r.month {
      MonthsIncreasing(dt.year, dt.month + 1, r.month);
    }
  }

  lemma {:induction false} MonthsIncreasing(y: int, a: int, b: int)
    requires 1 <= a <= b <= 13
    ensures DaysBeforeMonth(y, a) <= DaysBeforeMonth(y, b)
    decreases b - a
  {
    if a < b {
      MonthsIncreasing(y, a + 1, b);
    }
  }

  /** `Utc.timestamp_opt(t, 0)` gives a single answer exactly for the
      timestamps whose year chrono can hold. */
  predicate Representable(t: int) {
    MinYear <= YearOf(t / SecondsPerDay) <= MaxYear
  }

  /** That is, the year of the date and time of `t` is in chrono's range. */
  lemma RepresentableMeansYearInRange(t: int)
    ensures Representable(t) <==> MinYear <= FromTimestamp(t).year <= MaxYear
  {
  }

  // ---------------------------------------------------------------------
  // `format("%d.%m.%Y %H:%M:%S")`
  // ---------------------------------------------------------------------

  /** Two zero-padded digits (`%d`, `%m`, `%H`, `%M`, `%S`). */
  function Pad2(n: int): (s: string)
    requires 0 <= n < 100
    ensures |s| == 2 && AllDigits(s)
  {
    [DigitChar(n / 10), DigitChar(n % 10)]
  }

  /** The two digits read back as `n`. */
  lemma Pad2Value(n: int)
    requires 0 <= n < 100
    ensures DigitsValue(Pad2(n)) == n
  {
    TwoDigits(Pad2(n));
  }

  lemma TwoDigits(s: string)
    requires |s| == 2 && AllDigits(s)
    ensures DigitsValue(s) == (s[0] as int - '0' as int) * 10 + (s[1] as int - '0' as int)
  {
    var first := s[..1];
    assert first[..0] == [];
    assert DigitsValue(first) == s[0] as int - '0' as int;
    assert s[..|s| - 1] == first;
  }

  function Zeros(k: nat): (r: string)
    ensures |r| == k && AllDigits(r)
  {
    if k == 0 then [] else "0" + Zeros(k - 1)
  }

  /** Zeros in front of `s` up to width `w`. */
  function ZeroPad(s: string, w: nat): (r: string)
    ensures |r| == if |s| < w then w else |s|
    ensures AllDigits(s) ==> AllDigits(r)
  {
    if |s| < w then Zeros(w - |s|) + s else s
  }

  /** `%Y`: four zero-padded digits for the years 0 to 9999; any other year
      gets an explicit sign and at least four digits. */
  function YearString(y: int): (s: string)
    ensures 0 <= y <= 9999 ==> |s| == 4 && AllDigits(s) && DigitsValue(s) == y
    ensures !(0 <= y <= 9999) ==> |s| >= 5 && s[0] == (if y < 0 then '-' else '+')
  {
    if 0 <= y <= 9999 then Pad4(y)
    else
      var magnitude: nat := if y < 0 then -y else y;
      [if y < 0 then '-' else '+'] + ZeroPad(NatToString(magnitude), 4)
  }

  function Pad4(n: int): (s: string)
    requires 0 <= n < 10000
    ensures |s| == 4 && AllDigits(s) && DigitsValue(s) == n
  {
    var high := Pad2(n / 100);
    var low := Pad2(n % 100);
    var s := high + low;
    FourDigits(s);
    Pad2Value(n / 100);
    Pad2Value(n % 100);
    TwoDigits(high);
    TwoDigits(low);
    s
  }

  lemma FourDigits(s: string)
    requires |s| == 4 && AllDigits(s)
    ensures DigitsValue(s) == (s[0] as int - '0' as int) * 1000 + (s[1] as int - '0' as int) * 100
                              + (s[2] as int - '0' as int) * 10 + (s[3] as int - '0' as int)
  {
    assert s[..3] == [s[0], s[1], s[2]];
    assert s[..3][..2] == [s[0], s[1]];
    TwoDigits([s[0], s[1]]);
  }

  function Format(dt: DateTime): string
    requires ValidDateTime(dt)
  {
    Pad2(dt.day) + "." + Pad2(dt.month) + "." + YearString(dt.year) + " "
      + Pad2(dt.hour) + ":" + Pad2(dt.minute) + ":" + Pad2(dt.second)
  }

  /** Reads the fixed layout "DD.MM.YYYY HH:MM:SS" back. */
  function ParseLayout(s: string): (r: Option<DateTime>)
    ensures r.Some? ==> |s| == 19
  {
    if |s| != 19 || s[2] != '.' || s[5] != '.' || s[10] != ' ' || s[13] != ':' || s[16] != ':' then None
    else if !(AllDigits(s[0..2]) && AllDigits(s[3..5]) && AllDigits(s[6..10])
              && AllDigits(s[11..13]) && AllDigits(s[14..16]) && AllDigits(s[17..19])) then None
    else Some(DateTime(DigitsValue(s[6..10]), DigitsValue(s[3..5]), DigitsValue(s[0..2]),
                       DigitsValue(s[11..13]), DigitsValue(s[14..16]), DigitsValue(s[17..19])))
  }

  /** For a four-digit year the printed form has the fixed layout, and each
      field reads back as the component it prints. */
  lemma ParseLayoutOfFormat(dt: DateTime)
    requires ValidDateTime(dt) && 0 <= dt.year <= 9999
    ensures ParseLayout(Format(dt)) == Some(dt)
  {
    var s := Format(dt);
    Pad2Value(dt.day);
    Pad2Value(dt.month);
    Pad2Value(dt.hour);
    Pad2Value(dt.minute);
    Pad2Value(dt.second);
    assert s[0..2] == Pad2(dt.day);
    assert s[3..5] == Pad2(dt.month);
    assert s[6..10] == YearString(dt.year);
    assert s[11..13] == Pad2(dt.hour);
    assert s[14..16] == Pad2(dt.minute);
    assert s[17..19] == Pad2(dt.second);
  }

  /** The Moscow wall-clock time of instant `t`, as the bot prints it. */
  function MoscowString(t: int): string {
    Format(FromTimestamp(t + MoscowOffset))
  }

  /** The printed Moscow time reads back as the date and time exactly three
      hours after the instant, in UTC terms. */
  lemma MoscowStringMeansInstant(t: int)
    requires 0 <= FromTimestamp(t + MoscowOffset).year <= 9999
    ensures var r := ParseLayout(MoscowString(t));
            r.Some? && ValidDateTime(r.value) && Timestamp(r.value) == t + MoscowOffset
  {
    ParseLayoutOfFormat(FromTimestamp(t + MoscowOffset));
  }
}
