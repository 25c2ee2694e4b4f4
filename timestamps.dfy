/** Calendar timestamps as the Python code uses them: `datetime.strptime` and
    `strftime` with the layouts "%Y-%m-%d %H:%M" and "%Y-%m-%d", differences
    of datetimes, and the staleness test `check_is_outdated`. */
module Timestamps {
  import opened Wrappers

  /** A naive `datetime` (no time zone). */
  datatype DateTime = DateTime(year: int, month: int, day: int,
                               hour: int, minute: int, second: int, micro: int)

  /** A `date`. */
  datatype Date = Date(year: int, month: int, day: int)

  const MicrosPerSecond: int := 1_000_000
  const MicrosPerDay: int := 86_400_000_000

  predicate IsLeap(y: int)
  {
    y % 4 == 0 && (y % 100 != 0 || y % 400 == 0)
  }

  function DaysInMonth(y: int, m: int): (n: int)
    requires 1 <= m <= 12
    ensures 28 <= n <= 31
  {
    if m == 2 then (if IsLeap(y) then 29 else 28)
    else if m == 4 || m == 6 || m == 9 || m == 11 then 30
    else 31
  }

  /** The range `datetime` accepts: MINYEAR 1 to MAXYEAR 9999, real calendar days. */
  predicate ValidDate(d: Date)
  {
    1 <= d.year <= 9999 && 1 <= d.month <= 12 && 1 <= d.day <= DaysInMonth(d.year, d.month)
  }

  function DateOf(t: DateTime): Date
  {
    Date(t.year, t.month, t.day)
  }

  predicate Valid(t: DateTime)
  {
    && ValidDate(DateOf(t))
    && 0 <= t.hour < 24 && 0 <= t.minute < 60
    && 0 <= t.second < 60 && 0 <= t.micro < MicrosPerSecond
  }

  /** Days from 0001-01-01 to January 1st of year y, proleptic Gregorian. */
  function DaysBeforeYear(y: int): int
  {
    var z := y - 1;
    z * 365 + z / 4 - z / 100 + z / 400
  }

  function DaysBeforeMonth(y: int, m: int): int
    requires 1 <= m <= 12
  {
    var table := [0, 31, 59, 90, 120, 151, 181, 212, 243, 273, 304, 334];
    table[m - 1] + (if m > 2 && IsLeap(y) then 1 else 0)
  }

  /** `date.toordinal()`: 0001-01-01 is day 1. */
  function Ordinal(d: Date): int
    requires ValidDate(d)
  {
    DaysBeforeYear(d.year) + DaysBeforeMonth(d.year, d.month) + d.day
  }

  /** A datetime as microseconds on one time line, so that the difference of
      two of them is the Python `timedelta` between them. */
  function Micros(t: DateTime): int
    requires Valid(t)
  {
    ((((Ordinal(DateOf(t)) * 24 + t.hour) * 60 + t.minute) * 60 + t.second) * MicrosPerSecond) + t.micro
  }

  /** The datetime with seconds and microseconds dropped, which is what a
      "%Y-%m-%d %H:%M" stamp keeps of it. */
  function ToMinute(t: DateTime): (r: DateTime)
    requires Valid(t)
    ensures Valid(r)
    ensures 0 <= Micros(t) - Micros(r) < 60 * MicrosPerSecond
  {
    t.(second := 0, micro := 0)
  }

  // ---------------------------------------------------------------------
  // Decimal fields
  // ---------------------------------------------------------------------

  predicate IsDigit(c: char)
  {
    '0' <= c <= '9'
  }

  predicate AllDigits(s: string)
  {
    forall i :: 0 <= i < |s| ==> IsDigit(s[i])
  }

  function DigitChar(n: nat): (c: char)
    requires n < 10
    ensures IsDigit(c)
  {
    ['0', '1', '2', '3', '4', '5', '6', '7', '8', '9'][n]
  }

  /** The value of a string of decimal digits, most significant first. */
  function DigitsValue(s: string): nat
    requires AllDigits(s)
  {
    if s == [] then 0
    else DigitsValue(s[..|s| - 1]) * 10 + ((s[|s| - 1] as int) - ('0' as int))
  }

  function Pow10(w: nat): (p: nat)
    ensures p >= 1
  {
    if w == 0 then 1 else 10 * Pow10(w - 1)
  }

  /** n written in exactly w decimal digits, zero-padded on the left (the
      `%Y`, `%m`, `%d`, `%H` and `%M` directives). */
  function Padded(n: nat, w: nat): (s: string)
    ensures |s| == w && AllDigits(s)
  {
    if w == 0 then "" else Padded(n / 10, w - 1) + [DigitChar(n % 10)]
  }

  lemma {:induction false} PaddedRoundTrip(n: nat, w: nat)
    requires n < Pow10(w)
    ensures DigitsValue(Padded(n, w)) == n
  {
    if w > 0 {
      PaddedRoundTrip(n / 10, w - 1);
      var s := Padded(n, w);
      assert s[..|s| - 1] == Padded(n / 10, w - 1);
      assert (DigitChar(n % 10) as int) - ('0' as int) == n % 10;
    }
  }

  /** A fixed-width decimal field at s[lo..hi], when it is all digits. */
  function Field(s: string, lo: nat, hi: nat): Option<nat>
    requires lo <= hi <= |s|
  {
    if AllDigits(s[lo..hi]) then Some(DigitsValue(s[lo..hi])) else None
  }

  // ---------------------------------------------------------------------
  // strptime / strftime
  // ---------------------------------------------------------------------

  /** `datetime.strptime(s, "%Y-%m-%d %H:%M")`, None where it raises
      ValueError (wrong layout, or a day, hour or minute out of range). */
  function ParseStamp(s: string): (r: Option<DateTime>)
    ensures r.Some? ==> Valid(r.value) && r.value.second == 0 && r.value.micro == 0
    ensures r.Some? ==> |s| == 16
  {
    if |s| != 16 || s[4] != '-' || s[7] != '-' || s[10] != ' ' || s[13] != ':' then None
    else
      var y, mo, d, h, mi := Field(s, 0, 4), Field(s, 5, 7), Field(s, 8, 10), Field(s, 11, 13), Field(s, 14, 16);
      if y.None? || mo.None? || d.None? || h.None? || mi.None? then None
      else
        var t := DateTime(y.value, mo.value, d.value, h.value, mi.value, 0, 0);
        if Valid(t) then Some(t) else None
  }

  /** `t.strftime("%Y-%m-%d %H:%M")`. */
  function FormatStamp(t: DateTime): (s: string)
    requires Valid(t)
    ensures |s| == 16
  {
    Padded(t.year, 4) + "-" + Padded(t.month, 2) + "-" + Padded(t.day, 2) + " "
      + Padded(t.hour, 2) + ":" + Padded(t.minute, 2)
  }

  /** `datetime.strptime(s, "%Y-%m-%d")`, as a date. */
  function ParseDate(s: string): (r: Option<Date>)
    ensures r.Some? ==> ValidDate(r.value)
  {
    if |s| != 10 || s[4] != '-' || s[7] != '-' then None
    else
      var y, mo, d := Field(s, 0, 4), Field(s, 5, 7), Field(s, 8, 10);
      if y.None? || mo.None? || d.None? then None
      else if ValidDate(Date(y.value, mo.value, d.value)) then Some(Date(y.value, mo.value, d.value))
      else None
  }

  /** `d.strftime("%Y-%m-%d")`. */
  function FormatDate(d: Date): (s: string)
    requires ValidDate(d)
    ensures |s| == 10
  {
    Padded(d.year, 4) + "-" + Padded(d.month, 2) + "-" + Padded(d.day, 2)
  }

  /** Writing a four-digit-year datetime as a stamp and reading it back gives
      it again, to the minute. */
  lemma StampRoundTrip(t: DateTime)
    requires Valid(t) && t.year >= 1000
    ensures ParseStamp(FormatStamp(t)) == Some(ToMinute(t))
  {
    var s := FormatStamp(t);
    PaddedRoundTrip(t.year, 4);
    PaddedRoundTrip(t.month, 2);
    PaddedRoundTrip(t.day, 2);
    PaddedRoundTrip(t.hour, 2);
    PaddedRoundTrip(t.minute, 2);
    assert s[0..4] == Padded(t.year, 4);
    assert s[5..7] == Padded(t.month, 2);
    assert s[8..10] == Padded(t.day, 2);
    assert s[11..13] == Padded(t.hour, 2);
    assert s[14..16] == Padded(t.minute, 2);
  }

  lemma DateRoundTrip(d: Date)
    requires ValidDate(d) && d.year >= 1000
    ensures ParseDate(FormatDate(d)) == Some(d)
  {
    var s := FormatDate(d);
    PaddedRoundTrip(d.year, 4);
    PaddedRoundTrip(d.month, 2);
    PaddedRoundTrip(d.day, 2);
    assert s[0..4] == Padded(d.year, 4);
    assert s[5..7] == Padded(d.month, 2);
    assert s[8..10] == Padded(d.day, 2);
  }

  // ---------------------------------------------------------------------
  // Staleness
  // ---------------------------------------------------------------------

  /** `check_is_outdated`: a missing or unreadable stamp is stale; otherwise
      the stamp is stale iff it lies strictly more than `thresholdDays` days
      before `now`. */
  function IsOutdated(stamp: string, now: DateTime, thresholdDays: int): (r: bool)
    requires Valid(now)
    ensures stamp == "" || stamp == "N/A" ==> r
    ensures ParseStamp(stamp).None? ==> r
    ensures ParseStamp(stamp).Some? ==>
              (r <==> Micros(now) - Micros(ParseStamp(stamp).value) > thresholdDays * MicrosPerDay)
  {
    if stamp == "" || stamp == "N/A" then true
    else
      match ParseStamp(stamp)
      case None => true
      case Some(t) => Micros(now) - Micros(t) > thresholdDays * MicrosPerDay
  }

  /** A stamp written at `now` is fresh at `now` under any threshold of a day
      or more. */
  lemma FreshWhenJustStamped(now: DateTime, thresholdDays: int)
    requires Valid(now) && now.year >= 1000 && thresholdDays >= 1
    ensures !IsOutdated(FormatStamp(now), now, thresholdDays)
  {
    StampRoundTrip(now);
    assert 60 * MicrosPerSecond <= thresholdDays * MicrosPerDay;
  }

  /** The comparison is strict: a stamp exactly `thresholdDays` days old is
      fresh, and one a microsecond older is stale. */
  lemma ThresholdIsStrict(stamp: string, now: DateTime, thresholdDays: int)
    requires Valid(now) && ParseStamp(stamp).Some?
    ensures (Micros(now) - Micros(ParseStamp(stamp).value) == thresholdDays * MicrosPerDay)
              ==> !IsOutdated(stamp, now, thresholdDays)
    ensures (Micros(now) - Micros(ParseStamp(stamp).value) == thresholdDays * MicrosPerDay + 1)
              ==> IsOutdated(stamp, now, thresholdDays)
  {
  }

  /** Once stale, a stamp stays stale as the clock moves on. */
  lemma StaleStaysStale(stamp: string, now: DateTime, later: DateTime, thresholdDays: int)
    requires Valid(now) && Valid(later) && Micros(now) <= Micros(later)
    requires IsOutdated(stamp, now, thresholdDays)
    ensures IsOutdated(stamp, later, thresholdDays)
  {
  }
}
