/**
 * `Date.prototype.toISOString` and the reading of its output by `new Date(s)`,
 * for instants from 1970-01-01T00:00:00.000Z up to (not including) the year
 * 10000, where every year has four digits and the string has the fixed
 * 24-character form `YYYY-MM-DDTHH:mm:ss.sssZ` (section 21.4.1.32 of ECMA-262).
 * The calendar is the proleptic Gregorian calendar in UTC.
 */
module JsDate {
  import opened Wrappers
  import opened JsStrings

  const MsPerDay: int := 86400000

  /** 10000-01-01T00:00:00.000Z in milliseconds since the epoch. */
  const FourDigitYearLimitMs: int := 253402300800000

  /** The instants (milliseconds since the epoch) this model renders. */
  predicate InIsoRange(ms: int) {
    0 <= ms < FourDigitYearLimitMs
  }

  // ---------------------------------------------------------------------------
  // Calendar
  // ---------------------------------------------------------------------------

  predicate IsLeapYear(y: int) {
    y % 4 == 0 && (y % 100 != 0 || y % 400 == 0)
  }

  function DaysInYear(y: int): int {
    if IsLeapYear(y) then 366 else 365
  }

  function DaysInMonth(y: int, m: int): int
    requires 1 <= m <= 12
  {
    if m == 2 then (if IsLeapYear(y) then 29 else 28)
    else if m == 4 || m == 6 || m == 9 || m == 11 then 30
    else 31
  }

  /** Days of year `y` before the first of month `m`. */
  function DaysBeforeMonth(y: int, m: int): int
    requires 1 <= m <= 12
  {
    [0, 31, 59, 90, 120, 151, 181, 212, 243, 273, 304, 334][m - 1]
      + (if m > 2 && IsLeapYear(y) then 1 else 0)
  }

  /** The number of leap years among the years 1..y. */
  function LeapYearsThrough(y: int): int {
    y / 4 - y / 100 + y / 400
  }

  /** Days from 1970-01-01 to the first of January of year `y`. */
  function DaysBeforeYear(y: int): int {
    365 * (y - 1970) + LeapYearsThrough(y - 1) - LeapYearsThrough(1969)
  }

  /** Going from `y - 1` to `y`, the quotient by `k` grows by one exactly when
      `k` divides `y`. */
  lemma QuotientStep(y: int, k: int)
    requires k == 4 || k == 100 || k == 400
    ensures y / k - (y - 1) / k == if y % k == 0 then 1 else 0
  {
    if k == 4 {
      assert y / 4 - (y - 1) / 4 == if y % 4 == 0 then 1 else 0;
    } else if k == 100 {
      assert y / 100 - (y - 1) / 100 == if y % 100 == 0 then 1 else 0;
    } else {
      assert y / 400 - (y - 1) / 400 == if y % 400 == 0 then 1 else 0;
    }
  }

  lemma LeapYearsStep(y: int)
    ensures LeapYearsThrough(y) - LeapYearsThrough(y - 1) == if IsLeapYear(y) then 1 else 0
  {
    QuotientStep(y, 4);
    QuotientStep(y, 100);
    QuotientStep(y, 400);
    if y % 100 == 0 {
      var q := y / 100;
      assert y == 4 * (25 * q);
      assert y % 4 == 0;
    }
    if y % 400 == 0 {
      var q := y / 400;
      assert y == 100 * (4 * q);
      assert y % 100 == 0;
    }
  }

  lemma DaysBeforeNextYear(y: int)
    ensures DaysBeforeYear(y + 1) == DaysBeforeYear(y) + DaysInYear(y)
  {
    LeapYearsStep(y);
  }

  lemma {:induction false} DaysBeforeYearMonotone(a: int, b: int)
    requires a <= b
    ensures DaysBeforeYear(a) <= DaysBeforeYear(b)
    decreases b - a
  {
    if a < b {
      DaysBeforeNextYear(b - 1);
      DaysBeforeYearMonotone(a, b - 1);
    }
  }

  /** Splits `days` days after the first of January of year `y` into a year and
      a day of that year. */
  function YearAndDay(days: nat, y: int): (r: (int, nat))
    ensures y <= r.0 && r.1 < DaysInYear(r.0)
    ensures DaysBeforeYear(r.0) + r.1 == DaysBeforeYear(y) + days
    decreases days
  {
    DaysBeforeNextYear(y);
    if days < DaysInYear(y) then (y, days) else YearAndDay(days - DaysInYear(y), y + 1)
  }

  /** Splits day `rem` of year `y`, counted from the first of month `m`, into a
      month and a zero-based day of that month. */
  function MonthAndDay(y: int, rem: nat, m: int): (r: (int, nat))
    requires 1 <= m <= 12 && DaysBeforeMonth(y, m) + rem < DaysInYear(y)
    ensures m <= r.0 <= 12 && r.1 < DaysInMonth(y, r.0)
    ensures DaysBeforeMonth(y, r.0) + r.1 == DaysBeforeMonth(y, m) + rem
    decreases 12 - m
  {
    if rem < DaysInMonth(y, m) then (m, rem) else MonthAndDay(y, rem - DaysInMonth(y, m), m + 1)
  }

  datatype CivilDate = CivilDate(year: int, month: int, day: int)

  predicate ValidCivil(c: CivilDate) {
    1970 <= c.year && 1 <= c.month <= 12 && 1 <= c.day <= DaysInMonth(c.year, c.month)
  }

  /** The day number (days since 1970-01-01) of a calendar date. */
  function DaysFromCivil(c: CivilDate): int
    requires ValidCivil(c)
  {
    DaysBeforeYear(c.year) + DaysBeforeMonth(c.year, c.month) + c.day - 1
  }

  /** The calendar date of day number `days`; it is a valid date whose day
      number is `days`, and before day 2932897 its year has four digits. */
  function CivilFromDays(days: nat): (c: CivilDate)
    ensures ValidCivil(c) && DaysFromCivil(c) == days
    ensures days < 2932897 ==> c.year <= 9999
  {
    var (y, doy) := YearAndDay(days, 1970);
    var (m, d) := MonthAndDay(y, doy, 1);
    if days < 2932897 && y > 9999 then
      DaysBeforeYearMonotone(10000, y);
      CivilDate(y, m, d + 1)
    else
      CivilDate(y, m, d + 1)
  }

  // ---------------------------------------------------------------------------
  // Date#toISOString
  // ---------------------------------------------------------------------------

  /** The broken-down UTC time of an instant. */
  datatype DateTimeFields = DateTimeFields(date: CivilDate, hour: int, minute: int, second: int, millis: int)

  predicate FieldsInRange(f: DateTimeFields) {
    && ValidCivil(f.date) && f.date.year <= 9999
    && 0 <= f.hour < 24 && 0 <= f.minute < 60 && 0 <= f.second < 60 && 0 <= f.millis < 1000
  }

  /** The instant, in milliseconds since the epoch, that a broken-down time denotes. */
  function FieldsToMillis(f: DateTimeFields): int
    requires FieldsInRange(f)
  {
    DaysFromCivil(f.date) * MsPerDay + f.hour * 3600000 + f.minute * 60000 + f.second * 1000 + f.millis
  }

  /** The broken-down UTC time of instant `ms`; it denotes `ms` again. */
  function FieldsOf(ms: int): (f: DateTimeFields)
    requires InIsoRange(ms)
    ensures FieldsInRange(f) && FieldsToMillis(f) == ms
  {
    var days := ms / MsPerDay;
    var t := ms % MsPerDay;
    var seconds := t / 1000;
    var minutes := seconds / 60;
    DateTimeFields(CivilFromDays(days), minutes / 60, minutes % 60, seconds % 60, t % 1000)
  }

  /** `YYYY-MM-DD`. */
  function DatePart(c: CivilDate): (s: string)
    requires ValidCivil(c)
    ensures |s| == 10 && s[..4] == Pad(c.year, 4) && s[4] == '-' && s[5..7] == Pad(c.month, 2) && s[7] == '-'
    ensures s[8..] == Pad(c.day, 2)
  {
    Pad(c.year, 4) + "-" + Pad(c.month, 2) + "-" + Pad(c.day, 2)
  }

  /** `HH:mm:ss.sss`. */
  function TimePart(f: DateTimeFields): (s: string)
    requires FieldsInRange(f)
    ensures |s| == 12 && s[..2] == Pad(f.hour, 2) && s[2] == ':' && s[3..5] == Pad(f.minute, 2) && s[5] == ':'
    ensures s[6..8] == Pad(f.second, 2) && s[8] == '.' && s[9..] == Pad(f.millis, 3)
  {
    Pad(f.hour, 2) + ":" + Pad(f.minute, 2) + ":" + Pad(f.second, 2) + "." + Pad(f.millis, 3)
  }

  /** `YYYY-MM-DDTHH:mm:ss.sssZ` for a broken-down time, each field zero-padded. */
  function RenderIso(f: DateTimeFields): (s: string)
    requires FieldsInRange(f)
    ensures |s| == 24
    ensures s[..4] == Pad(f.date.year, 4) && s[4] == '-' && s[5..7] == Pad(f.date.month, 2) && s[7] == '-'
    ensures s[8..10] == Pad(f.date.day, 2) && s[10] == 'T' && s[11..13] == Pad(f.hour, 2) && s[13] == ':'
    ensures s[14..16] == Pad(f.minute, 2) && s[16] == ':' && s[17..19] == Pad(f.second, 2) && s[19] == '.'
    ensures s[20..23] == Pad(f.millis, 3) && s[23] == 'Z'
  {
    var date, time := DatePart(f.date), TimePart(f);
    var s := date + "T" + time + "Z";
    assert s[..10] == date && s[11..23] == time;
    assert s[..4] == date[..4] && s[5..7] == date[5..7] && s[8..10] == date[8..];
    assert s[11..13] == time[..2] && s[14..16] == time[3..5] && s[17..19] == time[6..8] && s[20..23] == time[9..];
    s
  }

  /** `new Date(ms).toISOString()`. */
  function IsoString(ms: int): (s: string)
    requires InIsoRange(ms)
    ensures |s| == 24
  {
    RenderIso(FieldsOf(ms))
  }

  // ---------------------------------------------------------------------------
  // new Date(s) on the 24-character form
  // ---------------------------------------------------------------------------

  /** The value of the `w` digits of `s` at position `i`, if they are all digits. */
  function DigitGroup(s: string, i: nat, w: nat): Option<nat>
    requires i + w <= |s|
  {
    if AllDigits(s[i..i + w]) then Some(DigitsValue(s[i..i + w])) else None
  }

  /** The instant denoted by a string of the form `YYYY-MM-DDTHH:mm:ss.sssZ` with
      a year from 1970 and every field in range; None for anything else. */
  function ParseIso(s: string): Option<int> {
    if |s| != 24 || s[4] != '-' || s[7] != '-' || s[10] != 'T' || s[13] != ':' || s[16] != ':'
       || s[19] != '.' || s[23] != 'Z' then None
    else
      var y, mo, d := DigitGroup(s, 0, 4), DigitGroup(s, 5, 2), DigitGroup(s, 8, 2);
      var h, mi, se, ml := DigitGroup(s, 11, 2), DigitGroup(s, 14, 2), DigitGroup(s, 17, 2), DigitGroup(s, 20, 3);
      if y.None? || mo.None? || d.None? || h.None? || mi.None? || se.None? || ml.None? then None
      else if !(1970 <= y.value && 1 <= mo.value <= 12) then None
      else
        var f := DateTimeFields(CivilDate(y.value, mo.value, d.value), h.value, mi.value, se.value, ml.value);
        if FieldsInRange(f) then Some(FieldsToMillis(f)) else None
  }

  lemma PadGroup(s: string, i: nat, n: nat, w: nat)
    requires i + w <= |s| && n < Pow10(w) && s[i..i + w] == Pad(n, w)
    ensures DigitGroup(s, i, w) == Some(n)
  {
    PadRoundTrip(n, w);
  }

  /** Reading a rendered broken-down time gives back the instant it denotes. */
  lemma ParseRenderIso(f: DateTimeFields)
    requires FieldsInRange(f)
    ensures ParseIso(RenderIso(f)) == Some(FieldsToMillis(f))
  {
    var s := RenderIso(f);
    assert Pow10(2) == 100 && Pow10(3) == 1000 && Pow10(4) == 10000;
    PadGroup(s, 0, f.date.year, 4);
    PadGroup(s, 5, f.date.month, 2);
    PadGroup(s, 8, f.date.day, 2);
    PadGroup(s, 11, f.hour, 2);
    PadGroup(s, 14, f.minute, 2);
    PadGroup(s, 17, f.second, 2);
    PadGroup(s, 20, f.millis, 3);
  }

  /** `new Date(d.toISOString())` is the instant `d` again, so re-rendering it
      gives the same string. */
  lemma IsoStringRoundTrip(ms: int)
    requires InIsoRange(ms)
    ensures ParseIso(IsoString(ms)) == Some(ms)
  {
    ParseRenderIso(FieldsOf(ms));
  }
}
