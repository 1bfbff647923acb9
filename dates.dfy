// Proleptic Gregorian calendar dates, as Python's `datetime.date` and
// `datetime.datetime` hold them: day numbers (`toordinal`), ISO formatting and the
// ordering the source relies on when it compares or subtracts dates.
module Dates {
  import opened Wrappers
  import opened Text

  datatype Date = Date(year: int, month: int, day: int)

  /** A time of day on a date; `datetime` without a time zone and to the second. */
  datatype DateTime = DateTime(date: Date, hour: int, minute: int, second: int)

  predicate IsLeap(y: int) { y % 4 == 0 && (y % 100 != 0 || y % 400 == 0) }

  function DaysInMonth(y: int, m: int): int
  {
    if m == 2 then (if IsLeap(y) then 29 else 28)
    else if m == 4 || m == 6 || m == 9 || m == 11 then 30
    else 31
  }

  function YearLength(y: int): int { if IsLeap(y) then 366 else 365 }

  /** `date(y, m, d)` accepts exactly these fields (MINYEAR = 1, MAXYEAR = 9999). */
  predicate Valid(d: Date)
  {
    1 <= d.year <= 9999 && 1 <= d.month <= 12 && 1 <= d.day <= DaysInMonth(d.year, d.month)
  }

  /** A `date` object: only valid fields can be constructed. */
  type CalendarDate = d: Date | Valid(d) witness Date(1, 1, 1)

  predicate ValidTime(t: DateTime)
  {
    Valid(t.date) && 0 <= t.hour < 24 && 0 <= t.minute < 60 && 0 <= t.second < 60
  }

  /** Days in the years before `y`. */
  function DaysBeforeYear(y: int): (n: nat)
    requires y >= 1
  {
    if y == 1 then 0 else DaysBeforeYear(y - 1) + YearLength(y - 1)
  }

  /** Days in the months of year `y` before month `m`. */
  function DaysBeforeMonth(y: int, m: int): (n: nat)
    requires 1 <= m <= 13
  {
    if m == 1 then 0 else DaysBeforeMonth(y, m - 1) + DaysInMonth(y, m - 1)
  }

  /** `date.toordinal()`: 0001-01-01 is day 1. */
  function Ordinal(d: Date): int
    requires Valid(d)
  {
    DaysBeforeYear(d.year) + DaysBeforeMonth(d.year, d.month) + d.day
  }

  /** Chronological order, field by field. */
  predicate Before(a: Date, b: Date)
  {
    a.year < b.year || (a.year == b.year && (a.month < b.month || (a.month == b.month && a.day < b.day)))
  }

  predicate NotAfter(a: Date, b: Date) { a == b || Before(a, b) }

  /** `max(ds)`. */
  function Latest(ds: seq<Date>): (m: Date)
    requires ds != []
    ensures m in ds && forall i :: 0 <= i < |ds| ==> NotAfter(ds[i], m)
  {
    if |ds| == 1 then ds[0]
    else
      var m := Latest(ds[..|ds| - 1]);
      assert forall i :: 0 <= i < |ds| - 1 ==> ds[..|ds| - 1][i] == ds[i];
      if Before(m, ds[|ds| - 1]) then ds[|ds| - 1] else m
  }

  /** `min(ds)`. */
  function Earliest(ds: seq<Date>): (m: Date)
    requires ds != []
    ensures m in ds && forall i :: 0 <= i < |ds| ==> NotAfter(m, ds[i])
  {
    if |ds| == 1 then ds[0]
    else
      var m := Earliest(ds[..|ds| - 1]);
      assert forall i :: 0 <= i < |ds| - 1 ==> ds[..|ds| - 1][i] == ds[i];
      if Before(ds[|ds| - 1], m) then ds[|ds| - 1] else m
  }

  lemma {:induction false} DaysBeforeMonthGrows(y: int, m1: int, m2: int)
    requires 1 <= m1 < m2 <= 13
    ensures DaysBeforeMonth(y, m1) + DaysInMonth(y, m1) <= DaysBeforeMonth(y, m2)
    decreases m2 - m1
  {
    if m1 + 1 < m2 {
      DaysBeforeMonthGrows(y, m1, m2 - 1);
    }
  }

  lemma DaysBeforeYearEnd(y: int)
    ensures DaysBeforeMonth(y, 13) == YearLength(y)
  {
    var feb := DaysInMonth(y, 2);
    assert DaysBeforeMonth(y, 2) == 31;
    assert DaysBeforeMonth(y, 3) == 31 + feb;
    assert DaysBeforeMonth(y, 4) == 62 + feb;
    assert DaysBeforeMonth(y, 5) == 92 + feb;
    assert DaysBeforeMonth(y, 6) == 123 + feb;
    assert DaysBeforeMonth(y, 7) == 153 + feb;
    assert DaysBeforeMonth(y, 8) == 184 + feb;
    assert DaysBeforeMonth(y, 9) == 215 + feb;
    assert DaysBeforeMonth(y, 10) == 245 + feb;
    assert DaysBeforeMonth(y, 11) == 276 + feb;
    assert DaysBeforeMonth(y, 12) == 306 + feb;
    assert DaysBeforeMonth(y, 13) == 337 + feb;
  }

  lemma {:induction false} DaysBeforeYearGrows(y1: int, y2: int)
    requires 1 <= y1 < y2
    ensures DaysBeforeYear(y1) + YearLength(y1) <= DaysBeforeYear(y2)
    decreases y2 - y1
  {
    if y1 + 1 < y2 {
      DaysBeforeYearGrows(y1, y2 - 1);
    }
  }

  /** A valid date's day of the year lies within that year. */
  lemma DayOfYearBounds(d: Date)
    requires Valid(d)
    ensures 1 <= DaysBeforeMonth(d.year, d.month) + d.day <= YearLength(d.year)
  {
    if d.month < 12 {
      DaysBeforeMonthGrows(d.year, d.month, 13);
    }
    DaysBeforeYearEnd(d.year);
  }

  /** Day numbers order dates chronologically, so they never collide. */
  lemma OrdinalOrder(a: Date, b: Date)
    requires Valid(a) && Valid(b)
    ensures Before(a, b) <==> Ordinal(a) < Ordinal(b)
    ensures a == b <==> Ordinal(a) == Ordinal(b)
  {
    if a.year != b.year {
      var lo, hi := if a.year < b.year then a else b, if a.year < b.year then b else a;
      DayOfYearBounds(lo);
      DayOfYearBounds(hi);
      DaysBeforeYearGrows(lo.year, hi.year);
    } else if a.month != b.month {
      var lo, hi := if a.month < b.month then a else b, if a.month < b.month then b else a;
      DaysBeforeMonthGrows(a.year, lo.month, hi.month);
    }
  }

  lemma BeforeTotal(a: Date, b: Date)
    ensures Before(a, b) || a == b || Before(b, a)
  {
  }

  lemma BeforeTransitive(a: Date, b: Date, c: Date)
    requires Before(a, b) && Before(b, c)
    ensures Before(a, c)
  {
  }

  /** The day before `d`. */
  function PrevDay(d: Date): (p: Date)
    requires Valid(d) && Ordinal(d) > 1
    ensures Valid(p) && Ordinal(p) == Ordinal(d) - 1
  {
    if d.day > 1 then Date(d.year, d.month, d.day - 1)
    else if d.month > 1 then Date(d.year, d.month - 1, DaysInMonth(d.year, d.month - 1))
    else
      assert d.year > 1;
      DaysBeforeYearEnd(d.year - 1);
      Date(d.year - 1, 12, 31)
  }

  /** `d - timedelta(days=n)`. */
  function SubtractDays(d: Date, n: nat): (r: Date)
    requires Valid(d) && Ordinal(d) > n
    ensures Valid(r) && Ordinal(r) == Ordinal(d) - n
    decreases n
  {
    if n == 0 then d else SubtractDays(PrevDay(d), n - 1)
  }

  /** `(a - b).days`. */
  function DaysBetween(a: Date, b: Date): int
    requires Valid(a) && Valid(b)
  {
    Ordinal(a) - Ordinal(b)
  }

  /** `date.isoformat()`: YYYY-MM-DD with zero padding. */
  function IsoFormat(d: Date): (s: string)
    requires Valid(d)
    ensures |s| == 10 && s[4] == '-' && s[7] == '-'
  {
    ZeroPadWidth(d.year as nat, 4);
    ZeroPadWidth(d.month as nat, 2);
    ZeroPadWidth(d.day as nat, 2);
    ZeroPad(d.year as nat, 4) + "-" + ZeroPad(d.month as nat, 2) + "-" + ZeroPad(d.day as nat, 2)
  }

  /** `date.fromisoformat(s)` on the extended `YYYY-MM-DD` form; `None` where it raises. */
  function ParseIsoDate(s: string): (r: Option<Date>)
    ensures r.Some? ==> Valid(r.value) && |s| == 10
  {
    if |s| == 10 && s[4] == '-' && s[7] == '-' && AllDigits(s[..4]) && AllDigits(s[5..7])
       && AllDigits(s[8..])
    then
      var d := Date(DigitsValue(s[..4]), DigitsValue(s[5..7]), DigitsValue(s[8..]));
      if Valid(d) then Some(d) else None
    else None
  }

  /** Parsing an ISO-formatted date gives the date back. */
  lemma IsoRoundTrip(d: Date)
    requires Valid(d)
    ensures ParseIsoDate(IsoFormat(d)) == Some(d)
  {
    var y, m, dd := ZeroPad(d.year as nat, 4), ZeroPad(d.month as nat, 2), ZeroPad(d.day as nat, 2);
    ZeroPadWidth(d.year as nat, 4);
    ZeroPadWidth(d.month as nat, 2);
    ZeroPadWidth(d.day as nat, 2);
    var s := IsoFormat(d);
    assert s[..4] == y && s[5..7] == m && s[8..] == dd;
    ZeroPadValue(d.year as nat, 4);
    ZeroPadValue(d.month as nat, 2);
    ZeroPadValue(d.day as nat, 2);
  }

  /** Two dates with the same ISO text are the same date. */
  lemma IsoFormatInjective(a: Date, b: Date)
    requires Valid(a) && Valid(b) && IsoFormat(a) == IsoFormat(b)
    ensures a == b
  {
    IsoRoundTrip(a);
    IsoRoundTrip(b);
  }

  /** Full English month names, January first, as `%B` prints them. */
  const MonthNames: seq<string> := ["January", "February", "March", "April", "May", "June", "July",
    "August", "September", "October", "November", "December"]

  /** The day count of `datetime` values at second precision. */
  function Seconds(t: DateTime): int
    requires ValidTime(t)
  {
    Ordinal(t.date) * 86400 + t.hour * 3600 + t.minute * 60 + t.second
  }

  predicate TimeBefore(a: DateTime, b: DateTime)
  {
    Before(a.date, b.date) ||
    (a.date == b.date && (a.hour < b.hour || (a.hour == b.hour && (a.minute < b.minute ||
      (a.minute == b.minute && a.second < b.second)))))
  }

  /** Second counts order timestamps chronologically. */
  lemma SecondsOrder(a: DateTime, b: DateTime)
    requires ValidTime(a) && ValidTime(b)
    ensures TimeBefore(a, b) <==> Seconds(a) < Seconds(b)
  {
    OrdinalOrder(a.date, b.date);
  }
}
