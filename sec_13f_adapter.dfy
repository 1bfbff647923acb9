// Input checks of the SEC 13F provider (ingestion/providers/sec_13f_adapter.py):
// which dates are quarter ends, the filing window searched for a quarter, and the
// argument checks that run before any download. `date.today()` is a parameter;
// the download and the scraper's environment set-up are not part of this model.
module Sec13FAdapter {
  import opened Wrappers
  import opened Dates

  /** The last day of March, June, September or December. */
  predicate IsQuarterEnd(d: Date)
  {
    (d.month, d.day) in [(3, 31), (6, 30), (9, 30), (12, 31)]
  }

  const InvalidQuarterEnd := "invalid quarter end date"
  const FutureQuarterEnd := "future quarter end dates not allowed"
  const QuarterTooOld := "quarter end too old (pre-2013)"
  const FirstElectronicYear := 2013

  /** `_validate_quarter_end`: a quarter end, not after today, not before 2013-01-01. */
  function ValidateQuarterEnd(q: Date, today: Date): (r: Result<()>)
    ensures r.Ok? <==> IsQuarterEnd(q) && NotAfter(q, today) && q.year >= FirstElectronicYear
    ensures !IsQuarterEnd(q) ==> r == Err(InvalidQuarterEnd)
  {
    if !IsQuarterEnd(q) then Err(InvalidQuarterEnd)
    else if Before(today, q) then Err(FutureQuarterEnd)
    else if Before(q, Date(FirstElectronicYear, 1, 1)) then Err(QuarterTooOld)
    else Ok(())
  }

  /** `_get_quarter_date_range`: the quarter's first day and the end of the search window. */
  function QuarterDateRange(q: Date): (r: Result<(Date, Date)>)
    ensures r.Ok? <==> q.month in {3, 6, 9, 12} && !(q.month == 12 && q.year >= 9999)
    ensures r.Ok? ==> r.value.0 == Date(q.year, q.month - 2, 1)
  {
    if q.month == 3 then Ok((Date(q.year, 1, 1), Date(q.year, 6, 30)))
    else if q.month == 6 then Ok((Date(q.year, 4, 1), Date(q.year, 9, 30)))
    else if q.month == 9 then Ok((Date(q.year, 7, 1), Date(q.year, 12, 31)))
    else if q.month == 12 then
      // `date(year + 1, 3, 31)` raises past MAXYEAR
      if q.year >= 9999 then Err("year out of range") else Ok((Date(q.year, 10, 1), Date(q.year + 1, 3, 31)))
    else Err("invalid quarter end month")
  }

  /** The window opens before the quarter end and closes after it, three months on. */
  lemma QuarterRangeBrackets(q: Date)
    requires Valid(q) && IsQuarterEnd(q) && q.year < 9999
    ensures QuarterDateRange(q).Ok?
    ensures var (start, deadline) := QuarterDateRange(q).value;
      Valid(start) && Valid(deadline) && Before(start, q) && Before(q, deadline)
      && (deadline.month - q.month) % 12 == 3 && deadline.day == DaysInMonth(deadline.year, deadline.month)
  {
    assert q.month in {3, 6, 9, 12};
  }

  /** Python truthiness of an optional string: `None` and `''` are false. */
  predicate Given(s: Option<string>) { s.Some? && s.value != "" }

  /** The checks `fetch_13f_quarter` makes before fetching, and the window it then searches. */
  function CheckFetchInputs(q: Date, entityName: Option<string>, cik: Option<string>, today: Date): (r: Result<(Date, Date)>)
    ensures r.Ok? <==> ValidateQuarterEnd(q, today).Ok? && Given(entityName) != Given(cik) && QuarterDateRange(q).Ok?
    ensures ValidateQuarterEnd(q, today).Err? ==> r == Err(ValidateQuarterEnd(q, today).msg)
    ensures r.Ok? ==> r == QuarterDateRange(q)
  {
    var valid := ValidateQuarterEnd(q, today);
    if valid.Err? then Err(valid.msg)
    else if !Given(entityName) && !Given(cik) then Err("must provide either entity_name or cik")
    else if Given(entityName) && Given(cik) then Err("provide either entity_name or cik, not both")
    else QuarterDateRange(q)
  }
}
