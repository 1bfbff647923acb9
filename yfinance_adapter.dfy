// Input checks of the price provider (ingestion/providers/yfinance_adapter.py):
// the requested date range and the ticker symbol. `date.today()` is a parameter;
// the download itself is not part of this model.
module YFinanceAdapter {
  import opened Wrappers
  import opened Text
  import opened Dates
  import PathPolicy

  /** `365 * 3`. */
  const MaxRangeDays := 1095

  /** `_validate_date_range`. */
  function ValidateDateRange(start: CalendarDate, end: CalendarDate, today: CalendarDate): (r: Result<()>)
    ensures r.Ok? <==> NotAfter(start, end) && NotAfter(end, today) && DaysBetween(end, start) <= MaxRangeDays
    ensures Before(end, start) ==> r == Err("start date must be <= end date")
  {
    BeforeTotal(start, end);
    BeforeTotal(end, today);
    if Before(end, start) then Err("start date must be <= end date")
    else if Before(today, start) || Before(today, end) then Err("future dates not allowed for historical data")
    else if DaysBetween(end, start) > MaxRangeDays then Err("date range too long")
    else Ok(())
  }

  /** `ABCDEFGHIJKLMNOPQRSTUVWXYZ0123456789.-`. */
  predicate TickerChar(c: char) { IsUpper(c) || IsDigit(c) || c == '.' || c == '-' }

  const MaxTickerLength := 10

  /** `_validate_ticker`: non-empty, at most ten characters, and only ticker characters once upper-cased. */
  function ValidateTicker(ticker: string): (r: Result<()>)
    ensures r.Ok? <==> 1 <= |ticker| <= MaxTickerLength && forall i :: 0 <= i < |ticker| ==> TickerChar(ToUpper(ticker[i]))
  {
    if ticker == [] then Err("ticker must be non-empty string")
    else if |ticker| > MaxTickerLength then Err("ticker too long")
    else if !(forall c | c in Upper(ticker) :: TickerChar(c)) then Err("ticker contains invalid characters")
    else Ok(())
  }

  /** A ticker the provider accepts also names a report directory, in which only '.' and '-' change (to '_'). */
  lemma AcceptedTickerHasReportDirectory(ticker: string)
    requires ValidateTicker(ticker).Ok?
    ensures PathPolicy.NormalizeTicker(ticker).Ok?
    ensures forall i :: 0 <= i < |ticker| ==>
      PathPolicy.NormalizeTicker(ticker).value[i] == (if ticker[i] in ".-" then '_' else ToUpper(ticker[i]))
  {
  }
}
