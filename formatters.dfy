// Display strings of the v2 metrics document (reports/formatters.py). Python's
// float formatting (`f"{x:.1f}"`, `f"{x:,.0f}"`) is the `FormatOps` parameter, and
// `datetime.fromisoformat` is the `parseDateTime` parameter; a `FormatterError` is
// `Err`.
module Formatters {
  import opened Wrappers
  import opened Text
  import opened Dates
  import opened Numerics
  import StringSets

  const NotAvailable := "Not available"

  // ---------------------------------------------------------------------------
  // format_percentage
  // ---------------------------------------------------------------------------

  /** A fraction as a percentage with `places` decimals: 0.0845 is "8.5%" at one place. */
  function FormatPercentage(fmt: FormatOps, value: Option<real>, places: nat): (s: string)
    ensures s == NotAvailable <==> value.None?
    ensures value.Some? ==> s == fmt.fixed(value.value * 100.0, places) + "%"
    ensures value.Some? <==> EndsWith(s, "%")
  {
    if value.None? then NotAvailable
    else
      var s := fmt.fixed(value.value * 100.0, places) + "%";
      assert s[|s| - 1] == '%';
      assert s[|s| - 1..] == "%";
      s
  }

  // ---------------------------------------------------------------------------
  // format_currency
  // ---------------------------------------------------------------------------

  /** The digits after the sign and `$`: a forced or automatic B/M/K scale with one
      decimal, comma grouping from a thousand, else two decimals. */
  function CurrencyDigits(fmt: FormatOps, a: real, forceScale: string): (s: string)
    requires a > 0.0
  {
    if forceScale == "B" then fmt.fixed(a / 1000000000.0, 1) + "B"
    else if forceScale == "M" then fmt.fixed(a / 1000000.0, 1) + "M"
    else if forceScale == "K" then fmt.fixed(a / 1000.0, 1) + "K"
    else if a >= 1000000000.0 then fmt.fixed(a / 1000000000.0, 1) + "B"
    else if a >= 1000000.0 then fmt.fixed(a / 1000000.0, 1) + "M"
    else if a >= 1000.0 then fmt.grouped(a)
    else fmt.fixed(a, 2)
  }

  /** A dollar amount with a "-" before the "$" when negative, and exactly "$0" for zero. */
  function FormatCurrency(fmt: FormatOps, value: Option<real>, forceScale: string): (s: string)
    ensures s == NotAvailable <==> value.None?
    ensures value.Some? && value.value == 0.0 ==> s == "$0"
    ensures value.Some? && value.value > 0.0 ==> StartsWith(s, "$")
    ensures value.Some? && value.value < 0.0 ==> StartsWith(s, "-$")
    ensures value.Some? ==> '$' in s
  {
    if value.None? then NotAvailable
    else if value.value == 0.0 then "$0"
    else
      var sign := if value.value < 0.0 then "-" else "";
      var s := sign + "$" + CurrencyDigits(fmt, Abs(value.value), forceScale);
      assert s[|sign|] == '$';
      assert s[..|sign + "$"|] == sign + "$";
      s
  }

  /** Only the sign distinguishes an amount from its negation. */
  lemma CurrencySignSymmetry(fmt: FormatOps, v: real, forceScale: string)
    requires v > 0.0
    ensures FormatCurrency(fmt, Some(-v), forceScale) == "-" + FormatCurrency(fmt, Some(v), forceScale)
  {
    var d := CurrencyDigits(fmt, v, forceScale);
    assert Abs(-v) == v && Abs(v) == v;
    assert FormatCurrency(fmt, Some(-v), forceScale) == "-" + "$" + d;
    assert FormatCurrency(fmt, Some(v), forceScale) == "" + "$" + d;
    SignedDigits(d);
  }

  lemma SignedDigits(d: string)
    ensures "" + "$" + d == "$" + d && "-" + "$" + d == "-" + ("$" + d)
  {
  }

  /** Automatic scale: a billion or more is shown in B, a million or more in M. */
  lemma CurrencyAutoScale(fmt: FormatOps, v: real)
    requires v > 0.0
    ensures v >= 1000000000.0 ==> FormatCurrency(fmt, Some(v), "") == "$" + fmt.fixed(v / 1000000000.0, 1) + "B"
    ensures 1000000.0 <= v < 1000000000.0 ==> FormatCurrency(fmt, Some(v), "") == "$" + fmt.fixed(v / 1000000.0, 1) + "M"
    ensures 1000.0 <= v < 1000000.0 ==> FormatCurrency(fmt, Some(v), "") == "$" + fmt.grouped(v)
    ensures v < 1000.0 ==> FormatCurrency(fmt, Some(v), "") == "$" + fmt.fixed(v, 2)
  {
  }

  // ---------------------------------------------------------------------------
  // format_date_display
  // ---------------------------------------------------------------------------

  /** What format_date_display accepts: `None`, a string, a `date` or a `datetime`. */
  datatype DateInput = NoDate | DateText(text: string) | DateValue(date: CalendarDate) | DateTimeValue(at: DateTime)

  /** `d.strftime("%B %d, %Y")`: full month name, zero-padded day, year. */
  function DisplayDate(d: CalendarDate): (s: string)
    ensures s != NotAvailable
  {
    var s := MonthNames[d.month - 1] + " " + ZeroPad(d.day as nat, 2) + ", " + NatToString(d.year as nat);
    var y := NatToString(d.year as nat);
    assert s[|s| - 1] == y[|y| - 1] && IsDigit(y[|y| - 1]);
    s
  }

  /** `Z` becomes `+00:00` before `datetime.fromisoformat`. */
  function ZuluToOffset(s: string): string { ReplaceAll(s, "Z", "+00:00") }

  function FormatDateDisplay(parseDateTime: string -> Option<DateTime>, input: DateInput): (r: Result<string>)
    ensures input.NoDate? ==> r == Ok(NotAvailable)
    ensures input.DateValue? ==> r == Ok(DisplayDate(input.date))
    ensures input.DateText? && 'T' !in input.text ==>
      (r.Ok? <==> ParseIsoDate(input.text).Some?) &&
      (r.Ok? ==> r.value == DisplayDate(ParseIsoDate(input.text).value))
  {
    match input
      case NoDate => Ok(NotAvailable)
      case DateValue(d) => Ok(DisplayDate(d))
      case DateTimeValue(t) => if Valid(t.date) then Ok(DisplayDate(t.date)) else Err("Invalid datetime")
      case DateText(s) =>
        if 'T' in s then
          var t := parseDateTime(ZuluToOffset(s));
          if t.Some? && Valid(t.value.date) then Ok(DisplayDate(t.value.date)) else Err("Invalid date string")
        else
          var d := ParseIsoDate(s);
          if d.Some? then Ok(DisplayDate(d.value)) else Err("Invalid date string")
  }

  /** An ISO date string and the date it names display identically. */
  lemma IsoTextDisplaysAsDate(parseDateTime: string -> Option<DateTime>, d: CalendarDate)
    ensures FormatDateDisplay(parseDateTime, DateText(IsoFormat(d))) == Ok(DisplayDate(d))
  {
    IsoRoundTrip(d);
    var s := IsoFormat(d);
    assert 'T' !in s by {
      ZeroPadWidth(d.year as nat, 4);
      ZeroPadWidth(d.month as nat, 2);
      ZeroPadWidth(d.day as nat, 2);
      assert AllDigits(s[..4]) && AllDigits(s[5..7]) && AllDigits(s[8..]);
      forall i | 0 <= i < |s| ensures s[i] != 'T' {
        if i < 4 { assert s[i] == s[..4][i]; }
        else if 4 < i < 7 { assert s[i] == s[5..7][i - 5]; }
        else if i > 7 { assert s[i] == s[8..][i - 8]; }
      }
    }
  }

  // ---------------------------------------------------------------------------
  // format_return_period
  // ---------------------------------------------------------------------------

  /** The period keys and their readable names. */
  const PeriodNames: seq<(string, string)> :=
    [("1D", "1-day"), ("1W", "1-week"), ("1M", "1-month"), ("3M", "3-month"), ("6M", "6-month"), ("1Y", "1-year")]

  /** The name a key has in the table, if any. */
  function PeriodNameIn(names: seq<(string, string)>, key: string): (r: Option<string>)
    ensures r.Some? <==> exists i :: 0 <= i < |names| && names[i].0 == key
    ensures r.Some? ==> exists i :: 0 <= i < |names| && names[i] == (key, r.value)
  {
    if names == [] then None
    else if names[0].0 == key then Some(names[0].1)
    else PeriodNameIn(names[1..], key)
  }

  /** `period_map.get(period_key, period_key.lower())`. */
  function FormatReturnPeriod(key: string): (name: string)
    ensures PeriodNameIn(PeriodNames, key).Some? ==> name == PeriodNameIn(PeriodNames, key).value
    ensures PeriodNameIn(PeriodNames, key).None? ==> name == Lower(key)
  {
    var known := PeriodNameIn(PeriodNames, key);
    if known.Some? then known.value else Lower(key)
  }

  predicate NoUpper(s: string) { forall i :: 0 <= i < |s| ==> !IsUpper(s[i]) }

  lemma LowerFixed(s: string)
    requires NoUpper(s)
    ensures Lower(s) == s
  {
  }

  lemma LowerHasNoUpper(s: string)
    ensures NoUpper(Lower(s))
  {
  }

  /** Every key of the table holds an upper-case letter; every name holds none. */
  lemma PeriodTableCase(i: nat)
    requires i < |PeriodNames|
    ensures !NoUpper(PeriodNames[i].0) && NoUpper(PeriodNames[i].1)
  {
    assert IsUpper(PeriodNames[i].0[1]);
  }

  /** A displayed period displays as itself: the names are lower-case and none is a key. */
  lemma FormatReturnPeriodIdempotent(key: string)
    ensures FormatReturnPeriod(FormatReturnPeriod(key)) == FormatReturnPeriod(key)
  {
    var name := FormatReturnPeriod(key);
    if PeriodNameIn(PeriodNames, key).Some? {
      var i :| 0 <= i < |PeriodNames| && PeriodNames[i] == (key, name);
      PeriodTableCase(i);
    } else {
      LowerHasNoUpper(key);
    }
    assert NoUpper(name);
    if PeriodNameIn(PeriodNames, name).Some? {
      var j :| 0 <= j < |PeriodNames| && PeriodNames[j].0 == name;
      PeriodTableCase(j);
      assert false;
    }
    LowerFixed(name);
  }

  // ---------------------------------------------------------------------------
  // format_window_display
  // ---------------------------------------------------------------------------

  /** "(21-day)" for a window of 21 days; a missing window is "Not available". */
  function FormatWindowDisplay(windowDays: Option<int>): (r: Result<string>)
    ensures r.Err? <==> windowDays.Some? && windowDays.value <= 0
    ensures windowDays.None? ==> r == Ok(NotAvailable)
    ensures r.Ok? && windowDays.Some? ==> StartsWith(r.value, "(") && EndsWith(r.value, "-day)")
  {
    if windowDays.None? then Ok(NotAvailable)
    else if windowDays.value <= 0 then Err("Window days must be positive integer")
    else
      var s := "(" + IntToString(windowDays.value) + "-day)";
      assert s[..1] == "(";
      assert s[|s| - 5..] == "-day)";
      Ok(s)
  }

  /** Different windows never share a display. */
  lemma WindowDisplayInjective(a: int, b: int)
    requires a > 0 && b > 0
    requires FormatWindowDisplay(Some(a)) == FormatWindowDisplay(Some(b))
    ensures a == b
  {
    var fa, fb := FormatWindowDisplay(Some(a)).value, FormatWindowDisplay(Some(b)).value;
    assert fa == "(" + IntToString(a) + "-day)" && fb == "(" + IntToString(b) + "-day)";
    DropOpening(IntToString(a));
    DropOpening(IntToString(b));
    SuffixedIntInjective(a, b, "-day)");
  }

  lemma DropOpening(digits: string)
    ensures ("(" + digits + "-day)")[1..] == digits + "-day)"
  {
  }

  // ---------------------------------------------------------------------------
  // format_recovery_status
  // ---------------------------------------------------------------------------

  const UnrecoveredPrefix := "unrecovered as of "
  const RecoveredPrefix := "fully recovered by "

  /** "unrecovered as of <as-of display>" without a recovery date, else "fully
      recovered by <recovery display>"; a date that does not parse raises. */
  function FormatRecoveryStatus(parseDateTime: string -> Option<DateTime>, recoveryDate: DateInput, asOfDate: DateInput): (r: Result<string>)
    ensures recoveryDate.NoDate? ==>
      r == (var d := FormatDateDisplay(parseDateTime, asOfDate); if d.Ok? then Ok(UnrecoveredPrefix + d.value) else Err(d.msg))
    ensures !recoveryDate.NoDate? ==>
      r == (var d := FormatDateDisplay(parseDateTime, recoveryDate); if d.Ok? then Ok(RecoveredPrefix + d.value) else Err(d.msg))
    ensures r.Ok? ==> (StartsWith(r.value, UnrecoveredPrefix) <==> recoveryDate.NoDate?)
  {
    if recoveryDate.NoDate? then
      var d := FormatDateDisplay(parseDateTime, asOfDate);
      if d.Ok? then
        assert (UnrecoveredPrefix + d.value)[..|UnrecoveredPrefix|] == UnrecoveredPrefix;
        Ok(UnrecoveredPrefix + d.value)
      else Err(d.msg)
    else
      var d := FormatDateDisplay(parseDateTime, recoveryDate);
      if d.Ok? then
        var s := RecoveredPrefix + d.value;
        assert s[0] == 'f';
        Ok(s)
      else Err(d.msg)
  }

  // ---------------------------------------------------------------------------
  // build_audit_index_entry
  // ---------------------------------------------------------------------------

  /** A value the audit index keeps: present and not "Not available". */
  predicate Kept(v: Option<string>) { v.Some? && v.value != NotAvailable }

  /** The values kept, in order. */
  function CleanValues(values: seq<Option<string>>): (r: seq<string>)
    ensures forall s :: s in r <==> Some(s) in values && s != NotAvailable
  {
    if values == [] then []
    else
      var init := values[..|values| - 1];
      var last := values[|values| - 1];
      assert values == init + [last];
      CleanValues(init) + (if Kept(last) then [last.value] else [])
  }

  /** The categories' canonical form: the distinct kept values in ascending order. */
  function AuditEntry(values: seq<Option<string>>): (r: seq<string>)
    ensures StringSets.StrictlySorted(r)
    ensures forall s :: s in r <==> Some(s) in values && s != NotAvailable
  {
    StringSets.SortedUnique(CleanValues(values))
  }

  method BuildAuditIndexEntry(values: seq<Option<string>>) returns (entry: seq<string>)
    ensures entry == AuditEntry(values)
  {
    var clean: seq<string> := [];
    var i := 0;
    while i < |values|
      invariant i <= |values|
      invariant clean == CleanValues(values[..i])
    {
      assert values[..i + 1][..i] == values[..i];
      if Kept(values[i]) {
        clean := clean + [values[i].value];
      }
      i := i + 1;
    }
    assert values[..i] == values;
    entry := StringSets.SortedUnique(clean);
  }

  function Lift(xs: seq<string>): (r: seq<Option<string>>)
    ensures |r| == |xs| && forall i :: 0 <= i < |xs| ==> r[i] == Some(xs[i])
  {
    seq(|xs|, i requires 0 <= i < |xs| => Some(xs[i]))
  }

  /** Building an entry from an entry gives it back. */
  lemma AuditEntryIdempotent(values: seq<Option<string>>)
    ensures AuditEntry(Lift(AuditEntry(values))) == AuditEntry(values)
  {
    var e := AuditEntry(values);
    var l := Lift(e);
    forall s ensures s in AuditEntry(l) <==> s in e {
      if s in e {
        var k :| 0 <= k < |e| && e[k] == s;
        assert l[k] == Some(s);
      }
      if Some(s) in l {
        var k :| 0 <= k < |l| && l[k] == Some(s);
      }
    }
    StringSets.Canonical(AuditEntry(l), e);
  }

  /** The entry depends only on which values occur: order and repeats do not matter. */
  lemma AuditEntryBySet(a: seq<Option<string>>, b: seq<Option<string>>)
    requires forall v :: v in a <==> v in b
    ensures AuditEntry(a) == AuditEntry(b)
  {
    StringSets.Canonical(AuditEntry(a), AuditEntry(b));
  }
}
