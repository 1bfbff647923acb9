// The deterministic audit of generated narrative (reports/number_date_audit.py):
// every percentage and every "Month D, YYYY" date in the text must come from the
// audit index of the v2 metrics document. Percentages are compared as numbers
// within a tolerance, dates by their ISO form. `dateutil.parser.parse` is modelled
// exactly for the "Month D, YYYY" form the audit extracts and is a parameter for
// every other string.
module NumberDateAudit {
  import opened Wrappers
  import opened Text
  import opened Dates
  import opened Numerics
  import opened Json
  import opened Patterns

  // ---------------------------------------------------------------------------
  // Extraction and normalisation
  // ---------------------------------------------------------------------------

  /** `extract_percentages`: the matches of the grouped-percentage pattern, left to right. */
  function ExtractPercentages(text: string): seq<string>
  {
    FindAll(GroupedPercent, text)
  }

  /** Every extracted percentage is itself a whole match of the pattern. */
  lemma {:induction false} PercentTokensWhole(s: string)
    ensures PercentTokens(ExtractPercentages(s))
    decreases |s|
  {
    if s != [] {
      var m := MatchLen(GroupedPercent, s);
      if m.Some? {
        PercentShapeWhole(s, GroupedNumber);
        PercentTokensWhole(s[m.value..]);
      } else {
        PercentTokensWhole(s[1..]);
      }
    }
  }

  /** `extract_dates`: the matches of `Month D, YYYY`, month names in any letter case. */
  function ExtractDates(text: string): seq<string>
  {
    FindAll(LongDate(true), text)
  }

  /** `normalize_percentage`: drop `%`, strip, drop `,`, `float(...) / 100`; `None`
      where `float` raises. */
  function NormalizePercentage(s: string): Option<real>
  {
    Hundredth(ParseFloat(CleanPercent(s)))
  }

  function Hundredth(v: Option<real>): Option<real>
  {
    if v.Some? then Some(v.value / 100.0) else None
  }

  lemma HundredthOfSome(v: Option<real>, x: real)
    requires v == Some(x)
    ensures Hundredth(v) == Some(x / 100.0)
  {
  }

  /** The text `float` is given: without `%`, stripped, without `,`. */
  function CleanPercent(s: string): string
  {
    RemoveChar(Strip(RemoveChar(s, '%')), ',')
  }

  /** A whole-number percentage is its number over a hundred: `"28%"` is `0.28`. */
  lemma DigitsPercentNormalizes(d: string)
    requires d != [] && AllDigits(d)
    ensures NormalizePercentage(d + "%").Some?
    ensures NormalizePercentage(d + "%").value * 100.0 == DigitsValue(d) as real
  {
    NoSeparatorIn(d);
    RemoveTrailing(d, '%');
    NoSpaceIsStripped(d);
    RemoveAbsent(d, ',');
    CleansToDigits(d + "%", d);
  }

  /** Thousands separators are dropped: `"1,250%"` is `12.5`. */
  lemma GroupedPercentNormalizes(a: string, b: string)
    requires a != [] && AllDigits(a) && b != [] && AllDigits(b)
    ensures NormalizePercentage(a + "," + b + "%").Some?
    ensures NormalizePercentage(a + "," + b + "%").value * 100.0 == DigitsValue(a + b) as real
  {
    GroupedDigitsNormalize(a + "," + b + "%", a, b, a + b);
  }

  lemma GroupedDigitsNormalize(s: string, a: string, b: string, d: string)
    requires a != [] && AllDigits(a) && b != [] && AllDigits(b)
    requires s == a + "," + b + "%" && d == a + b
    ensures NormalizePercentage(s).Some? && NormalizePercentage(s).value * 100.0 == DigitsValue(d) as real
  {
    GroupedCleans(a, b);
    DigitsValueConcat(a, b);
    CleansToDigits(s, d);
  }

  /** A lone `%` (or blanks around it) is not a number. */
  lemma BlankPercentUnparsed(s: string)
    requires CleanPercent(s) == []
    ensures NormalizePercentage(s) == None
  {
    assert Strip([]) == [];
  }

  /** Text that cleans up to a run of digits normalises to that number over a hundred. */
  lemma CleansToDigits(s: string, d: string)
    requires d != [] && AllDigits(d) && CleanPercent(s) == d
    ensures NormalizePercentage(s).Some? && NormalizePercentage(s).value * 100.0 == DigitsValue(d) as real
  {
    ParseFloatOfDigits(d);
    PercentOfFloat(s, d, DigitsValue(d) as real);
  }

  /** Whatever `float` reads from the cleaned text, the percentage is a hundredth of it. */
  lemma PercentOfFloat(s: string, t: string, x: real)
    requires CleanPercent(s) == t && ParseFloat(t) == Some(x)
    ensures NormalizePercentage(s) == Some(x / 100.0)
  {
    HundredthOfSome(ParseFloat(CleanPercent(s)), x);
  }

  lemma GroupedCleans(a: string, b: string)
    requires a != [] && AllDigits(a) && b != [] && AllDigits(b)
    ensures CleanPercent(a + "," + b + "%") == a + b
  {
    var g := a + "," + b;
    NoSeparatorIn(a);
    NoSeparatorIn(b);
    assert '%' !in g;
    RemoveTrailing(g, '%');
    GroupStripped(a, b);
    GroupUnseparated(a, b);
  }

  /** A digit group `a,b` has no blank at either end. */
  lemma GroupStripped(a: string, b: string)
    requires a != [] && AllDigits(a) && b != [] && AllDigits(b)
    ensures Strip(a + "," + b) == a + "," + b
  {
    var g := a + "," + b;
    assert g[0] == a[0] && g[|g| - 1] == b[|b| - 1];
    assert IsDigit(a[0]) && IsDigit(b[|b| - 1]);
    EndsNotSpaceStripped(g);
  }

  /** Removing the separator from `a,b` leaves `a` followed by `b`. */
  lemma GroupUnseparated(a: string, b: string)
    requires ',' !in a && ',' !in b
    ensures RemoveChar(a + "," + b, ',') == a + b
  {
    RemoveInner(a, b, ',', ',');
    assert RemoveChar(",", ',') == [];
    assert a + [] == a;
  }

  lemma NoSeparatorIn(d: string)
    requires AllDigits(d)
    ensures ',' !in d && '%' !in d
  {
    forall i | 0 <= i < |d| ensures d[i] != ',' && d[i] != '%' { assert IsDigit(d[i]); }
  }

  /** `strftime('%Y-%m-%d')`; the C library prints the year without padding. */
  function StrftimeIso(d: CalendarDate): (s: string)
    ensures d.year >= 1000 ==> s == IsoFormat(d)
  {
    FourDigitYear(d.year as nat);
    NatToString(d.year as nat) + "-" + ZeroPad(d.month as nat, 2) + "-" + ZeroPad(d.day as nat, 2)
  }

  /** From year 1000 on the unpadded year is the year padded to four digits. */
  lemma FourDigitYear(y: nat)
    ensures y >= 1000 ==> NatToString(y) == ZeroPad(y, 4)
  {
    if y >= 1000 {
      assert Pow10(3) == 1000;
      NatToStringLengthAtLeast(y, 4);
    }
  }

  /** `normalize_date`: `dateutil` reads a whole `Month D, YYYY` text as that calendar
      day (and raises when the calendar has no such day); `parseOther` stands for it
      on every other text. Where parsing fails the text comes back unchanged. */
  function NormalizeDate(s: string, parseOther: string -> Option<CalendarDate>): string
  {
    var t := LongDateScan(s, true);
    if t.Some? && t.value.len == |s| then
      var d := Date(DigitsValue(t.value.year), t.value.month + 1, DigitsValue(t.value.day));
      if Valid(d) then StrftimeIso(d) else s
    else
      var d := parseOther(s);
      if d.Some? then StrftimeIso(d.value) else s
  }

  /** A date as the metrics document displays it (`%B %d, %Y`) normalises to its ISO
      form, from year 1000 on. */
  lemma DisplayDateNormalizes(d: CalendarDate, parseOther: string -> Option<CalendarDate>)
    requires d.year >= 1000
    ensures NormalizeDate(DisplayDateText(d, ZeroPad(d.day as nat, 2)), parseOther) == IsoFormat(d)
  {
    assert Pow10(2) == 100;
    ZeroPadWidth(d.day as nat, 2);
    ZeroPadValue(d.day as nat, 2);
    WrittenDateNormalizes(d, ZeroPad(d.day as nat, 2), parseOther);
  }

  /** The same date with the day unpadded ("August 5" for "August 05") normalises alike. */
  lemma UnpaddedDayNormalizes(d: CalendarDate, parseOther: string -> Option<CalendarDate>)
    requires d.year >= 1000
    ensures NormalizeDate(DisplayDateText(d, NatToString(d.day as nat)), parseOther) == IsoFormat(d)
  {
    assert Pow10(2) == 100;
    NatToStringLength(d.day as nat, 2);
    DigitsValueOfNatToString(d.day as nat);
    WrittenDateNormalizes(d, NatToString(d.day as nat), parseOther);
  }

  /** `Month D, YYYY` with the given day digits. */
  function DisplayDateText(d: CalendarDate, day: string): string
  {
    MonthNames[d.month - 1] + " " + day + ", " + NatToString(d.year as nat)
  }

  lemma WrittenDateNormalizes(d: CalendarDate, day: string, parseOther: string -> Option<CalendarDate>)
    requires d.year >= 1000 && 1 <= |day| <= 2 && AllDigits(day) && DigitsValue(day) == d.day
    ensures NormalizeDate(DisplayDateText(d, day), parseOther) == IsoFormat(d)
  {
    var y := NatToString(d.year as nat);
    assert Pow10(3) == 1000 && Pow10(4) == 10000;
    NatToStringLengthAtLeast(d.year as nat, 4);
    NatToStringLength(d.year as nat, 4);
    DigitsValueOfNatToString(d.year as nat);
    var m := d.month - 1;
    LongDateOf(m, day, y, true);
    var s := DisplayDateText(d, day);
    assert |s| == |MonthNames[m]| + |day| + 7;
    WholeLongDate(s, parseOther, m, day, y);
    assert Date(DigitsValue(y), m + 1, DigitsValue(day)) == d;
  }

  /** A text that is one whole `Month D, YYYY` token of a calendar day normalises to
      that day. */
  lemma WholeLongDate(s: string, parseOther: string -> Option<CalendarDate>, m: nat, day: string, year: string)
    requires var t := LongDateScan(s, true);
      t.Some? && t.value.len == |s| && t.value.month == m && t.value.day == day && t.value.year == year
    requires Valid(Date(DigitsValue(year), m + 1, DigitsValue(day)))
    ensures NormalizeDate(s, parseOther) == StrftimeIso(Date(DigitsValue(year), m + 1, DigitsValue(day)))
  {
  }

  // ---------------------------------------------------------------------------
  // The allowed sets
  // ---------------------------------------------------------------------------

  /** `metrics_v2.get('audit_index', {})`. */
  function AuditIndexOf(v2: Json): Result<Json>
  {
    GetOr(v2, "audit_index", EmptyObj)
  }

  /** `for x in audit_index.get(key, [])`. */
  function IndexItems(index: Json, key: string): Result<seq<Json>>
  {
    var v :- GetOr(index, key, JArr([]));
    Iterate(v)
  }

  /** How percentage strings and date strings are normalised; the audit uses
      `NormalizePercentage` and `DateNormalizer`, the lemmas about the lists hold for any. */
  type PercentNorm = string -> Option<real>
  type DateNorm = string -> string

  function DateNormalizer(parseOther: string -> Option<CalendarDate>): DateNorm
  {
    s => NormalizeDate(s, parseOther)
  }

  /** The values of the items that are strings and normalise, in order; the others
      raise inside the `try` and are skipped. */
  function PercentList(items: seq<Json>, norm: PercentNorm): (vs: seq<real>)
    ensures |vs| <= |items|
  {
    if items == [] then []
    else
      var last := items[|items| - 1];
      var v := if last.JStr? then norm(last.s) else None;
      PercentList(items[..|items| - 1], norm) + (if v.Some? then [v.value] else [])
  }

  /** The item is a string that normalises to `v`. */
  predicate NormalizesTo(item: Json, v: real, norm: PercentNorm)
  {
    item.JStr? && norm(item.s) == Some(v)
  }

  /** The list holds exactly the values the items normalise to. */
  lemma {:induction false} PercentListHas(items: seq<Json>, v: real, norm: PercentNorm)
    ensures v in PercentList(items, norm) <==> exists i :: 0 <= i < |items| && NormalizesTo(items[i], v, norm)
  {
    if items != [] {
      var init := items[..|items| - 1];
      PercentListHas(init, v, norm);
      if v in PercentList(items, norm) {
        if v in PercentList(init, norm) {
          var i :| 0 <= i < |init| && NormalizesTo(init[i], v, norm);
          assert items[i] == init[i];
        } else {
          assert NormalizesTo(items[|items| - 1], v, norm);
        }
      }
      if exists i :: 0 <= i < |items| && NormalizesTo(items[i], v, norm) {
        var i :| 0 <= i < |items| && NormalizesTo(items[i], v, norm);
        if i < |init| {
          assert init[i] == items[i];
        }
      }
    }
  }

  /** `numeric_percents` as a set. */
  function PercentSet(items: seq<Json>, norm: PercentNorm): set<real>
  {
    set v | v in PercentList(items, norm)
  }

  lemma PercentSetStep(items: seq<Json>, i: nat, norm: PercentNorm)
    requires i < |items|
    ensures PercentSet(items[..i + 1], norm) == PercentSet(items[..i], norm) +
      (if items[i].JStr? && norm(items[i].s).Some? then {norm(items[i].s).value} else {})
  {
    assert items[..i + 1][..i] == items[..i];
  }

  /** `normalize_date(x)`: a string is normalised; any other item is returned as it is
      (dateutil raises and the function hands back its input). */
  function DateOut(item: Json, norm: DateNorm): (r: Json)
    ensures Hashable(r) <==> Hashable(item)
  {
    if item.JStr? then JStr(norm(item.s)) else item
  }

  /** `dates_iso` as a list: one entry per item. */
  function DateList(items: seq<Json>, norm: DateNorm): (r: seq<Json>)
    ensures |r| == |items| && forall i :: 0 <= i < |items| ==> r[i] == DateOut(items[i], norm)
  {
    seq(|items|, i requires 0 <= i < |items| => DateOut(items[i], norm))
  }

  /** `dates_iso` as a set. */
  function DateSet(items: seq<Json>, norm: DateNorm): set<Json>
  {
    set i | 0 <= i < |items| && Hashable(items[i]) :: DateOut(items[i], norm)
  }

  lemma DateSetStep(items: seq<Json>, i: nat, norm: DateNorm)
    requires i < |items|
    ensures DateSet(items[..i + 1], norm) == DateSet(items[..i], norm) +
      (if Hashable(items[i]) then {DateOut(items[i], norm)} else {})
  {
    var a, b := items[..i + 1], items[..i];
    forall x | x in DateSet(a, norm)
      ensures x in DateSet(b, norm) + (if Hashable(items[i]) then {DateOut(items[i], norm)} else {})
    {
      var j :| 0 <= j < |a| && Hashable(a[j]) && x == DateOut(a[j], norm);
      if j < i {
        assert b[j] == a[j];
      }
    }
    forall x | x in DateSet(b, norm)
      ensures x in DateSet(a, norm)
    {
      var j :| 0 <= j < |b| && Hashable(b[j]) && x == DateOut(b[j], norm);
      assert a[j] == b[j];
    }
    if Hashable(items[i]) {
      assert a[i] == items[i];
    }
  }

  datatype AuditSets = AuditSets(percents: set<real>, dates: set<Json>)

  /** `build_audit_sets`: `Err` where a `.get` meets a non-dictionary or a category
      is not iterable. */
  function AuditSetsOf(v2: Json, parseOther: string -> Option<CalendarDate>): Result<AuditSets>
  {
    var index :- AuditIndexOf(v2);
    var ps :- IndexItems(index, "percent_strings");
    var ds :- IndexItems(index, "dates");
    Ok(AuditSets(PercentSet(ps, NormalizePercentage), DateSet(ds, DateNormalizer(parseOther))))
  }

  method BuildAuditSets(v2: Json, parseOther: string -> Option<CalendarDate>) returns (r: Result<AuditSets>)
    ensures r == AuditSetsOf(v2, parseOther)
  {
    var index :- AuditIndexOf(v2);
    var percentStrings :- IndexItems(index, "percent_strings");
    var numericPercents := CollectPercentSet(percentStrings, NormalizePercentage);
    var dates :- IndexItems(index, "dates");
    var datesIso := CollectDateSet(dates, DateNormalizer(parseOther));
    return Ok(AuditSets(numericPercents, datesIso));
  }

  /** The loop over `percent_strings` of `build_audit_sets`. */
  method CollectPercentSet(items: seq<Json>, norm: PercentNorm) returns (numericPercents: set<real>)
    ensures numericPercents == PercentSet(items, norm)
  {
    numericPercents := {};
    var i := 0;
    while i < |items|
      invariant 0 <= i <= |items|
      invariant numericPercents == PercentSet(items[..i], norm)
    {
      PercentSetStep(items, i, norm);
      if items[i].JStr? {
        var normalized := norm(items[i].s);
        if normalized.Some? {
          numericPercents := numericPercents + {normalized.value};
        }
      }
      i := i + 1;
    }
    assert items[..i] == items;
  }

  /** The loop over `dates` of `build_audit_sets`. */
  method CollectDateSet(items: seq<Json>, norm: DateNorm) returns (datesIso: set<Json>)
    ensures datesIso == DateSet(items, norm)
  {
    datesIso := {};
    var i := 0;
    while i < |items|
      invariant 0 <= i <= |items|
      invariant datesIso == DateSet(items[..i], norm)
    {
      DateSetStep(items, i, norm);
      var normalized := DateOut(items[i], norm);
      if Hashable(normalized) {
        datesIso := datesIso + {normalized};
      }
      i := i + 1;
    }
    assert items[..i] == items;
  }

  /** The allowed percentages are those the index's `percent_strings` normalise to. */
  lemma AllowedPercentsOf(v2: Json, parseOther: string -> Option<CalendarDate>)
    requires AuditSetsOf(v2, parseOther).Ok?
    ensures AuditIndexOf(v2).Ok? && IndexItems(AuditIndexOf(v2).value, "percent_strings").Ok?
    ensures AuditSetsOf(v2, parseOther).value.percents ==
      PercentSet(IndexItems(AuditIndexOf(v2).value, "percent_strings").value, NormalizePercentage)
  {
  }

  /** Without an audit index nothing is allowed. */
  lemma MissingIndexGivesEmptySets(v2: Json, parseOther: string -> Option<CalendarDate>)
    requires v2.JObj? && !Has(v2, "audit_index")
    ensures AuditSetsOf(v2, parseOther) == Ok(AuditSets({}, {}))
  {
    assert IndexItems(EmptyObj, "percent_strings") == Ok([]);
    assert IndexItems(EmptyObj, "dates") == Ok([]);
    assert PercentSet([], NormalizePercentage) == {};
    assert DateSet([], DateNormalizer(parseOther)) == {};
  }

  // ---------------------------------------------------------------------------
  // audit_text
  // ---------------------------------------------------------------------------

  datatype PercentViolation = PercentOutside(text: string, normalized: real) | PercentUnparsed(text: string)
  datatype DateViolation = DateViolation(text: string, normalized: string)

  datatype AuditReport = AuditReport(
    passed: bool,
    foundPercentages: seq<string>,
    foundDates: seq<string>,
    unauthorizedPercentages: seq<PercentViolation>,
    unauthorizedDates: seq<DateViolation>,
    totalViolations: nat,
    allowedPercentsCount: nat,
    allowedDatesCount: nat)

  /** Some allowed value lies within the tolerance. */
  predicate Within(v: real, allowed: set<real>, tol: real)
  {
    exists a :: a in allowed && Abs(v - a) <= tol
  }

  predicate PercentAuthorized(p: string, allowed: set<real>, tol: real, norm: PercentNorm)
  {
    norm(p).Some? && Within(norm(p).value, allowed, tol)
  }

  /** One violation per found percentage that does not normalise or lies outside the
      tolerance of every allowed value, in text order. */
  function PercentViolations(found: seq<string>, allowed: set<real>, tol: real, norm: PercentNorm): (r: seq<PercentViolation>)
    ensures |r| <= |found|
  {
    if found == [] then []
    else
      var p := found[|found| - 1];
      var v := norm(p);
      PercentViolations(found[..|found| - 1], allowed, tol, norm) +
        (if v.None? then [PercentUnparsed(p)]
         else if Within(v.value, allowed, tol) then []
         else [PercentOutside(p, v.value)])
  }

  /** No violation exactly when every found percentage is authorised. */
  lemma {:induction false} NoPercentViolationsIff(found: seq<string>, allowed: set<real>, tol: real, norm: PercentNorm)
    ensures PercentViolations(found, allowed, tol, norm) == [] <==>
      forall k :: 0 <= k < |found| ==> PercentAuthorized(found[k], allowed, tol, norm)
  {
    if found != [] {
      var init := found[..|found| - 1];
      NoPercentViolationsIff(init, allowed, tol, norm);
      if PercentViolations(found, allowed, tol, norm) == [] {
        forall k | 0 <= k < |found|
          ensures PercentAuthorized(found[k], allowed, tol, norm)
        {
          if k < |init| {
            assert init[k] == found[k];
          }
        }
      }
      if forall k :: 0 <= k < |found| ==> PercentAuthorized(found[k], allowed, tol, norm) {
        assert forall k :: 0 <= k < |init| ==> init[k] == found[k];
        assert PercentAuthorized(found[|found| - 1], allowed, tol, norm);
      }
    }
  }

  predicate DateAuthorized(d: string, allowed: set<Json>, norm: DateNorm)
  {
    JStr(norm(d)) in allowed
  }

  /** One violation per found date whose normal form is not allowed, in text order. */
  function DateViolations(found: seq<string>, allowed: set<Json>, norm: DateNorm): (r: seq<DateViolation>)
    ensures |r| <= |found|
  {
    if found == [] then []
    else
      var d := found[|found| - 1];
      var n := norm(d);
      DateViolations(found[..|found| - 1], allowed, norm) + (if JStr(n) in allowed then [] else [DateViolation(d, n)])
  }

  /** No violation exactly when every found date is authorised. */
  lemma {:induction false} NoDateViolationsIff(found: seq<string>, allowed: set<Json>, norm: DateNorm)
    ensures DateViolations(found, allowed, norm) == [] <==>
      forall k :: 0 <= k < |found| ==> DateAuthorized(found[k], allowed, norm)
  {
    if found != [] {
      var init := found[..|found| - 1];
      NoDateViolationsIff(init, allowed, norm);
      if DateViolations(found, allowed, norm) == [] {
        forall k | 0 <= k < |found|
          ensures DateAuthorized(found[k], allowed, norm)
        {
          if k < |init| {
            assert init[k] == found[k];
          }
        }
      }
      if forall k :: 0 <= k < |found| ==> DateAuthorized(found[k], allowed, norm) {
        assert forall k :: 0 <= k < |init| ==> init[k] == found[k];
        assert DateAuthorized(found[|found| - 1], allowed, norm);
      }
    }
  }

  /** The report on `text` against the allowed sets. */
  function ReportOf(text: string, sets: AuditSets, tol: real, percentNorm: PercentNorm, dateNorm: DateNorm): AuditReport
  {
    var fp, fd := ExtractPercentages(text), ExtractDates(text);
    var bp := PercentViolations(fp, sets.percents, tol, percentNorm);
    var bd := DateViolations(fd, sets.dates, dateNorm);
    AuditReport(|bp| + |bd| == 0, fp, fd, bp, bd, |bp| + |bd|, |sets.percents|, |sets.dates|)
  }

  /** `audit_text`: `Err` where building the allowed sets raises. */
  function AuditOf(text: string, v2: Json, tol: real, parseOther: string -> Option<CalendarDate>): Result<AuditReport>
  {
    var sets :- AuditSetsOf(v2, parseOther);
    Ok(ReportOf(text, sets, tol, NormalizePercentage, DateNormalizer(parseOther)))
  }

  /** The audit passes exactly when every found percentage normalises to a value within
      the tolerance of an allowed one and every found date normalises to an allowed date. */
  lemma AuditPassedIff(text: string, v2: Json, tol: real, parseOther: string -> Option<CalendarDate>)
    requires AuditSetsOf(v2, parseOther).Ok?
    ensures AuditOf(text, v2, tol, parseOther).Ok?
    ensures var sets := AuditSetsOf(v2, parseOther).value;
      var fp, fd := ExtractPercentages(text), ExtractDates(text);
      AuditOf(text, v2, tol, parseOther).value.passed <==>
        (forall k :: 0 <= k < |fp| ==> PercentAuthorized(fp[k], sets.percents, tol, NormalizePercentage)) &&
        (forall k :: 0 <= k < |fd| ==> DateAuthorized(fd[k], sets.dates, DateNormalizer(parseOther)))
  {
    var sets := AuditSetsOf(v2, parseOther).value;
    NoPercentViolationsIff(ExtractPercentages(text), sets.percents, tol, NormalizePercentage);
    NoDateViolationsIff(ExtractDates(text), sets.dates, DateNormalizer(parseOther));
  }

  /** The report's fields: what was found, and the total as the sum of the two lists. */
  lemma AuditReportFields(text: string, v2: Json, tol: real, parseOther: string -> Option<CalendarDate>)
    requires AuditOf(text, v2, tol, parseOther).Ok?
    ensures var a := AuditOf(text, v2, tol, parseOther).value;
      a.foundPercentages == ExtractPercentages(text) && a.foundDates == ExtractDates(text) &&
      a.totalViolations == |a.unauthorizedPercentages| + |a.unauthorizedDates| &&
      |a.unauthorizedPercentages| <= |a.foundPercentages| && |a.unauthorizedDates| <= |a.foundDates|
  {
  }

  method AuditText(text: string, v2: Json, tol: real, parseOther: string -> Option<CalendarDate>) returns (r: Result<AuditReport>)
    ensures r == AuditOf(text, v2, tol, parseOther)
  {
    var foundPercentages := ExtractPercentages(text);
    var foundDates := ExtractDates(text);
    var sets :- BuildAuditSets(v2, parseOther);
    var badPercents := CollectPercentViolations(foundPercentages, sets.percents, tol, NormalizePercentage);
    var badDates := CollectDateViolations(foundDates, sets.dates, DateNormalizer(parseOther));
    var total := |badPercents| + |badDates|;
    var report := AuditReport(total == 0, foundPercentages, foundDates, badPercents, badDates, total,
      |sets.percents|, |sets.dates|);
    assert report == ReportOf(text, sets, tol, NormalizePercentage, DateNormalizer(parseOther));
    return Ok(report);
  }

  /** The loop over the found percentages of `audit_text`, with its inner search for an
      allowed value within the tolerance. */
  method CollectPercentViolations(found: seq<string>, allowed: set<real>, tol: real, norm: PercentNorm)
    returns (bad: seq<PercentViolation>)
    ensures bad == PercentViolations(found, allowed, tol, norm)
  {
    bad := [];
    var i := 0;
    while i < |found|
      invariant 0 <= i <= |found|
      invariant bad == PercentViolations(found[..i], allowed, tol, norm)
    {
      var percentStr := found[i];
      assert found[..i + 1][..i] == found[..i];
      var normalized := norm(percentStr);
      if normalized.None? {
        bad := bad + [PercentUnparsed(percentStr)];
      } else {
        var v := normalized.value;
        var isAllowed := AnyWithin(v, allowed, tol);
        if !isAllowed {
          bad := bad + [PercentOutside(percentStr, v)];
        }
      }
      i := i + 1;
    }
    assert found[..i] == found;
  }

  /** The inner loop of `audit_text`: stops at the first allowed value within the
      tolerance. */
  method AnyWithin(v: real, allowed: set<real>, tol: real) returns (isAllowed: bool)
    ensures isAllowed <==> Within(v, allowed, tol)
  {
    isAllowed := false;
    var rest := allowed;
    while rest != {}
      invariant rest <= allowed
      invariant forall a :: a in allowed && a !in rest ==> Abs(v - a) > tol
      decreases |rest|
    {
      NonEmptyHasMember(rest);
      var a :| a in rest;
      if Abs(v - a) <= tol {
        isAllowed := true;
        return;
      }
      rest := rest - {a};
    }
  }

  /** A set other than the empty set has a member to draw. */
  lemma NonEmptyHasMember(s: set<real>)
    requires s != {}
    ensures exists x :: x in s
  {
    if forall x :: x !in s {
      assert false;
    }
  }

  /** The loop over the found dates of `audit_text`. */
  method CollectDateViolations(found: seq<string>, allowed: set<Json>, norm: DateNorm) returns (bad: seq<DateViolation>)
    ensures bad == DateViolations(found, allowed, norm)
  {
    bad := [];
    var i := 0;
    while i < |found|
      invariant 0 <= i <= |found|
      invariant bad == DateViolations(found[..i], allowed, norm)
    {
      var dateStr := found[i];
      assert found[..i + 1][..i] == found[..i];
      var normalized := norm(dateStr);
      if JStr(normalized) !in allowed {
        bad := bad + [DateViolation(dateStr, normalized)];
      }
      i := i + 1;
    }
    assert found[..i] == found;
  }

  /** `audit_with_fallback`: the text itself when it passes, else the skeleton, with
      whether the fallback was used. */
  method AuditWithFallback(text: string, skeleton: string, v2: Json, tol: real, parseOther: string -> Option<CalendarDate>)
    returns (r: Result<(string, bool)>)
    ensures r.Err? <==> AuditOf(text, v2, tol, parseOther).Err?
    ensures r.Ok? ==> r.value.1 == !AuditOf(text, v2, tol, parseOther).value.passed
    ensures r.Ok? ==> r.value.0 == if r.value.1 then skeleton else text
  {
    var audit :- AuditText(text, v2, tol, parseOther);
    if audit.passed {
      return Ok((text, false));
    } else {
      return Ok((skeleton, true));
    }
  }

  // ---------------------------------------------------------------------------
  // Reflexivity: text made of the index's own percent strings passes
  // ---------------------------------------------------------------------------

  /** Each string is a whole percentage match. */
  predicate PercentTokens(ps: seq<string>)
  {
    forall k :: 0 <= k < |ps| ==> GroupedPercentMatch(ps[k]) == Some(|ps[k]|)
  }

  /** A whole percentage is found first, and the scan goes on after it. */
  lemma FindAllToken(tok: string, rest: string)
    requires GroupedPercentMatch(tok) == Some(|tok|)
    ensures FindAll(GroupedPercent, tok + rest) == [tok] + FindAll(GroupedPercent, rest)
  {
    PercentShapeExtend(tok, rest, GroupedNumber);
    var s := tok + rest;
    assert s[..|tok|] == tok && s[|tok|..] == rest;
  }

  /** Nothing is found at a space. */
  lemma FindAllSpace(rest: string)
    requires rest != [] && IsSpace(rest[0])
    ensures FindAll(GroupedPercent, rest) == FindAll(GroupedPercent, rest[1..])
  {
    NoGroupedPercentAtSpace(rest);
  }

  /** Extracting from percentages joined by spaces gives them back. */
  lemma ExtractJoined(ps: seq<string>)
    requires PercentTokens(ps)
    ensures ExtractPercentages(Join(ps, " ")) == ps
  {
    FindAllJoined(ps);
  }

  lemma {:induction false} FindAllJoined(ps: seq<string>)
    requires PercentTokens(ps)
    ensures FindAll(GroupedPercent, Join(ps, " ")) == ps
  {
    if |ps| == 1 {
      FindAllToken(ps[0], "");
      assert ps[0] + "" == ps[0];
    } else if |ps| >= 2 {
      var rest := ps[1..];
      assert PercentTokens(rest) by {
        forall k | 0 <= k < |rest| ensures GroupedPercentMatch(rest[k]) == Some(|rest[k]|) {
          assert rest[k] == ps[k + 1];
        }
      }
      FindAllJoined(rest);
      FindAllJoinStep(ps);
      ConsBack(ps, FindAll(GroupedPercent, Join(ps, " ")), FindAll(GroupedPercent, Join(rest, " ")));
    }
  }

  lemma ConsBack<T>(ps: seq<T>, whole: seq<T>, tail: seq<T>)
    requires ps != [] && whole == [ps[0]] + tail && tail == ps[1..]
    ensures whole == ps
  {
  }

  lemma FindAllJoinStep(ps: seq<string>)
    requires |ps| >= 2 && GroupedPercentMatch(ps[0]) == Some(|ps[0]|)
    ensures FindAll(GroupedPercent, Join(ps, " ")) == [ps[0]] + FindAll(GroupedPercent, Join(ps[1..], " "))
  {
    var j := Join(ps[1..], " ");
    assert Join(ps, " ") == ps[0] + (" " + j);
    FindAllToken(ps[0], " " + j);
    FindAllSpace(" " + j);
    assert (" " + j)[1..] == j;
  }

  /** Percentages joined by spaces hold no letter, hence no date. */
  lemma {:induction false} JoinedHasNoLetters(ps: seq<string>)
    requires PercentTokens(ps)
    ensures forall i :: 0 <= i < |Join(ps, " ")| ==> !IsAlpha(Join(ps, " ")[i])
  {
    if |ps| == 1 {
      PercentShapeNoLetters(ps[0], GroupedNumber);
    } else if |ps| >= 2 {
      PercentShapeNoLetters(ps[0], GroupedNumber);
      assert PercentTokens(ps[1..]);
      JoinedHasNoLetters(ps[1..]);
      var j := Join(ps[1..], " ");
      var s := ps[0] + " " + j;
      assert Join(ps, " ") == s;
      forall i | 0 <= i < |s|
        ensures !IsAlpha(s[i])
      {
        if i > |ps[0]| {
          assert s[i] == j[i - |ps[0]| - 1];
        }
      }
    }
  }

  /** A text made only of percent strings from the index, each normalising, passes the
      audit at any tolerance. */
  lemma IndexPercentsPass(ps: seq<string>, items: seq<Json>, sets: AuditSets, tol: real,
                          percentNorm: PercentNorm, dateNorm: DateNorm)
    requires PercentTokens(ps) && FromIndex(ps, items, sets, tol, percentNorm)
    ensures ReportOf(Join(ps, " "), sets, tol, percentNorm, dateNorm).passed
  {
    JoinedFindings(ps);
    ReportPasses(Join(ps, " "), ps, items, sets, tol, percentNorm, dateNorm);
  }

  /** Each string is in the index and normalises, and the allowed percentages are those
      the index items normalise to. */
  predicate FromIndex(ps: seq<string>, items: seq<Json>, sets: AuditSets, tol: real, norm: PercentNorm)
  {
    tol >= 0.0 && sets.percents == PercentSet(items, norm) &&
    forall k :: 0 <= k < |ps| ==> JStr(ps[k]) in items && norm(ps[k]).Some?
  }

  /** The findings in the text are exactly these percentages and no date. */
  predicate FindsExactly(text: string, ps: seq<string>)
  {
    ExtractPercentages(text) == ps && ExtractDates(text) == []
  }

  lemma ReportPasses(text: string, ps: seq<string>, items: seq<Json>, sets: AuditSets, tol: real,
                     percentNorm: PercentNorm, dateNorm: DateNorm)
    requires FindsExactly(text, ps) && FromIndex(ps, items, sets, tol, percentNorm)
    ensures ReportOf(text, sets, tol, percentNorm, dateNorm).passed
  {
    IndexPercentsAllowed(ps, items, tol, percentNorm);
  }

  lemma AuditIsReport(text: string, v2: Json, tol: real, parseOther: string -> Option<CalendarDate>)
    requires AuditSetsOf(v2, parseOther).Ok?
    ensures AuditOf(text, v2, tol, parseOther).Ok?
    ensures AuditOf(text, v2, tol, parseOther).value.passed ==
      ReportOf(text, AuditSetsOf(v2, parseOther).value, tol, NormalizePercentage, DateNormalizer(parseOther)).passed
  {
  }

  /** What the audit finds in percent strings joined by spaces: those strings, and no date. */
  lemma JoinedFindings(ps: seq<string>)
    requires PercentTokens(ps)
    ensures FindsExactly(Join(ps, " "), ps)
  {
    ExtractJoined(ps);
    JoinedHasNoLetters(ps);
    NoDatesWithoutLetters(Join(ps, " "), true);
  }

  lemma IndexPercentsAllowed(ps: seq<string>, items: seq<Json>, tol: real, norm: PercentNorm)
    requires tol >= 0.0
    requires forall k :: 0 <= k < |ps| ==> JStr(ps[k]) in items && norm(ps[k]).Some?
    ensures PercentViolations(ps, PercentSet(items, norm), tol, norm) == []
  {
    forall k | 0 <= k < |ps|
      ensures PercentAuthorized(ps[k], PercentSet(items, norm), tol, norm)
    {
      IndexPercentAllowed(items, ps[k], tol, norm);
    }
    NoPercentViolationsIff(ps, PercentSet(items, norm), tol, norm);
  }

  /** A percent string of the index is allowed: its own value is within any tolerance. */
  lemma IndexPercentAllowed(items: seq<Json>, p: string, tol: real, norm: PercentNorm)
    requires tol >= 0.0 && JStr(p) in items && norm(p).Some?
    ensures PercentAuthorized(p, PercentSet(items, norm), tol, norm)
  {
    var v := norm(p).value;
    var i :| 0 <= i < |items| && items[i] == JStr(p);
    assert NormalizesTo(items[i], v, norm);
    PercentListHas(items, v, norm);
    assert v in PercentSet(items, norm);
    assert Abs(v - v) <= tol;
  }

  /** With no allowed percentages, any percentage in the text fails the audit. */
  lemma EmptyIndexRejectsPercentages(text: string, v2: Json, tol: real, parseOther: string -> Option<CalendarDate>)
    requires AuditSetsOf(v2, parseOther) == Ok(AuditSets({}, {}))
    requires ExtractPercentages(text) != []
    ensures !AuditOf(text, v2, tol, parseOther).value.passed
  {
    var found := ExtractPercentages(text);
    assert !PercentAuthorized(found[0], {}, tol, NormalizePercentage);
    NoPercentViolationsIff(found, {}, tol, NormalizePercentage);
  }

  // ---------------------------------------------------------------------------
  // create_enhanced_audit_index
  // ---------------------------------------------------------------------------

  function Nums(xs: seq<real>): (r: seq<Json>)
    ensures |r| == |xs| && forall i :: 0 <= i < |xs| ==> r[i] == JNum(xs[i])
  {
    seq(|xs|, i requires 0 <= i < |xs| => JNum(xs[i]))
  }

  /** The audit index copied, with `numeric_percents` and `dates_iso` set. Anything but
      a dictionary fails at `.copy()` or `.get`. */
  function EnhancedIndexOf(v2: Json, parseOther: string -> Option<CalendarDate>): Result<Json>
  {
    var index :- AuditIndexOf(v2);
    if !index.JObj? then Err("audit_index must be a dictionary")
    else
      var ps :- IndexItems(index, "percent_strings");
      var ds :- IndexItems(index, "dates");
      Ok(JObj(Assign(Assign(index.fields, "numeric_percents", JArr(Nums(PercentList(ps, NormalizePercentage)))),
        "dates_iso", JArr(DateList(ds, DateNormalizer(parseOther))))))
  }

  method CreateEnhancedAuditIndex(v2: Json, parseOther: string -> Option<CalendarDate>) returns (r: Result<Json>)
    ensures r == EnhancedIndexOf(v2, parseOther)
  {
    var index :- AuditIndexOf(v2);
    if !index.JObj? {
      return Err("audit_index must be a dictionary");
    }
    var percentStrings :- IndexItems(index, "percent_strings");
    var numericPercents := CollectPercentList(percentStrings, NormalizePercentage);
    var dates :- IndexItems(index, "dates");
    var datesIso := CollectDateList(dates, DateNormalizer(parseOther));
    var fields := Assign(index.fields, "numeric_percents", JArr(Nums(numericPercents)));
    fields := Assign(fields, "dates_iso", JArr(datesIso));
    return Ok(JObj(fields));
  }

  /** The loop over `percent_strings` of `create_enhanced_audit_index`. */
  method CollectPercentList(items: seq<Json>, norm: PercentNorm) returns (numericPercents: seq<real>)
    ensures numericPercents == PercentList(items, norm)
  {
    numericPercents := [];
    var i := 0;
    while i < |items|
      invariant 0 <= i <= |items|
      invariant numericPercents == PercentList(items[..i], norm)
    {
      assert items[..i + 1][..i] == items[..i];
      if items[i].JStr? {
        var normalized := norm(items[i].s);
        if normalized.Some? {
          numericPercents := numericPercents + [normalized.value];
        }
      }
      i := i + 1;
    }
    assert items[..i] == items;
  }

  /** The loop over `dates` of `create_enhanced_audit_index`. */
  method CollectDateList(items: seq<Json>, norm: DateNorm) returns (datesIso: seq<Json>)
    ensures datesIso == DateList(items, norm)
  {
    datesIso := [];
    var i := 0;
    while i < |items|
      invariant 0 <= i <= |items|
      invariant datesIso == DateList(items[..i], norm)
    {
      datesIso := datesIso + [DateOut(items[i], norm)];
      i := i + 1;
    }
    assert items[..i] == items;
  }

  /** The enhanced index keeps every other entry, and its `numeric_percents` hold exactly
      the allowed percentages of the audit. */
  lemma EnhancedIndexAgreesWithAudit(v2: Json, parseOther: string -> Option<CalendarDate>, key: string)
    requires EnhancedIndexOf(v2, parseOther).Ok?
    ensures AuditSetsOf(v2, parseOther).Ok?
    ensures var e := EnhancedIndexOf(v2, parseOther).value;
      var index := AuditIndexOf(v2).value;
      e.JObj? && index.JObj? &&
      (key != "numeric_percents" && key != "dates_iso" ==> Lookup(e.fields, key) == Lookup(index.fields, key))
    ensures var e := EnhancedIndexOf(v2, parseOther).value;
      var ps := IndexItems(AuditIndexOf(v2).value, "percent_strings").value;
      var nums := Nums(PercentList(ps, NormalizePercentage));
      Lookup(e.fields, "numeric_percents") == Some(JArr(nums)) &&
      (forall v :: JNum(v) in nums <==> v in AuditSetsOf(v2, parseOther).value.percents)
  {
    var index := AuditIndexOf(v2).value;
    var ps := IndexItems(index, "percent_strings").value;
    var ds := IndexItems(index, "dates").value;
    var vs := PercentList(ps, NormalizePercentage);
    var nums := JArr(Nums(vs));
    var dates := JArr(DateList(ds, DateNormalizer(parseOther)));
    var f1 := Assign(index.fields, "numeric_percents", nums);
    AssignLookup(index.fields, "numeric_percents", nums, key);
    AssignLookup(f1, "dates_iso", dates, key);
    AssignLookup(f1, "dates_iso", dates, "numeric_percents");
    AssignLookup(index.fields, "numeric_percents", nums, "numeric_percents");
    forall v
      ensures JNum(v) in Nums(vs) <==> v in vs
    {
      NumsHas(vs, v);
    }
  }

  lemma NumsHas(xs: seq<real>, v: real)
    ensures JNum(v) in Nums(xs) <==> v in xs
  {
    if JNum(v) in Nums(xs) {
      var i :| 0 <= i < |xs| && Nums(xs)[i] == JNum(v);
    }
    if v in xs {
      var i :| 0 <= i < |xs| && xs[i] == v;
      assert Nums(xs)[i] == JNum(v);
    }
  }
}
