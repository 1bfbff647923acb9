// Two pieces of the SEC scraper (data_extraction.py) that decide what to fetch:
// the (year, quarter) list of full-index files covering a date range, and the rule
// that picks one 13F filing per reporting period from a filer's submission list.
// The HTTP requests, XML parsing and rate limiting around them are not part of this
// model; the submission list and the dates arrive as values.
module DataExtraction {
  import opened Wrappers
  import opened Text
  import opened Dates

  // ---------------------------------------------------------------------------
  // get_sec_quarters

  /** The first and last (year, quarter) to list. */
  datatype QuarterSpan = QuarterSpan(startYear: int, endYear: int, startQuarter: int, endQuarter: int)

  /** The boundary rules of `get_sec_quarters`, one set for ranges within 2023 or earlier, one
      for ranges that cross into 2024, one for ranges starting after 2023. In the middle set the
      last year is cut at April (`end.month > 3`) but the last quarter at March
      (`end.month >= 3`), so a range ending in March closes on quarter 1 of the previous year. */
  function QuarterSpanAsWritten(start: Date, end: Date): (s: QuarterSpan)
    requires 1 <= start.month <= 12 && 1 <= end.month <= 12
    ensures 1 <= s.startQuarter <= 4 && 1 <= s.endQuarter <= 4
  {
    if start.year <= 2023 && end.year <= 2023 then
      QuarterSpan(start.year, if end.month > 3 then end.year else end.year - 1,
                  (start.month - 1) / 3 + 1, if end.month > 3 then (end.month - 1) / 3 else 4)
    else if start.year <= 2023 then
      QuarterSpan(start.year, if end.month > 3 then end.year else end.year - 1,
                  (start.month - 1) / 3 + 1, if end.month >= 3 then end.month / 3 else 4)
    else
      QuarterSpan(if start.month < 12 then start.year else start.year + 1,
                  if end.month >= 3 then end.year else end.year - 1,
                  if start.month < 12 then start.month / 3 + 1 else 1,
                  if end.month >= 3 then end.month / 3 else 4)
  }

  /** The boundaries with the middle set's year cut moved to March, matching its quarter
      cut and the third set; only a range crossing into 2024 that ends in March changes. */
  function QuarterSpanOf(start: Date, end: Date): (s: QuarterSpan)
    requires 1 <= start.month <= 12 && 1 <= end.month <= 12
    ensures 1 <= s.startQuarter <= 4 && 1 <= s.endQuarter <= 4
    ensures !(start.year <= 2023 < end.year && end.month == 3) ==> s == QuarterSpanAsWritten(start, end)
    ensures start.year <= 2023 < end.year && end.month == 3 ==> s == QuarterSpanAsWritten(start, end).(endYear := end.year)
  {
    var s := QuarterSpanAsWritten(start, end);
    if start.year <= 2023 < end.year && end.month == 3 then s.(endYear := end.year) else s
  }

  /** `(y, q)` is listed for span `s`: a year of the span, a quarter 1..4, bounded by the
      start quarter in the first year and the end quarter in the last. */
  predicate InSpan(s: QuarterSpan, y: int, q: int)
  {
    s.startYear <= y <= s.endYear && 1 <= q <= 4
    && (y == s.startYear ==> s.startQuarter <= q) && (y == s.endYear ==> q <= s.endQuarter)
  }

  predicate QuarterBefore(a: (int, int), b: (int, int))
  {
    a.0 < b.0 || (a.0 == b.0 && a.1 < b.1)
  }

  predicate Ascending(vals: seq<(int, int)>)
  {
    forall i, j :: 0 <= i < j < |vals| ==> QuarterBefore(vals[i], vals[j])
  }

  /** The quarters of year `y` the loop adds: `range(lo, hi + 1)`. */
  function YearQuarters(y: int, lo: int, hi: int): (r: seq<(int, int)>)
    ensures forall i :: 0 <= i < |r| ==> r[i] == (y, lo + i)
    ensures forall q :: (y, q) in r <==> lo <= q <= hi
  {
    var n := if hi >= lo then hi - lo + 1 else 0;
    var r := seq(n, i requires 0 <= i < n => (y, lo + i));
    assert forall q :: lo <= q <= hi ==> r[q - lo] == (y, q);
    r
  }

  /** The loop of `get_sec_quarters` over the years of `s`. */
  method QuartersOfSpan(s: QuarterSpan) returns (vals: seq<(int, int)>)
    requires 1 <= s.startQuarter <= 4 && 1 <= s.endQuarter <= 4
    ensures Ascending(vals)
    ensures forall p :: p in vals <==> InSpan(s, p.0, p.1)
  {
    vals := [];
    var y := s.startYear;
    while y <= s.endYear
      invariant s.startYear <= y || s.startYear > s.endYear
      invariant Ascending(vals)
      invariant forall p :: p in vals ==> p.0 < y
      invariant forall p :: p in vals <==> InSpan(s, p.0, p.1) && p.0 < y
      decreases s.endYear - y
    {
      var lo := if y == s.startYear then s.startQuarter else 1;
      var hi := if y == s.endYear then s.endQuarter else 4;
      var more := YearQuarters(y, lo, hi);
      assert forall p :: p in more ==> p.0 == y;
      vals := vals + more;
      y := y + 1;
    }
  }

  /** `get_sec_quarters` on the parsed dates. */
  method GetSecQuarters(start: Date, end: Date) returns (vals: seq<(int, int)>)
    requires Valid(start) && Valid(end)
    ensures Ascending(vals)
    ensures forall p :: p in vals <==> InSpan(QuarterSpanAsWritten(start, end), p.0, p.1)
  {
    vals := QuartersOfSpan(QuarterSpanAsWritten(start, end));
  }

  /** Every quarter of every year strictly between the start and end years is listed. */
  lemma MiddleYearsCovered(start: Date, end: Date, y: int, q: int)
    requires Valid(start) && Valid(end)
    requires start.year < y < end.year && 1 <= q <= 4
    ensures InSpan(QuarterSpanOf(start, end), y, q)
  {
  }

  /** The quarters listed never start before the start date's year nor end after the end
      date's, as written and corrected alike. */
  lemma SpanWithinRange(start: Date, end: Date, y: int, q: int)
    requires Valid(start) && Valid(end)
    requires InSpan(QuarterSpanAsWritten(start, end), y, q) || InSpan(QuarterSpanOf(start, end), y, q)
    ensures start.year <= y <= end.year
  {
  }

  /** As written, a range from 2022-01-01 to 2024-03-31 lists only the first quarter of 2023
      and nothing of 2024; corrected, it lists all of 2023 and the first quarter of 2024. */
  lemma AsWrittenDropsMiddleQuarters()
    ensures var s := QuarterSpanAsWritten(Date(2022, 1, 1), Date(2024, 3, 31));
      InSpan(s, 2023, 1) && !InSpan(s, 2023, 2) && !InSpan(s, 2023, 3) && !InSpan(s, 2023, 4) && !InSpan(s, 2024, 1)
    ensures var s := QuarterSpanOf(Date(2022, 1, 1), Date(2024, 3, 31));
      InSpan(s, 2023, 2) && InSpan(s, 2023, 3) && InSpan(s, 2023, 4) && InSpan(s, 2024, 1)
  {
  }

  // ---------------------------------------------------------------------------
  // Filing selection in get_13f_urls_by_date

  const Original := "13F-HR"
  const Amendment := "13F-HR/A"

  /** One row of the `filings.recent` columns, zipped. */
  datatype Filing = Filing(form: string, accessionNumber: string, filingDate: string, reportDate: string)

  /** An entry of `selected`; `filed` is the parsed `filing_date`. */
  datatype Pick = Pick(form: string, accessionNumber: string, filingDate: string, filed: Date)

  /** `zip(form, accessionNumber, filingDate, reportDate)`: as long as the shortest column, so a
      response without `reportDate` yields no rows at all. */
  function ZipFilings(forms: seq<string>, accessions: seq<string>, filingDates: seq<string>, reportDates: seq<string>)
    : (fs: seq<Filing>)
    ensures |fs| <= |forms| && |fs| <= |accessions| && |fs| <= |filingDates| && |fs| <= |reportDates|
    ensures |fs| == |forms| || |fs| == |accessions| || |fs| == |filingDates| || |fs| == |reportDates|
    ensures forall i :: 0 <= i < |fs| ==> fs[i] == Filing(forms[i], accessions[i], filingDates[i], reportDates[i])
  {
    var n := Min4(|forms|, |accessions|, |filingDates|, |reportDates|);
    seq(n, i requires 0 <= i < n => Filing(forms[i], accessions[i], filingDates[i], reportDates[i]))
  }

  function Min4(a: nat, b: nat, c: nat, d: nat): (m: nat)
    ensures m <= a && m <= b && m <= c && m <= d && (m == a || m == b || m == c || m == d)
  {
    var ab := if a < b then a else b;
    var cd := if c < d then c else d;
    if ab < cd then ab else cd
  }

  /** A 13F form whose filing date parses and lies within `[start, end]`. */
  predicate InWindow(f: Filing, start: Date, end: Date)
  {
    (f.form == Original || f.form == Amendment)
    && ParseIsoDate(f.filingDate).Some?
    && NotAfter(start, ParseIsoDate(f.filingDate).value) && NotAfter(ParseIsoDate(f.filingDate).value, end)
  }

  /** The report period a filing is grouped under: its report date, else its filing date. */
  function KeyOf(f: Filing): string { if f.reportDate != "" then f.reportDate else f.filingDate }

  function PickOf(f: Filing): Pick
    requires ParseIsoDate(f.filingDate).Some?
  {
    Pick(f.form, f.accessionNumber, f.filingDate, ParseIsoDate(f.filingDate).value)
  }

  /** Whether filing `f` displaces `existing`: an amendment displaces an original, and a filing
      displaces an older one of its own form. */
  predicate Displaces(f: Filing, filed: Date, existing: Pick)
  {
    (f.form == Amendment && existing.form != Amendment) || (f.form == existing.form && Before(existing.filed, filed))
  }

  /** The `selected` dictionary: its keys in insertion order, and its entries. */
  datatype Selection = Selection(keys: seq<string>, picks: map<string, Pick>)

  /** One pass of the selection loop. */
  function Step(st: Selection, f: Filing, start: Date, end: Date): Selection
  {
    if !InWindow(f, start, end) then st
    else
      var k := KeyOf(f);
      if k !in st.picks then Selection(st.keys + [k], st.picks[k := PickOf(f)])
      else if Displaces(f, ParseIsoDate(f.filingDate).value, st.picks[k]) then Selection(st.keys, st.picks[k := PickOf(f)])
      else st
  }

  /** The selection after the whole list. */
  function Select(fs: seq<Filing>, start: Date, end: Date): Selection
    decreases |fs|
  {
    if fs == [] then Selection([], map[]) else Step(Select(fs[..|fs| - 1], start, end), fs[|fs| - 1], start, end)
  }

  /** `selected.values()`, in key insertion order. */
  function PicksInOrder(st: Selection): seq<Pick>
    requires forall k :: k in st.keys ==> k in st.picks
  {
    seq(|st.keys|, i requires 0 <= i < |st.keys| => st.picks[st.keys[i]])
  }

  predicate ByFilingDate(ps: seq<Pick>)
  {
    forall i :: 0 <= i < |ps| - 1 ==> !LexLess(ps[i + 1].filingDate, ps[i].filingDate)
  }

  /** Places `x` after every pick whose filing date does not sort after its own. */
  function InsertByFilingDate(x: Pick, ps: seq<Pick>): (r: seq<Pick>)
    requires ByFilingDate(ps)
    ensures |r| == |ps| + 1 && multiset(r) == multiset(ps) + multiset{x}
    ensures r[0] == x || (ps != [] && r[0] == ps[0])
    ensures ByFilingDate(r)
  {
    if ps == [] then [x]
    else if LexLess(x.filingDate, ps[0].filingDate) then
      LexLessAsymmetric(x.filingDate, ps[0].filingDate);
      [x] + ps
    else
      var tail := InsertByFilingDate(x, ps[1..]);
      assert ps == [ps[0]] + ps[1..];
      [ps[0]] + tail
  }

  /** `results.sort(key=lambda x: x[1])`: stable, by filing-date text. */
  function SortByFilingDate(ps: seq<Pick>): (r: seq<Pick>)
    ensures |r| == |ps| && multiset(r) == multiset(ps) && ByFilingDate(r)
  {
    if ps == [] then []
    else
      var init := ps[..|ps| - 1];
      assert ps == init + [ps[|ps| - 1]];
      InsertByFilingDate(ps[|ps| - 1], SortByFilingDate(init))
  }

  /** The selection state is a dictionary: distinct keys, each with an entry. */
  ghost predicate WellFormed(st: Selection)
  {
    (forall i, j :: 0 <= i < j < |st.keys| ==> st.keys[i] != st.keys[j])
    && (forall k :: k in st.picks <==> k in st.keys)
  }

  lemma {:induction false} SelectWellFormed(fs: seq<Filing>, start: Date, end: Date)
    ensures WellFormed(Select(fs, start, end))
    decreases |fs|
  {
    if fs != [] {
      SelectWellFormed(fs[..|fs| - 1], start, end);
    }
  }

  /** The selection loop of `get_13f_urls_by_date` and the final sort by filing date. The URL
      lookups that follow for each pick are requests and are not modelled. */
  method SelectFilings(fs: seq<Filing>, start: Date, end: Date) returns (results: seq<Pick>)
    ensures WellFormed(Select(fs, start, end))
    ensures results == SortByFilingDate(PicksInOrder(Select(fs, start, end)))
  {
    var keys: seq<string> := [];
    var selected: map<string, Pick> := map[];
    var i := 0;
    while i < |fs|
      invariant i <= |fs|
      invariant Selection(keys, selected) == Select(fs[..i], start, end)
    {
      assert fs[..i + 1][..i] == fs[..i];
      var f := fs[i];
      if InWindow(f, start, end) {
        var key := KeyOf(f);
        var filed := ParseIsoDate(f.filingDate).value;
        if key in selected {
          var existing := selected[key];
          if f.form == Amendment && existing.form != Amendment {
            selected := selected[key := PickOf(f)];
          } else if f.form == existing.form && Before(existing.filed, filed) {
            selected := selected[key := PickOf(f)];
          }
        } else {
          keys := keys + [key];
          selected := selected[key := PickOf(f)];
        }
      }
      i := i + 1;
    }
    assert fs[..i] == fs;
    SelectWellFormed(fs, start, end);
    results := SortByFilingDate(PicksInOrder(Selection(keys, selected)));
  }

  function Filed(f: Filing): Date
    requires ParseIsoDate(f.filingDate).Some?
  {
    ParseIsoDate(f.filingDate).value
  }

  /** A report period is selected exactly when some filing in the window carries it. */
  lemma {:induction false} SelectedKeys(fs: seq<Filing>, start: Date, end: Date, k: string)
    ensures k in Select(fs, start, end).picks <==> exists j :: 0 <= j < |fs| && InWindow(fs[j], start, end) && KeyOf(fs[j]) == k
    decreases |fs|
  {
    if fs != [] {
      var init := fs[..|fs| - 1];
      SelectedKeys(init, start, end, k);
      if k in Select(fs, start, end).picks && k !in Select(init, start, end).picks {
        assert InWindow(fs[|fs| - 1], start, end) && KeyOf(fs[|fs| - 1]) == k;
      }
      if exists j :: 0 <= j < |fs| && InWindow(fs[j], start, end) && KeyOf(fs[j]) == k {
        var j :| 0 <= j < |fs| && InWindow(fs[j], start, end) && KeyOf(fs[j]) == k;
        if j < |fs| - 1 {
          assert init[j] == fs[j];
        }
      }
    }
  }

  /** Each selected entry is one of the filings, in the window and under that report period. */
  lemma {:induction false} PickIsAFiling(fs: seq<Filing>, start: Date, end: Date, k: string)
    requires k in Select(fs, start, end).picks
    ensures exists j :: 0 <= j < |fs| && InWindow(fs[j], start, end) && KeyOf(fs[j]) == k
                        && PickOf(fs[j]) == Select(fs, start, end).picks[k]
    decreases |fs|
  {
    var init := fs[..|fs| - 1];
    var last := fs[|fs| - 1];
    if k in Select(init, start, end).picks && Select(fs, start, end).picks[k] == Select(init, start, end).picks[k] {
      PickIsAFiling(init, start, end, k);
      var j :| 0 <= j < |init| && InWindow(init[j], start, end) && KeyOf(init[j]) == k
               && PickOf(init[j]) == Select(init, start, end).picks[k];
      assert fs[j] == init[j];
    } else {
      assert InWindow(last, start, end) && KeyOf(last) == k && PickOf(last) == Select(fs, start, end).picks[k];
    }
  }

  /** When any filing of a period is an amendment, the period's entry is an amendment: an
      original never displaces an amendment. */
  lemma {:induction false} AmendmentPreferred(fs: seq<Filing>, start: Date, end: Date, j: nat)
    requires j < |fs| && InWindow(fs[j], start, end) && fs[j].form == Amendment
    ensures KeyOf(fs[j]) in Select(fs, start, end).picks
    ensures Select(fs, start, end).picks[KeyOf(fs[j])].form == Amendment
    decreases |fs|
  {
    var init := fs[..|fs| - 1];
    if j < |fs| - 1 {
      assert init[j] == fs[j];
      AmendmentPreferred(init, start, end, j);
    }
  }

  /** The entry of a period is the newest filing of its own form for that period (the first
      of them on a tie). */
  lemma {:induction false} NewestOfItsForm(fs: seq<Filing>, start: Date, end: Date, j: nat)
    requires j < |fs| && InWindow(fs[j], start, end)
    ensures KeyOf(fs[j]) in Select(fs, start, end).picks
    ensures var p := Select(fs, start, end).picks[KeyOf(fs[j])];
      fs[j].form == p.form ==> NotAfter(Filed(fs[j]), p.filed)
    decreases |fs|
  {
    var init := fs[..|fs| - 1];
    var last := fs[|fs| - 1];
    var k := KeyOf(fs[j]);
    SelectedKeys(fs, start, end, k);
    if j == |fs| - 1 {
      if k in Select(init, start, end).picks {
        var held := Select(init, start, end).picks[k];
        if !Displaces(last, Filed(last), held) && last.form == held.form {
          BeforeTotal(Filed(last), held.filed);
        }
      }
    } else {
      assert init[j] == fs[j];
      NewestOfItsForm(init, start, end, j);
      var held := Select(init, start, end).picks[k];
      var p := Select(fs, start, end).picks[k];
      if p != held && fs[j].form == p.form {
        // `last` displaced `held`
        assert InWindow(last, start, end) && KeyOf(last) == k && p == PickOf(last);
        if last.form == Amendment && held.form != Amendment {
          AmendmentPreferred(init, start, end, j);
        } else {
          BeforeTransitiveOrEqual(Filed(fs[j]), held.filed, p.filed);
        }
      }
    }
  }

  lemma BeforeTransitiveOrEqual(a: Date, b: Date, c: Date)
    requires NotAfter(a, b) && Before(b, c)
    ensures NotAfter(a, c)
  {
  }
}
