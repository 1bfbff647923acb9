// reports/report_contracts.py: the report's section contract and the checks run on
// LLM output. A Markdown report must carry six headings in a fixed order; a polished
// section must keep to its word (and bullet) bounds and quote no number absent from the
// metrics, a number counting as present when it is within 0.1% of some metric value.
// Regular expressions are the scans of `Patterns` (ASCII character classes).
module ReportContracts {
  import opened Wrappers
  import opened Text
  import opened Json
  import opened Numerics
  import opened Patterns
  import LlmPolisher

  /** REQUIRED_REPORT_SECTIONS, in report order. */
  const RequiredReportSections: seq<string> :=
    ["title_block", "executive_summary", "price_snapshot", "ownership_snapshot", "risks_watchlist", "appendix"]

  // ---------------------------------------------------------------------------
  // validate_metrics_json_for_reports
  // ---------------------------------------------------------------------------

  const MetricsSections: seq<string> := ["ticker", "as_of_date", "data_period", "price_metrics", "data_quality", "metadata"]
  const PeriodFields: seq<string> := ["start_date", "end_date", "trading_days"]
  const PriceFields: seq<string> := ["returns", "volatility", "drawdown", "current_price"]
  const MetadataFields: seq<string> := ["calculated_at", "data_sources"]

  /** Every name passes `name in j`. */
  predicate AllIn(j: Json, names: seq<string>)
  {
    forall k :: 0 <= k < |names| ==> InOp(j, names[k]) == Ok(true)
  }

  /** One `for field in required: if field not in value: raise` loop: the first
      name missing raises, with the message naming it. */
  function RequireAll(j: Json, names: seq<string>, what: string): (r: Result<bool>)
    ensures r.Ok? <==> AllIn(j, names)
    ensures r.Ok? ==> r.value
  {
    if names == [] then Ok(true)
    else
      var has := InOp(j, names[0]);
      if has.Err? then Err(has.msg)
      else if !has.value then Err("Missing " + what + ": " + names[0])
      else
        var rest := RequireAll(j, names[1..], what);
        assert forall k :: 1 <= k < |names| ==> names[k] == names[1..][k - 1];
        rest
  }

  /** `validate_metrics_json_for_reports`: the six top-level sections, then the fields
      of data_period, price_metrics and metadata, each looked up with `[]`. */
  function ValidateMetricsJsonForReports(m: Json): (r: Result<bool>)
    ensures r.Ok? <==> (m.JObj? && AllIn(m, MetricsSections) &&
      Has(m, "data_period") && AllIn(At(m, "data_period").value, PeriodFields) &&
      Has(m, "price_metrics") && AllIn(At(m, "price_metrics").value, PriceFields) &&
      Has(m, "metadata") && AllIn(At(m, "metadata").value, MetadataFields))
  {
    var _ :- RequireAll(m, MetricsSections, "required section");
    assert InOp(m, MetricsSections[2]) == Ok(true) && InOp(m, MetricsSections[3]) == Ok(true);
    assert InOp(m, MetricsSections[5]) == Ok(true);
    if !m.JObj? then Err("'data_period'")
    else
      var period := At(m, "data_period").value;
      var _ :- RequireAll(period, PeriodFields, "data_period field");
      var price := At(m, "price_metrics").value;
      var _ :- RequireAll(price, PriceFields, "price_metrics field");
      var metadata := At(m, "metadata").value;
      RequireAll(metadata, MetadataFields, "metadata field")
  }

  // ---------------------------------------------------------------------------
  // validate_report_structure
  // ---------------------------------------------------------------------------

  const TitlePrefix := "# Stock Research Report: "

  /** The literal headings of the five sections after the title, in report order. */
  const Headings: seq<string> :=
    ["## Executive Summary", "## Price Snapshot", "## Ownership Snapshot", "## Risks & Watchlist", "## Appendix"]

  /** Whether section `k`'s pattern matches at the start of `s`; the title's is
      `# Stock Research Report: \w+`. */
  predicate PatternAt(k: nat, s: string)
    requires k < |RequiredReportSections|
  {
    if k == 0 then StartsWith(s, TitlePrefix) && |s| > |TitlePrefix| && IsWordChar(s[|TitlePrefix|])
    else StartsWith(s, Headings[k - 1])
  }

  /** `re.search`: the first position where section `k`'s pattern matches, or -1. */
  function Search(k: nat, s: string): (p: int)
    requires k < |RequiredReportSections|
    ensures -1 <= p < |s|
    ensures p >= 0 ==> PatternAt(k, s[p..]) && forall q :: 0 <= q < p ==> !PatternAt(k, s[q..])
    ensures p < 0 ==> forall q :: 0 <= q <= |s| ==> !PatternAt(k, s[q..])
  {
    if s == [] then
      assert !PatternAt(k, s[0..]);
      -1
    else if PatternAt(k, s) then
      assert s[0..] == s;
      0
    else
      var p := Search(k, s[1..]);
      assert forall q :: 1 <= q <= |s| ==> s[1..][q - 1..] == s[q..];
      assert s[0..] == s;
      if p < 0 then -1 else p + 1
  }

  datatype SectionCheck = SectionCheck(found: bool, position: int)

  /** `{'found': match is not None, 'position': match.start() if match else -1}`. */
  function CheckOf(k: nat, content: string): (c: SectionCheck)
    requires k < |RequiredReportSections|
    ensures c.found <==> c.position >= 0
  {
    var p := Search(k, content);
    SectionCheck(p >= 0, p)
  }

  /** The found sections with their positions, in report order. */
  function FoundInOrder(cs: seq<SectionCheck>, names: seq<string>): (f: seq<(string, int)>)
    requires |cs| == |names|
    ensures forall e :: e in f ==> e.0 in names
    ensures |f| <= |cs|
  {
    if cs == [] then []
    else (if cs[0].found then [(names[0], cs[0].position)] else []) + FoundInOrder(cs[1..], names[1..])
  }

  function Names(xs: seq<(string, int)>): (ns: seq<string>)
    ensures |ns| == |xs| && forall k :: 0 <= k < |xs| ==> ns[k] == xs[k].0
  {
    seq(|xs|, k requires 0 <= k < |xs| => xs[k].0)
  }

  /** `[s for s in names if s in among]`. */
  function KeepNamesIn(names: seq<string>, among: seq<string>): (r: seq<string>)
  {
    if names == [] then [] else (if names[0] in among then [names[0]] else []) + KeepNamesIn(names[1..], among)
  }

  /** `[s for s in names if not found]`. */
  function MissingOf(cs: seq<SectionCheck>, names: seq<string>): (r: seq<string>)
    requires |cs| == |names|
    ensures forall k :: 0 <= k < |names| && !cs[k].found ==> names[k] in r
    ensures forall s :: s in r ==> exists k :: 0 <= k < |names| && names[k] == s && !cs[k].found
  {
    if cs == [] then []
    else
      var rest := MissingOf(cs[1..], names[1..]);
      assert forall k :: 1 <= k < |names| ==> cs[k] == cs[1..][k - 1] && names[k] == names[1..][k - 1];
      (if cs[0].found then [] else [names[0]]) + rest
  }

  // The stable sort by position

  predicate SortedByPosition(xs: seq<(string, int)>)
  {
    forall i, j :: 0 <= i < j < |xs| ==> xs[i].1 <= xs[j].1
  }

  /** Places `x` after every element whose position does not exceed its own. */
  function InsertByPosition(x: (string, int), s: seq<(string, int)>): (r: seq<(string, int)>)
    ensures multiset(r) == multiset(s) + multiset{x}
  {
    if s == [] || s[|s| - 1].1 <= x.1 then s + [x]
    else
      var init, last := s[..|s| - 1], s[|s| - 1];
      assert s == init + [last];
      InsertByPosition(x, init) + [last]
  }

  /** `found_sections.sort(key=lambda x: x[1])`: each element in turn, inserted after
      the equal positions before it, so the sort is stable. */
  function SortByPosition(xs: seq<(string, int)>): (r: seq<(string, int)>)
  {
    if xs == [] then [] else InsertByPosition(xs[|xs| - 1], SortByPosition(xs[..|xs| - 1]))
  }

  datatype Structure = Structure(sections: seq<SectionCheck>, orderCorrect: bool, missing: seq<string>)

  function Checks(content: string): (cs: seq<SectionCheck>)
    ensures |cs| == |RequiredReportSections|
    ensures forall k :: 0 <= k < |cs| ==> cs[k] == CheckOf(k, content)
  {
    seq(|RequiredReportSections|, k requires 0 <= k < |RequiredReportSections| => CheckOf(k, content))
  }

  /** The result of `validate_report_structure` from its per-section checks. */
  function StructureFrom(cs: seq<SectionCheck>): (st: Structure)
    requires |cs| == |RequiredReportSections|
    ensures st.sections == cs
    ensures forall s :: s in st.missing <==> exists k :: 0 <= k < |cs| && RequiredReportSections[k] == s && !cs[k].found
  {
    var found := FoundInOrder(cs, RequiredReportSections);
    var foundNames := Names(SortByPosition(found));
    Structure(cs, foundNames == KeepNamesIn(RequiredReportSections, foundNames), MissingOf(cs, RequiredReportSections))
  }

  function StructureOf(content: string): Structure
  {
    StructureFrom(Checks(content))
  }

  /** `validate_report_structure`: the search loop over the six patterns, then the
      order and missing-section checks. */
  method ValidateReportStructure(content: string) returns (st: Structure)
    ensures st == StructureOf(content)
    ensures forall k :: 0 <= k < |RequiredReportSections| ==>
      (st.sections[k].found <==> exists q :: 0 <= q <= |content| && PatternAt(k, content[q..]))
  {
    var cs: seq<SectionCheck> := [];
    var k := 0;
    while k < |RequiredReportSections|
      invariant 0 <= k <= |RequiredReportSections|
      invariant |cs| == k && forall i :: 0 <= i < k ==> cs[i] == CheckOf(i, content)
    {
      cs := cs + [CheckOf(k, content)];
      k := k + 1;
    }
    assert cs == Checks(content);
    st := StructureFrom(cs);
    forall k | 0 <= k < |RequiredReportSections|
      ensures st.sections[k].found <==> exists q :: 0 <= q <= |content| && PatternAt(k, content[q..])
    {
      var p := Search(k, content);
      if p >= 0 {
        assert PatternAt(k, content[p..]);
      }
    }
  }

  // Properties of the sort

  lemma {:induction false} InsertKeepsSorted(x: (string, int), s: seq<(string, int)>)
    requires SortedByPosition(s)
    ensures SortedByPosition(InsertByPosition(x, s))
    decreases |s|
  {
    if s != [] && s[|s| - 1].1 > x.1 {
      var init, last := s[..|s| - 1], s[|s| - 1];
      InsertKeepsSorted(x, init);
      var r := InsertByPosition(x, init);
      forall e | e in r ensures e.1 <= last.1 {
        assert e in multiset(r);
        if e != x {
          assert e in multiset(init);
        }
      }
    }
  }

  lemma {:induction false} SortSorted(xs: seq<(string, int)>)
    ensures SortedByPosition(SortByPosition(xs))
    ensures multiset(SortByPosition(xs)) == multiset(xs)
    decreases |xs|
  {
    if xs != [] {
      var init := xs[..|xs| - 1];
      SortSorted(init);
      InsertKeepsSorted(xs[|xs| - 1], SortByPosition(init));
      assert xs == init + [xs[|xs| - 1]];
    }
  }

  /** Sorting a list already in position order leaves it as it is. */
  lemma InsertAtEnd(x: (string, int), s: seq<(string, int)>)
    requires s == [] || s[|s| - 1].1 <= x.1
    ensures InsertByPosition(x, s) == s + [x]
  {
  }

  lemma {:induction false} SortOfSorted(xs: seq<(string, int)>)
    requires SortedByPosition(xs)
    ensures SortByPosition(xs) == xs
    decreases |xs|
  {
    if xs != [] {
      var init, last := xs[..|xs| - 1], xs[|xs| - 1];
      assert SortedByPosition(init);
      SortOfSorted(init);
      InsertAtEnd(last, init);
      assert xs == init + [last];
    }
  }

  // Names of the found sections

  predicate Distinct(ns: seq<string>)
  {
    forall i, j :: 0 <= i < j < |ns| ==> ns[i] != ns[j]
  }

  lemma {:induction false} FoundDistinct(cs: seq<SectionCheck>, names: seq<string>)
    requires |cs| == |names| && Distinct(names)
    ensures Distinct(Names(FoundInOrder(cs, names)))
    decreases |cs|
  {
    if cs != [] {
      FoundDistinct(cs[1..], names[1..]);
      var rest := FoundInOrder(cs[1..], names[1..]);
      assert forall e :: e in rest ==> e.0 != names[0] by {
        forall e | e in rest ensures e.0 != names[0] {
          var k :| 0 <= k < |names[1..]| && names[1..][k] == e.0;
          assert names[k + 1] == e.0;
        }
      }
    }
  }

  /** Filtering depends only on which names are present. */
  lemma {:induction false} KeepNamesInSame(names: seq<string>, a: seq<string>, b: seq<string>)
    requires forall n :: n in names ==> (n in a <==> n in b)
    ensures KeepNamesIn(names, a) == KeepNamesIn(names, b)
    decreases |names|
  {
    if names != [] {
      KeepNamesInSame(names[1..], a, b);
    }
  }

  /** Filtering the distinct names by the found ones gives the found names back. */
  lemma {:induction false} KeepFound(cs: seq<SectionCheck>, names: seq<string>)
    requires |cs| == |names| && Distinct(names)
    ensures KeepNamesIn(names, Names(FoundInOrder(cs, names))) == Names(FoundInOrder(cs, names))
    decreases |cs|
  {
    if cs != [] {
      var rest := FoundInOrder(cs[1..], names[1..]);
      var all := FoundInOrder(cs, names);
      DistinctTail(names);
      KeepFound(cs[1..], names[1..]);
      NamesAmong(rest, names[1..]);
      if cs[0].found {
        NamesCons((names[0], cs[0].position), rest);
        KeepHead(names, Names(rest));
      } else {
        assert all == rest;
        KeepSkip(names, Names(rest));
      }
    }
  }

  /** An absent head name is dropped. */
  lemma KeepSkip(names: seq<string>, r: seq<string>)
    requires names != [] && names[0] !in r && KeepNamesIn(names[1..], r) == r
    ensures KeepNamesIn(names, r) == r
  {
  }

  lemma NamesCons(x: (string, int), rest: seq<(string, int)>)
    ensures Names([x] + rest) == [x.0] + Names(rest)
  {
  }

  /** Keeping a present head name in front of names that filter to themselves. */
  lemma KeepHead(names: seq<string>, r: seq<string>)
    requires names != [] && names[0] !in names[1..] && KeepNamesIn(names[1..], r) == r
    ensures KeepNamesIn(names, [names[0]] + r) == [names[0]] + r
  {
    KeepNamesInSame(names[1..], [names[0]] + r, r);
  }

  lemma DistinctTail(names: seq<string>)
    requires names != [] && Distinct(names)
    ensures Distinct(names[1..]) && names[0] !in names[1..]
  {
    assert forall k :: 0 <= k < |names| - 1 ==> names[1..][k] == names[k + 1];
  }

  lemma NamesAmong(f: seq<(string, int)>, names: seq<string>)
    requires forall e :: e in f ==> e.0 in names
    ensures forall n :: n in Names(f) ==> n in names
  {
    forall n | n in Names(f) ensures n in names {
      var k :| 0 <= k < |f| && Names(f)[k] == n;
      assert f[k] in f;
    }
  }

  /** A sorted list whose names come in the order of the distinct names of `f` is `f`. */
  lemma SameNamesSame(s: seq<(string, int)>, f: seq<(string, int)>)
    requires multiset(s) == multiset(f) && Names(s) == Names(f) && Distinct(Names(f))
    ensures s == f
  {
    forall k | 0 <= k < |s| ensures s[k] == f[k] {
      assert s[k] in multiset(f);
      var j :| 0 <= j < |f| && f[j] == s[k];
      assert Names(f)[j] == Names(f)[k];
    }
  }

  /** `_order_correct` holds exactly when the found sections' positions do not decrease
      along the report order. */
  lemma OrderCorrectIff(content: string)
    ensures var f := FoundInOrder(Checks(content), RequiredReportSections);
      StructureOf(content).orderCorrect <==> SortedByPosition(f)
  {
    OrderCorrectFrom(Checks(content));
  }

  lemma OrderCorrectFrom(cs: seq<SectionCheck>)
    requires |cs| == |RequiredReportSections|
    ensures StructureFrom(cs).orderCorrect <==> SortedByPosition(FoundInOrder(cs, RequiredReportSections))
  {
    var f := FoundInOrder(cs, RequiredReportSections);
    RequiredDistinct();
    FoundDistinct(cs, RequiredReportSections);
    KeepFound(cs, RequiredReportSections);
    SortedIffKept(f, RequiredReportSections);
  }

  /** For distinct names already in the order of `names`, the sorted names keep that
      order exactly when the list is sorted by position. */
  lemma SortedIffKept(f: seq<(string, int)>, names: seq<string>)
    requires Distinct(Names(f)) && KeepNamesIn(names, Names(f)) == Names(f)
    ensures var ns := Names(SortByPosition(f));
      ns == KeepNamesIn(names, ns) <==> SortedByPosition(f)
  {
    var s := SortByPosition(f);
    SortSorted(f);
    PermutedNames(s, f);
    KeepNamesInSame(names, Names(s), Names(f));
    if SortedByPosition(f) {
      SortOfSorted(f);
    }
    if Names(s) == KeepNamesIn(names, Names(s)) {
      SameNamesSame(s, f);
    }
  }

  lemma RequiredDistinct()
    ensures Distinct(RequiredReportSections)
  {
  }

  /** Reordering a list keeps the set of its names. */
  lemma PermutedNames(s: seq<(string, int)>, f: seq<(string, int)>)
    requires multiset(s) == multiset(f)
    ensures forall n :: n in Names(s) <==> n in Names(f)
  {
    forall n ensures n in Names(s) <==> n in Names(f) {
      if n in Names(s) {
        var k :| 0 <= k < |s| && Names(s)[k] == n;
        assert s[k] in multiset(f);
      }
      if n in Names(f) {
        var k :| 0 <= k < |f| && Names(f)[k] == n;
        assert f[k] in multiset(s);
      }
    }
  }

  // ---------------------------------------------------------------------------
  // audit_numbers_in_content
  // ---------------------------------------------------------------------------

  /** The number strings of a text: `\d+\.?\d*%` matches, then `\$\d+\.?\d*[BMK]?`
      matches, then `\b\d+\.?\d+\b` matches, each scan over the whole text. */
  function NumberTokens(content: string): seq<string>
  {
    FindAll(PlainPercent, content) + FindAll(Currency, content) + FindBounded(TwoDigits, content, false)
  }

  /** `_extract_all_numbers_from_metrics`: every int, float or bool, in document order. */
  function MetricNumbers(j: Json): (r: seq<real>)
    decreases j, 2
  {
    match j
      case JNum(n) => [n]
      case JBool(b) => [if b then 1.0 else 0.0]
      case JObj(fields) => FieldNumbers(fields)
      case JArr(items) => ItemNumbers(items)
      case _ => []
  }

  function FieldNumbers(fields: seq<(string, Json)>): (r: seq<real>)
    decreases fields, 1
  {
    if fields == [] then [] else FieldNumber(fields[0]) + FieldNumbers(fields[1..])
  }

  function FieldNumber(f: (string, Json)): (r: seq<real>)
    decreases f, 0
  {
    MetricNumbers(f.1)
  }

  function ItemNumbers(items: seq<Json>): (r: seq<real>)
    decreases items, 1
  {
    if items == [] then [] else MetricNumbers(items[0]) + ItemNumbers(items[1..])
  }

  /** `_extract_all_dates_from_metrics`: string values under a key containing "date"
      (any case) that begin with `\d{4}-\d{2}-\d{2}`; every value is searched further. */
  function MetricDates(j: Json): (r: seq<string>)
    decreases j, 2
  {
    match j
      case JObj(fields) => FieldDates(fields)
      case JArr(items) => ItemDates(items)
      case _ => []
  }

  function FieldDates(fields: seq<(string, Json)>): (r: seq<string>)
    decreases fields, 1
  {
    if fields == [] then [] else FieldDate(fields[0]) + FieldDates(fields[1..])
  }

  function FieldDate(f: (string, Json)): (r: seq<string>)
    decreases f, 0
  {
    var own := if Contains(Lower(f.0), "date") && f.1.JStr? && IsoDateMatch(f.1.s).Some? then [f.1.s] else [];
    own + MetricDates(f.1)
  }

  function ItemDates(items: seq<Json>): (r: seq<string>)
    decreases items, 1
  {
    if items == [] then [] else MetricDates(items[0]) + ItemDates(items[1..])
  }

  /** The value `_number_exists_in_metrics` reads from a number string: a percentage
      divided by 100, currency without `$` and `,` scaled by its B, M or K suffix, else
      the plain number; `None` where `float` raises. */
  function TokenValue(s: string): Option<real>
  {
    if '%' in s then
      var v := ParseFloat(RemoveChar(s, '%'));
      if v.Some? then Some(v.value / 100.0) else None
    else if '$' in s then
      var c := RemoveChar(RemoveChar(s, '$'), ',');
      var scaled :=
        if 'B' in c then (RemoveChar(c, 'B'), 1000000000.0)
        else if 'M' in c then (RemoveChar(c, 'M'), 1000000.0)
        else if 'K' in c then (RemoveChar(c, 'K'), 1000.0)
        else (c, 1.0);
      var v := ParseFloat(scaled.0);
      if v.Some? then Some(v.value * scaled.1) else None
    else ParseFloat(s)
  }

  /** The 0.1% tolerance, relative to the metric value (floored at 1e-10). The test
      `abs(v - m) / max(abs(m), 1e-10) < 0.001` is stated multiplied out by the
      positive divisor; `CloseIsRatio` shows the two agree. */
  predicate Close(v: real, m: real)
  {
    Abs(v - m) < 0.001 * Max(Abs(m), 0.0000000001)
  }

  lemma CloseIsRatio(v: real, m: real)
    ensures Close(v, m) <==> Abs(v - m) / Max(Abs(m), 0.0000000001) < 0.001
  {
    var d := Max(Abs(m), 0.0000000001);
    var a := Abs(v - m);
    var q := a / d;
    assert Close(v, m) <==> a < 0.001 * d;
    assert a == q * d;
    ScaleStrict(q, 0.001, d);
  }

  lemma ScaleStrict(a: real, b: real, d: real)
    requires d > 0.0
    ensures a < b <==> a * d < b * d
  {
    if a < b {
      assert (b - a) * d > 0.0;
    } else {
      assert (a - b) * d >= 0.0;
    }
  }

  /** `_number_exists_in_metrics`: the string parses and some metric value is close. */
  predicate NumberExists(s: string, nums: seq<real>)
  {
    TokenValue(s).Some? && exists i :: 0 <= i < |nums| && Close(TokenValue(s).value, nums[i])
  }

  /** The scan of `_number_exists_in_metrics`, returning at the first close value. */
  method NumberExistsInMetrics(s: string, nums: seq<real>) returns (ok: bool)
    ensures ok <==> NumberExists(s, nums)
  {
    var v := TokenValue(s);
    if v.None? {
      return false;
    }
    ok := AnyClose(v.value, nums);
  }

  /** The loop of `_number_exists_in_metrics` over the metric values. */
  method AnyClose(v: real, nums: seq<real>) returns (ok: bool)
    ensures ok <==> exists i :: 0 <= i < |nums| && Close(v, nums[i])
  {
    var i := 0;
    while i < |nums|
      invariant 0 <= i <= |nums|
      invariant forall k :: 0 <= k < i ==> !Close(v, nums[k])
    {
      if Close(v, nums[i]) {
        return true;
      }
      i := i + 1;
    }
    return false;
  }

  /** A number string whose value is a metric value exactly is found. */
  lemma ExactValueExists(s: string, nums: seq<real>, i: nat)
    requires i < |nums| && TokenValue(s) == Some(nums[i])
    ensures NumberExists(s, nums)
  {
    assert Close(nums[i], nums[i]);
  }

  /** The tolerance is strict: a value 0.1% away from the only metric is not found. */
  lemma ToleranceIsStrict(s: string, m: real)
    requires m >= 0.0000000001 && TokenValue(s) == Some(m * 1.001)
    ensures !NumberExists(s, [m])
  {
    assert Abs(m * 1.001 - m) == m * 0.001;
    assert Max(Abs(m), 0.0000000001) == m;
  }

  /** `[x for x in tokens if not _number_exists_in_metrics(x, nums)]`. */
  function Unmatched(tokens: seq<string>, nums: seq<real>): (r: seq<string>)
    ensures forall t :: t in r <==> t in tokens && !NumberExists(t, nums)
  {
    if tokens == [] then []
    else (if NumberExists(tokens[0], nums) then [] else [tokens[0]]) + Unmatched(tokens[1..], nums)
  }

  /** `[d for d in found if d not in known]`. */
  function Unlisted(found: seq<string>, known: seq<string>): (r: seq<string>)
    ensures forall d :: d in r <==> d in found && d !in known
  {
    if found == [] then []
    else (if found[0] in known then [] else [found[0]]) + Unlisted(found[1..], known)
  }

  datatype ContentAudit = ContentAudit(
    foundNumbers: seq<string>, foundDates: seq<string>,
    hallucinatedNumbers: seq<string>, unverifiedDates: seq<string>)

  /** `audit_numbers_in_content`: a number is hallucinated when no metric value is within
      tolerance, and a date is unverified when no date field of the metrics holds it. */
  function AuditNumbersInContent(content: string, metrics: Json): (a: ContentAudit)
  {
    var numbers := NumberTokens(content);
    var dates := FindAll(IsoDate, content);
    ContentAudit(numbers, dates, Unmatched(numbers, MetricNumbers(metrics)), Unlisted(dates, MetricDates(metrics)))
  }

  /** What the audit reports: every number string and ISO date of the text, the numbers
      no metric value is close to, and the dates no date field holds. */
  lemma AuditFlags(content: string, metrics: Json)
    ensures var a := AuditNumbersInContent(content, metrics);
      a.foundNumbers == NumberTokens(content) && a.foundDates == FindAll(IsoDate, content) &&
      (forall t :: t in a.hallucinatedNumbers <==> t in a.foundNumbers && !NumberExists(t, MetricNumbers(metrics))) &&
      (forall d :: d in a.unverifiedDates <==> d in a.foundDates && d !in MetricDates(metrics))
  {
  }

  // ---------------------------------------------------------------------------
  // validate_llm_output
  // ---------------------------------------------------------------------------

  /** One entry of LLM_SECTION_SPECS: word bounds, and bullet bounds for a bullet list. */
  datatype LlmSpec = LlmSpec(minWords: nat, maxWords: nat, bulletList: bool, minBullets: nat, maxBullets: nat)

  function SpecOf(section: string): Option<LlmSpec>
  {
    if section == "executive_summary" then Some(LlmSpec(120, 180, false, 1, 10))
    else if section == "risks_watchlist" then Some(LlmSpec(50, 200, true, 3, 5))
    else None
  }

  /** `re.findall(r'^\s*[-*•]\s+', content, re.MULTILINE)` counted: a match may start
      only where a line starts, and the scan resumes after it. */
  function BulletCount(s: string, lineStart: bool): (n: nat)
    decreases |s|
  {
    if s == [] then 0
    else
      var m := if lineStart then LlmPolisher.BulletLen(s) else None;
      if m.Some? then 1 + BulletCount(s[m.value..], s[m.value - 1] == '\n')
      else BulletCount(s[1..], s[0] == '\n')
  }

  /** `"- b\n"` for each bullet. */
  function DashList(bullets: seq<string>): string
  {
    if bullets == [] then "" else "- " + bullets[0] + "\n" + DashList(bullets[1..])
  }

  /** Text with no line break, then a break: the scan resumes at the next line. */
  lemma {:induction false} BulletCountRestOfLine(b: string, rest: string)
    requires '\n' !in b
    ensures BulletCount(b + "\n" + rest, false) == BulletCount(rest, true)
    decreases |b|
  {
    var t := b + "\n" + rest;
    if b == [] {
      assert t == "\n" + rest && t[1..] == rest;
    } else {
      assert t[0] == b[0] && t[1..] == b[1..] + "\n" + rest;
      BulletCountRestOfLine(b[1..], rest);
    }
  }

  /** A dash list of bullets that start with a non-blank and hold no line break counts
      one match per bullet. */
  lemma {:induction false} DashListCount(bullets: seq<string>)
    requires forall k :: 0 <= k < |bullets| ==> bullets[k] != [] && !IsSpace(bullets[k][0]) && '\n' !in bullets[k]
    ensures BulletCount(DashList(bullets), true) == |bullets|
    decreases |bullets|
  {
    if bullets != [] {
      var b := bullets[0];
      var rest := DashList(bullets[1..]);
      var t := DashList(bullets);
      assert t == "- " + (b + "\n" + rest);
      assert t[0] == '-' && t[1] == ' ' && t[2] == b[0];
      assert LlmPolisher.SpaceCount(t) == 0;
      assert t[1..][0] == ' ' && t[1..][1] == b[0];
      assert LlmPolisher.SpaceCount(t[1..]) == 1;
      assert LlmPolisher.BulletLen(t) == Some(2);
      assert t[2..] == b + "\n" + rest;
      BulletCountRestOfLine(b, rest);
      DashListCount(bullets[1..]);
    }
  }

  datatype LlmCheck = LlmCheck(section: string, valid: bool, warnings: seq<string>, errors: seq<string>)

  function WordErrors(n: nat, spec: LlmSpec): (e: seq<string>)
    ensures e == [] <==> spec.minWords <= n <= spec.maxWords
  {
    if n < spec.minWords then ["Too short: " + NatToString(n) + " words (min: " + NatToString(spec.minWords) + ")"]
    else if n > spec.maxWords then ["Too long: " + NatToString(n) + " words (max: " + NatToString(spec.maxWords) + ")"]
    else []
  }

  function BulletErrors(n: nat, spec: LlmSpec): (e: seq<string>)
    ensures e == [] <==> !spec.bulletList || spec.minBullets <= n <= spec.maxBullets
  {
    if !spec.bulletList then []
    else if n < spec.minBullets then ["Too few bullets: " + NatToString(n) + " (min: " + NatToString(spec.minBullets) + ")"]
    else if n > spec.maxBullets then ["Too many bullets: " + NatToString(n) + " (max: " + NatToString(spec.maxBullets) + ")"]
    else []
  }

  function Prefixed(prefix: string, xs: seq<string>): (r: seq<string>)
    ensures |r| == |xs| && forall k :: 0 <= k < |xs| ==> r[k] == prefix + xs[k]
  {
    seq(|xs|, k requires 0 <= k < |xs| => prefix + xs[k])
  }

  /** `validate_llm_output`: an unknown section raises; the content is valid exactly when
      its word count (and, for the risk bullets, its bullet count) is within bounds and
      no number in it is hallucinated. Unverified dates only warn. */
  function ValidateLlmOutput(section: string, content: string, metrics: Json): (r: Result<LlmCheck>)
    ensures r.Err? <==> SpecOf(section).None?
    ensures r.Ok? ==> var spec, audit := SpecOf(section).value, AuditNumbersInContent(content, metrics);
      r.value.section == section &&
      (r.value.valid <==>
        spec.minWords <= WordCount(content) <= spec.maxWords &&
        (spec.bulletList ==> spec.minBullets <= BulletCount(content, true) <= spec.maxBullets) &&
        audit.hallucinatedNumbers == []) &&
      r.value.warnings == Prefixed("Unverified date: ", audit.unverifiedDates)
  {
    Assemble(section, SpecOf(section), WordCount(content), BulletCount(content, true), AuditNumbersInContent(content, metrics))
  }

  /** The result of `validate_llm_output` from the counts and the audit of the content. */
  function Assemble(section: string, spec: Option<LlmSpec>, words: nat, bullets: nat, audit: ContentAudit): (r: Result<LlmCheck>)
    ensures r.Err? <==> spec.None?
    ensures r.Ok? ==>
      r.value.section == section &&
      (r.value.valid <==>
        spec.value.minWords <= words <= spec.value.maxWords &&
        (spec.value.bulletList ==> spec.value.minBullets <= bullets <= spec.value.maxBullets) &&
        audit.hallucinatedNumbers == []) &&
      r.value.warnings == Prefixed("Unverified date: ", audit.unverifiedDates)
  {
    if spec.None? then Err("Unknown LLM section: " + section)
    else
      var errors := LlmErrors(spec.value, words, bullets, audit.hallucinatedNumbers);
      Ok(LlmCheck(section, errors == [], Prefixed("Unverified date: ", audit.unverifiedDates), errors))
  }

  /** The errors in the order the checks append them. */
  function LlmErrors(spec: LlmSpec, words: nat, bullets: nat, hallucinated: seq<string>): (e: seq<string>)
    ensures e == [] <==> (spec.minWords <= words <= spec.maxWords &&
      (spec.bulletList ==> spec.minBullets <= bullets <= spec.maxBullets) && hallucinated == [])
  {
    WordErrors(words, spec) + BulletErrors(bullets, spec) + Prefixed("Hallucinated number: ", hallucinated)
  }
}
