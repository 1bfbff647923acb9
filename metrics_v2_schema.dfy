// reports/metrics_v2_schema.py: three checks on a v2 metrics document (the Json the
// v1-to-v2 builder produces). The schema check raises V2SchemaError, here `Err`, on a
// missing section, a wrong schema version or a malformed audit index, and otherwise
// summarises the document's shape. The completeness check collects every display
// string and asks whether the audit index holds it. The consistency check recomputes
// the percentage displays from their raw values. Python's `f"{x:.1f}"` is the `fixed`
// operation of a `FormatOps` parameter.
module MetricsV2Schema {
  import opened Wrappers
  import opened Text
  import opened Json
  import opened Numerics
  import ReportContracts
  import Formatters
  import V1ToV2Builder

  /** SCHEMA_VERSION_V2. */
  const SchemaVersionV2 := "2.0.0"

  const RequiredSections: seq<string> := ["meta", "price", "audit_index"]

  const AuditCategories: seq<string> :=
    ["percent_strings", "currency_strings", "dates", "labels", "numbers", "windows"]

  const NA := Formatters.NotAvailable

  // ---------------------------------------------------------------------------
  // validate_v2_schema
  // ---------------------------------------------------------------------------

  /** An audit category is present and holds a list. */
  predicate CategoryListed(ai: Json, c: string)
  {
    Has(ai, c) && Member(ai, c).value.JArr?
  }

  /** The document's shape as validate_v2_schema demands it: the three sections, the
      schema version in `meta`, and an audit index holding the six categories as lists. */
  predicate SchemaShape(m: Json)
  {
    m.JObj? && Has(m, "meta") && Has(m, "price") && Has(m, "audit_index") &&
    Member(m, "meta").value.JObj? &&
    Lookup(Member(m, "meta").value.fields, "schema_version") == Some(JStr(SchemaVersionV2)) &&
    Member(m, "audit_index").value.JObj? &&
    forall k :: 0 <= k < |AuditCategories| ==> CategoryListed(Member(m, "audit_index").value, AuditCategories[k])
  }

  /** A value `in` can be applied to. */
  predicate Container(j: Json) { j.JObj? || j.JArr? || j.JStr? }

  /** What the summary reads without raising: `price.keys()`, `'raw' in returns`,
      `'raw' in volatility` and `ownership.get('concentration', {}).get('basis')`. */
  predicate SectionsReadable(m: Json)
  {
    m.JObj? && Has(m, "price") &&
    var price := Member(m, "price").value;
    price.JObj? &&
    (Has(price, "returns") ==> Container(Member(price, "returns").value)) &&
    (Has(price, "volatility") ==> Container(Member(price, "volatility").value)) &&
    (Has(m, "ownership_13f") ==>
      Member(m, "ownership_13f").value.JObj? &&
      GetOr(Member(m, "ownership_13f").value, "concentration", EmptyObj).value.JObj?)
  }

  /** The dictionary validate_v2_schema returns. Its constant entries (`valid`,
      `has_meta`, `has_price` and `has_audit_index`, all True) are left implicit;
      `returnsPresence` is (has_returns_raw, has_returns_display) and `volatilityPresence` adds
      has_volatility_level, each present when the price section has that entry;
      `concentration` is (basis, level) when the document has an ownership section. */
  datatype SchemaSummary = SchemaSummary(
    schemaVersion: string,
    ticker: Json,
    hasOwnership: bool,
    auditCategories: seq<string>,
    priceSections: seq<string>,
    returnsPresence: Option<(bool, bool)>,
    volatilityPresence: Option<(bool, bool, bool)>,
    concentration: Option<(Json, Json)>)

  /** The loop over the six categories: the first one missing, or not a list, raises. */
  function CheckCategories(ai: Json, cats: seq<string>): (r: Result<bool>)
    requires ai.JObj?
    ensures r.Ok? <==> forall k :: 0 <= k < |cats| ==> CategoryListed(ai, cats[k])
  {
    if cats == [] then Ok(true)
    else if !Has(ai, cats[0]) then Err("Missing audit index category: " + cats[0])
    else if !Member(ai, cats[0]).value.JArr? then Err("Audit index " + cats[0] + " must be list")
    else
      assert forall k :: 1 <= k < |cats| ==> cats[k] == cats[1..][k - 1];
      CheckCategories(ai, cats[1..])
  }

  function ReturnsPresence(price: Json): (r: Result<Option<(bool, bool)>>)
    requires price.JObj?
    ensures r.Ok? <==> (Has(price, "returns") ==> Container(Member(price, "returns").value))
    ensures r.Ok? ==> (r.value.Some? <==> Has(price, "returns"))
  {
    if !Has(price, "returns") then Ok(None)
    else
      var sec := Member(price, "returns").value;
      if !Container(sec) then Err("argument of type is not iterable")
      else Ok(Some((InOp(sec, "raw").value, InOp(sec, "display").value)))
  }

  function VolatilityPresence(price: Json): (r: Result<Option<(bool, bool, bool)>>)
    requires price.JObj?
    ensures r.Ok? <==> (Has(price, "volatility") ==> Container(Member(price, "volatility").value))
    ensures r.Ok? ==> (r.value.Some? <==> Has(price, "volatility"))
  {
    if !Has(price, "volatility") then Ok(None)
    else
      var sec := Member(price, "volatility").value;
      if !Container(sec) then Err("argument of type is not iterable")
      else Ok(Some((InOp(sec, "raw").value, InOp(sec, "display").value, InOp(sec, "level").value)))
  }

  function ConcentrationOf(m: Json): (r: Result<Option<(Json, Json)>>)
    requires m.JObj?
    ensures r.Ok? <==> (Has(m, "ownership_13f") ==>
      Member(m, "ownership_13f").value.JObj? &&
      GetOr(Member(m, "ownership_13f").value, "concentration", EmptyObj).value.JObj?)
    ensures r.Ok? ==> (r.value.Some? <==> Has(m, "ownership_13f"))
  {
    if !Has(m, "ownership_13f") then Ok(None)
    else
      var conc :- GetOr(Member(m, "ownership_13f").value, "concentration", EmptyObj);
      if !conc.JObj? then Err("'concentration' has no attribute 'get'")
      else Ok(Some((Get(conc, "basis").value, Get(conc, "level").value)))
  }

  /** The raising checks of validate_v2_schema, in order: the three sections, the
      schema version, the audit index's kind, then its six categories. */
  function CheckShape(m: Json): (r: Result<bool>)
    ensures r.Ok? <==> SchemaShape(m)
  {
    var _ :- ReportContracts.RequireAll(m, RequiredSections, "required section");
    if !m.JObj? then Err("'meta'")
    else
      assert Has(m, RequiredSections[0]) && Has(m, RequiredSections[1]) && Has(m, RequiredSections[2]);
      var meta := Member(m, "meta").value;
      var version :- Get(meta, "schema_version");
      if version != JStr(SchemaVersionV2) then Err("Invalid schema version: " + Shown(version))
      else
        var ai := Member(m, "audit_index").value;
        if !ai.JObj? then Err("audit_index must be dict")
        else CheckCategories(ai, AuditCategories)
  }

  /** The summary built once the shape is right. */
  function Summarise(m: Json): (r: Result<SchemaSummary>)
    requires SchemaShape(m)
    ensures r.Ok? <==> SectionsReadable(m)
    ensures r.Ok? ==> r.value.schemaVersion == SchemaVersionV2
    ensures r.Ok? ==> r.value.auditCategories == Keys(Member(m, "audit_index").value.fields)
    ensures r.Ok? ==> (r.value.hasOwnership <==> Has(m, "ownership_13f")) && (r.value.concentration.Some? <==> r.value.hasOwnership)
    ensures r.Ok? ==> r.value.priceSections == Keys(Member(m, "price").value.fields)
    ensures r.Ok? ==> (r.value.returnsPresence.Some? <==> "returns" in r.value.priceSections)
    ensures r.Ok? ==> (r.value.volatilityPresence.Some? <==> "volatility" in r.value.priceSections)
  {
    var price := Member(m, "price").value;
    if !price.JObj? then Err("'price' has no attribute 'keys'")
    else
      var rets :- ReturnsPresence(price);
      var volatility :- VolatilityPresence(price);
      var concentration :- ConcentrationOf(m);
      var meta := Member(m, "meta").value;
      Ok(SchemaSummary(SchemaVersionV2, Get(meta, "ticker").value, Has(m, "ownership_13f"),
        Keys(Member(m, "audit_index").value.fields), Keys(price.fields), rets, volatility, concentration))
  }

  /** `validate_v2_schema`: it raises exactly when the shape is wrong or a section it
      reads is of the wrong kind, and a summary reports the schema version, every
      audit category present and whether the optional sections are there. */
  function ValidateV2Schema(m: Json): (r: Result<SchemaSummary>)
    ensures r.Ok? <==> SchemaShape(m) && SectionsReadable(m)
    ensures r.Ok? ==> r.value.schemaVersion == SchemaVersionV2
    ensures r.Ok? ==> forall k :: 0 <= k < |AuditCategories| ==> AuditCategories[k] in r.value.auditCategories
    ensures r.Ok? ==> (r.value.hasOwnership <==> Has(m, "ownership_13f")) && (r.value.concentration.Some? <==> r.value.hasOwnership)
    ensures r.Ok? ==> (r.value.returnsPresence.Some? <==> "returns" in r.value.priceSections)
  {
    var _ :- CheckShape(m);
    Summarise(m)
  }

  /** The test suite's three rejections: a missing section, a wrong version and an
      audit index that is not a dictionary. */
  lemma SchemaRejections(m: Json)
    ensures m.JObj? && !Has(m, "price") ==> ValidateV2Schema(m).Err?
    ensures (m.JObj? && Has(m, "meta") && Member(m, "meta").value.JObj? &&
      Lookup(Member(m, "meta").value.fields, "schema_version") == Some(JStr("1.0.0"))) ==> ValidateV2Schema(m).Err?
    ensures m.JObj? && Has(m, "audit_index") && Member(m, "audit_index").value.JStr? ==> ValidateV2Schema(m).Err?
  {
  }

  /** The audit index the builder writes holds each of the six categories as a list. */
  lemma BuiltIndexListsCategories(a: V1ToV2Builder.AuditLists)
    ensures var ai := V1ToV2Builder.AuditIndexJson(a);
      ai.JObj? && forall k :: 0 <= k < |AuditCategories| ==> CategoryListed(ai, AuditCategories[k])
  {
    var ai := V1ToV2Builder.AuditIndexJson(a);
    forall k | 0 <= k < |AuditCategories|
      ensures CategoryListed(ai, AuditCategories[k])
    {
      assert ai.fields[k].0 == AuditCategories[k];
      assert forall i :: 0 <= i < k ==> ai.fields[i].0 != ai.fields[k].0;
      LookupFirst(ai.fields, k);
    }
  }

  // ---------------------------------------------------------------------------
  // validate_audit_index_completeness
  // ---------------------------------------------------------------------------

  /** The lists extract_display_values appends to, in traversal order. */
  datatype Found = Found(percentages: seq<string>, currency: seq<string>, dates: seq<string>)

  const NoneFound := Found([], [], [])

  function Plus(a: Found, b: Found): Found
  {
    Found(a.percentages + b.percentages, a.currency + b.currency, a.dates + b.dates)
  }

  /** extract_display_values: a dictionary's items in order, a list's items in order;
      a scalar contributes nothing. */
  function Extract(j: Json): Found
    decreases j, 2
  {
    match j
      case JObj(fields) => ExtractFields(fields)
      case JArr(items) => ExtractItems(items)
      case _ => NoneFound
  }

  function ExtractFields(fields: seq<(string, Json)>): Found
    decreases fields, 1
  {
    if fields == [] then NoneFound else Plus(ExtractField(fields[0]), ExtractFields(fields[1..]))
  }

  function ExtractItems(items: seq<Json>): Found
    decreases items, 1
  {
    if items == [] then NoneFound else Plus(Extract(items[0]), ExtractItems(items[1..]))
  }

  /** One item: a string `display` is a percentage if it holds '%', else a currency
      string if it holds '$', else nothing; a string under a key containing
      "date_display" is a date; anything else is searched. */
  function ExtractField(f: (string, Json)): Found
    decreases f, 0
  {
    var (key, value) := f;
    if key == "display" && value.JStr? then
      if '%' in value.s then Found([value.s], [], [])
      else if '$' in value.s then Found([], [value.s], [])
      else NoneFound
    else if Contains(key, "date_display") && value.JStr? then Found([], [], [value.s])
    else Extract(value)
  }

  /** Every percentage found holds '%'; every currency string holds '$' and no '%'. */
  predicate Sorted(f: Found)
  {
    (forall i :: 0 <= i < |f.percentages| ==> '%' in f.percentages[i]) &&
    (forall i :: 0 <= i < |f.currency| ==> '$' in f.currency[i] && '%' !in f.currency[i])
  }

  lemma PlusSorted(a: Found, b: Found)
    requires Sorted(a) && Sorted(b)
    ensures Sorted(Plus(a, b))
  {
    var p := Plus(a, b);
    assert forall i :: |a.percentages| <= i < |p.percentages| ==> p.percentages[i] == b.percentages[i - |a.percentages|];
    assert forall i :: |a.currency| <= i < |p.currency| ==> p.currency[i] == b.currency[i - |a.currency|];
  }

  /** Whatever the document, the strings found are sorted by the character they hold. */
  lemma {:induction false} ExtractSorted(j: Json)
    ensures Sorted(Extract(j))
    decreases j, 2
  {
    match j
      case JObj(fields) => ExtractFieldsSorted(fields);
      case JArr(items) => ExtractItemsSorted(items);
      case _ =>
  }

  lemma {:induction false} ExtractFieldsSorted(fields: seq<(string, Json)>)
    ensures Sorted(ExtractFields(fields))
    decreases fields, 1
  {
    if fields != [] {
      ExtractFieldSorted(fields[0]);
      ExtractFieldsSorted(fields[1..]);
      PlusSorted(ExtractField(fields[0]), ExtractFields(fields[1..]));
    }
  }

  lemma {:induction false} ExtractItemsSorted(items: seq<Json>)
    ensures Sorted(ExtractItems(items))
    decreases items, 1
  {
    if items != [] {
      ExtractSorted(items[0]);
      ExtractItemsSorted(items[1..]);
      PlusSorted(Extract(items[0]), ExtractItems(items[1..]));
    }
  }

  lemma {:induction false} ExtractFieldSorted(f: (string, Json))
    ensures Sorted(ExtractField(f))
    decreases f, 0
  {
    var (key, value) := f;
    if !(key == "display" && value.JStr?) && !(Contains(key, "date_display") && value.JStr?) {
      ExtractSorted(value);
    }
  }

  /** `set(value)`: a list's items (a string's characters, a dictionary's keys); an
      item that is a list or a dictionary raises TypeError. */
  function PySet(j: Json): (r: Result<set<Json>>)
    ensures j.JArr? ==> (r.Ok? <==> forall i :: 0 <= i < |j.items| ==> Hashable(j.items[i]))
    ensures j.JArr? && r.Ok? ==> forall x :: x in r.value <==> x in j.items
  {
    var xs :- Iterate(j);
    if forall i :: 0 <= i < |xs| ==> Hashable(xs[i]) then Ok(set x | x in xs) else Err("unhashable type")
  }

  /** The three index categories the check reads, each as a set. */
  datatype AuditSets = AuditSets(percentages: set<Json>, currency: set<Json>, dates: set<Json>)

  /** `metrics_v2.get('audit_index', {})` and `set(audit_index.get(c, []))`. */
  function AuditSetsOf(m: Json): (r: Result<AuditSets>)
    ensures r.Ok? ==> m.JObj?
  {
    var ai :- GetOr(m, "audit_index", EmptyObj);
    if !ai.JObj? then Err("'audit_index' has no attribute 'get'")
    else
      var ps :- PySet(GetOr(ai, "percent_strings", JArr([])).value);
      var cs :- PySet(GetOr(ai, "currency_strings", JArr([])).value);
      var ds :- PySet(GetOr(ai, "dates", JArr([])).value);
      Ok(AuditSets(ps, cs, ds))
  }

  /** `set(found) - audit`. */
  function Missing(found: seq<string>, audit: set<Json>): (r: set<string>)
    ensures forall s :: s in r <==> s in found && JStr(s) !in audit
  {
    set s | s in found && JStr(s) !in audit
  }

  predicate AllIndexed(found: seq<string>, audit: set<Json>)
  {
    forall i :: 0 <= i < |found| ==> JStr(found[i]) in audit
  }

  lemma MissingEmptyIff(found: seq<string>, audit: set<Json>)
    ensures Missing(found, audit) == {} <==> AllIndexed(found, audit)
  {
    if !AllIndexed(found, audit) {
      var i :| 0 <= i < |found| && JStr(found[i]) !in audit;
      assert found[i] in Missing(found, audit);
    }
  }

  function Total(f: Found): nat { |f.percentages| + |f.currency| + |f.dates| }

  /** `n / max(1, total) * 100`. */
  function Percent(n: nat, total: nat): real
  {
    n as real / (if total == 0 then 1 else total) as real * 100.0
  }

  /** A count out of a total is a percentage between 0 and 100, and 100 exactly when
      the count is the whole of a non-zero total. */
  lemma PercentBounds(n: nat, total: nat)
    requires n <= total
    ensures 0.0 <= Percent(n, total) <= 100.0
    ensures total > 0 ==> (Percent(n, total) == 100.0 <==> n == total)
  {
    var d := (if total == 0 then 1 else total) as real;
    var q := n as real / d;
    assert q * d == n as real;
    assert q >= 0.0;
    if total > 0 && n < total {
      assert q * d < d;
      assert q < 1.0;
    }
  }

  /** `len(audit_percentages | audit_currency | audit_dates) / max(1, found) * 100`:
      the size of the index against the number of displays found. */
  function CoverageAsWritten(a: AuditSets, f: Found): real
  {
    Percent(|a.percentages + a.currency + a.dates|, Total(f))
  }

  /** The dictionary validate_audit_index_completeness returns; each `missing_*` list
      is a set in some order, so it is kept as the set. */
  datatype Completeness = Completeness(
    complete: bool,
    found: Found,
    missingPercentages: set<string>,
    missingCurrency: set<string>,
    missingDates: set<string>,
    auditCoveragePct: real)

  /** `validate_audit_index_completeness`: complete exactly when every percentage,
      currency string and date found in the document is in its index category. */
  function ValidateAuditIndexCompleteness(m: Json): (r: Result<Completeness>)
    ensures r.Ok? <==> AuditSetsOf(m).Ok?
    ensures r.Ok? ==> r.value.found == Extract(m)
    ensures r.Ok? ==> var a := AuditSetsOf(m).value;
      (r.value.complete <==>
        AllIndexed(r.value.found.percentages, a.percentages) &&
        AllIndexed(r.value.found.currency, a.currency) &&
        AllIndexed(r.value.found.dates, a.dates))
    ensures r.Ok? ==> forall s :: s in r.value.missingCurrency <==> s in r.value.found.currency && JStr(s) !in AuditSetsOf(m).value.currency
    ensures r.Ok? ==> r.value.auditCoveragePct == CoverageAsWritten(AuditSetsOf(m).value, r.value.found)
  {
    var a :- AuditSetsOf(m);
    var f := Extract(m);
    var mp, mc, md := Missing(f.percentages, a.percentages), Missing(f.currency, a.currency), Missing(f.dates, a.dates);
    MissingEmptyIff(f.percentages, a.percentages);
    MissingEmptyIff(f.currency, a.currency);
    MissingEmptyIff(f.dates, a.dates);
    Ok(Completeness(mp == {} && mc == {} && md == {}, f, mp, mc, md, CoverageAsWritten(a, f)))
  }

  /** As written, the coverage counts index entries rather than found displays that are
      indexed: one unindexed currency display against two unrelated index entries is
      incomplete yet reports 200% coverage. */
  lemma CoverageAsWrittenExample()
    ensures var a, f := AuditSets({}, {JStr("$1.00"), JStr("$2.00")}, {}), Found([], ["$5.00"], []);
      !AllIndexed(f.currency, a.currency) && CoverageAsWritten(a, f) == 200.0
  {
    var a, f := AuditSets({}, {JStr("$1.00"), JStr("$2.00")}, {}), Found([], ["$5.00"], []);
    assert "$5.00"[1] != "$1.00"[1] && "$5.00"[1] != "$2.00"[1];
    assert JStr(f.currency[0]) !in a.currency;
    assert a.percentages + a.currency + a.dates == a.currency;
    assert |a.currency| == 2;
    assert Percent(2, 1) == 200.0;
  }

  /** The number of displays found that the index holds. */
  function CountIndexed(found: seq<string>, audit: set<Json>): (n: nat)
    ensures n <= |found|
    ensures n == |found| <==> AllIndexed(found, audit)
  {
    if found == [] then 0
    else
      var init := found[..|found| - 1];
      var n := CountIndexed(init, audit) + (if JStr(found[|found| - 1]) in audit then 1 else 0);
      assert forall i :: 0 <= i < |init| ==> init[i] == found[i];
      assert AllIndexed(found, audit) <==> AllIndexed(init, audit) && JStr(found[|found| - 1]) in audit;
      n
  }

  /** The share of found displays that the index holds, as a percentage. */
  function CoveredPct(a: AuditSets, f: Found): real
  {
    Percent(CountIndexed(f.percentages, a.percentages) + CountIndexed(f.currency, a.currency) + CountIndexed(f.dates, a.dates), Total(f))
  }

  /** The corrected coverage lies between 0 and 100, and with something found it is
      100 exactly when the index is complete. */
  lemma CoveredPctMeaning(a: AuditSets, f: Found)
    ensures 0.0 <= CoveredPct(a, f) <= 100.0
    ensures Total(f) > 0 ==> (CoveredPct(a, f) == 100.0 <==>
      AllIndexed(f.percentages, a.percentages) && AllIndexed(f.currency, a.currency) && AllIndexed(f.dates, a.dates))
  {
    var cp, cc, cd := CountIndexed(f.percentages, a.percentages), CountIndexed(f.currency, a.currency), CountIndexed(f.dates, a.dates);
    PercentBounds(cp + cc + cd, Total(f));
  }

  // ---------------------------------------------------------------------------
  // validate_v2_consistency
  // ---------------------------------------------------------------------------

  /** A display that differs from the one recomputed from its raw value; the message
      the source writes is made of these fields. */
  datatype Mismatch =
    | ReturnsMismatch(period: string, raw: real, display: Json, expected: string)
    | VolatilityMismatch(raw: real, display: Json, expected: string)

  /** The dictionary validate_v2_consistency returns; `warnings` stays empty. */
  datatype Consistency = Consistency(consistent: bool, errors: seq<Mismatch>, warnings: seq<string>)

  /** `f"{raw * 100:.1f}%"`, or "-" before the magnitude for a negative value. */
  function ExpectedReturnDisplay(fmt: FormatOps, raw: real): string
  {
    if raw < 0.0 then "-" + fmt.fixed(Abs(raw * 100.0), 1) + "%" else fmt.fixed(raw * 100.0, 1) + "%"
  }

  /** Whether a period is compared: its raw value is not None and its display is not
      "Not available". */
  predicate Compared(rawVal: Json, displayVal: Json)
  {
    !rawVal.JNull? && displayVal != JStr(NA)
  }

  /** One period of the returns loop: `returns['display'][period]` raises when the
      display has no such period, and a compared raw value must be numeric. */
  function PeriodCheck(fmt: FormatOps, period: string, rawVal: Json, display: Json): (r: Result<Option<Mismatch>>)
    ensures r.Ok? <==> Has(display, period) && (Compared(rawVal, Member(display, period).value) ==> Num(rawVal).Ok?)
    ensures r.Ok? ==> (r.value.Some? <==> (Compared(rawVal, Member(display, period).value) &&
      Member(display, period).value != JStr(ExpectedReturnDisplay(fmt, Num(rawVal).value.value))))
    ensures r.Ok? && r.value.Some? ==> r.value.value.ReturnsMismatch? && r.value.value.period == period
  {
    var displayVal :- At(display, period);
    if !Compared(rawVal, displayVal) then Ok(None)
    else
      var x :- Num(rawVal);
      var expected := ExpectedReturnDisplay(fmt, x.value);
      if displayVal != JStr(expected) then Ok(Some(ReturnsMismatch(period, x.value, displayVal, expected)))
      else Ok(None)
  }

  /** The returns loop over `returns['raw']`, in order; the first period that raises
      ends it. */
  function ReturnMismatches(fmt: FormatOps, periods: seq<(string, Json)>, display: Json): (r: Result<seq<Mismatch>>)
  {
    if periods == [] then Ok([])
    else
      var init :- ReturnMismatches(fmt, periods[..|periods| - 1], display);
      var last := periods[|periods| - 1];
      var found :- PeriodCheck(fmt, last.0, last.1, display);
      Ok(init + (if found.Some? then [found.value] else []))
  }

  /** A period passes when it raises nothing and flags nothing. */
  predicate PeriodPasses(fmt: FormatOps, p: (string, Json), display: Json)
  {
    PeriodCheck(fmt, p.0, p.1, display) == Ok(None)
  }

  /** A period of the loop that raises nothing. */
  predicate PeriodOk(fmt: FormatOps, p: (string, Json), display: Json)
  {
    PeriodCheck(fmt, p.0, p.1, display).Ok?
  }

  /** The loop raises exactly when some period raises. */
  lemma {:induction false} ReturnMismatchesRaise(fmt: FormatOps, periods: seq<(string, Json)>, display: Json)
    ensures ReturnMismatches(fmt, periods, display).Ok? <==> forall i :: 0 <= i < |periods| ==> PeriodOk(fmt, periods[i], display)
  {
    if periods != [] {
      var init := periods[..|periods| - 1];
      var last := periods[|periods| - 1];
      ReturnMismatchesRaise(fmt, init, display);
      assert ReturnMismatches(fmt, periods, display).Ok? <==>
        ReturnMismatches(fmt, init, display).Ok? && PeriodOk(fmt, last, display);
      assert forall i :: 0 <= i < |init| ==> init[i] == periods[i];
      assert periods == init + [last];
    }
  }

  /** The loop flags nothing exactly when every period passes. */
  lemma {:induction false} ReturnMismatchesNone(fmt: FormatOps, periods: seq<(string, Json)>, display: Json)
    ensures ReturnMismatches(fmt, periods, display) == Ok([]) <==> forall i :: 0 <= i < |periods| ==> PeriodPasses(fmt, periods[i], display)
  {
    if periods != [] {
      var init := periods[..|periods| - 1];
      var last := periods[|periods| - 1];
      ReturnMismatchesNone(fmt, init, display);
      var rInit, rLast := ReturnMismatches(fmt, init, display), PeriodCheck(fmt, last.0, last.1, display);
      if rInit.Ok? && rLast.Ok? {
        var extra := if rLast.value.Some? then [rLast.value.value] else [];
        assert ReturnMismatches(fmt, periods, display) == Ok(rInit.value + extra);
        assert |rInit.value + extra| == |rInit.value| + |extra|;
      }
      assert forall i :: 0 <= i < |init| ==> init[i] == periods[i];
      assert periods == init + [last];
    }
  }

  /** `section['raw']` and `section['display']` when the section holds both names;
      a list or a string holding both raises, since it cannot be indexed by them. */
  function RawAndDisplay(sec: Json): (r: Result<Option<(Json, Json)>>)
    ensures sec.JObj? ==> r.Ok? && (r.value.Some? <==> Has(sec, "raw") && Has(sec, "display"))
    ensures sec.JObj? && r.Ok? && r.value.Some? ==>
      Member(sec, "raw") == Some(r.value.value.0) && Member(sec, "display") == Some(r.value.value.1)
  {
    if !Container(sec) then Err("argument of type is not iterable")
    else if !(InOp(sec, "raw").value && InOp(sec, "display").value) then Ok(None)
    else if !sec.JObj? then Err("indices must be integers")
    else Ok(Some((Member(sec, "raw").value, Member(sec, "display").value)))
  }

  /** The returns check: skipped unless the section has both `raw` and `display`. A
      `raw` that is not a dictionary raises when it has items, since the loop indexes it
      by them. */
  function ReturnsCheck(fmt: FormatOps, sec: Json): (r: Result<seq<Mismatch>>)
  {
    var pair :- RawAndDisplay(sec);
    if pair.None? then Ok([])
    else
      var (raw, display) := pair.value;
      if raw.JObj? then ReturnMismatches(fmt, raw.fields, display)
      else if raw == JArr([]) || raw == JStr([]) then Ok([])
      else Err("returns['raw'] cannot be indexed by its own items")
  }

  /** `f"{vol_raw * 100:.1f}%"` compared with the display, with no None guard: a None
      raw value raises TypeError at `vol_raw * 100`, and so does a non-numeric one. */
  function CompareVolatility(fmt: FormatOps, raw: Json, display: Json): (r: Result<seq<Mismatch>>)
    ensures r.Ok? <==> Num(raw).Ok? && !raw.JNull?
    ensures r.Ok? ==> (r.value != [] <==> display != JStr(fmt.fixed(Num(raw).value.value * 100.0, 1) + "%"))
  {
    var x :- Num(raw);
    if x.None? then Err("unsupported operand type(s) for *: 'NoneType' and 'int'")
    else
      var expected := fmt.fixed(x.value * 100.0, 1) + "%";
      Ok(if display != JStr(expected) then [VolatilityMismatch(x.value, display, expected)] else [])
  }

  /** The volatility check as written: skipped unless the section has both `raw` and
      `display`, then compared without a guard. */
  function VolatilityCheck(fmt: FormatOps, vol: Json): (r: Result<seq<Mismatch>>)
  {
    var pair :- RawAndDisplay(vol);
    if pair.None? then Ok([]) else CompareVolatility(fmt, pair.value.0, pair.value.1)
  }

  /** The volatility check with the returns check's guard: a None raw value or a
      "Not available" display is not compared. */
  function VolatilityCheckCorrected(fmt: FormatOps, vol: Json): (r: Result<seq<Mismatch>>)
  {
    var pair :- RawAndDisplay(vol);
    if pair.None? || !Compared(pair.value.0, pair.value.1) then Ok([])
    else CompareVolatility(fmt, pair.value.0, pair.value.1)
  }

  /** The result built from the two lists of mismatches: consistent exactly when
      there are none. */
  function ConsistencyFrom(returnErrors: seq<Mismatch>, volatilityErrors: seq<Mismatch>): (c: Consistency)
    ensures c.consistent <==> c.errors == []
    ensures c.errors == returnErrors + volatilityErrors && c.warnings == []
  {
    var errors := returnErrors + volatilityErrors;
    Consistency(errors == [], errors, [])
  }

  /** `validate_v2_consistency` as written. */
  function V2Consistency(fmt: FormatOps, m: Json): (r: Result<Consistency>)
    ensures r.Ok? ==> (r.value.consistent <==> r.value.errors == [])
  {
    var price :- GetOr(m, "price", EmptyObj);
    var rets :- GetOr(price, "returns", EmptyObj);
    var returnErrors :- ReturnsCheck(fmt, rets);
    var vol := GetOr(price, "volatility", EmptyObj).value;
    var volatilityErrors :- VolatilityCheck(fmt, vol);
    Ok(ConsistencyFrom(returnErrors, volatilityErrors))
  }

  /** `validate_v2_consistency` with the guarded volatility check. */
  function V2ConsistencyCorrected(fmt: FormatOps, m: Json): (r: Result<Consistency>)
    ensures r.Ok? ==> (r.value.consistent <==> r.value.errors == [])
  {
    var price :- GetOr(m, "price", EmptyObj);
    var rets :- GetOr(price, "returns", EmptyObj);
    var returnErrors :- ReturnsCheck(fmt, rets);
    var vol := GetOr(price, "volatility", EmptyObj).value;
    var volatilityErrors :- VolatilityCheckCorrected(fmt, vol);
    Ok(ConsistencyFrom(returnErrors, volatilityErrors))
  }

  /** The consistency check, with the returns loop appending to `errors`. */
  method ValidateV2Consistency(fmt: FormatOps, m: Json) returns (r: Result<Consistency>)
    ensures r == V2Consistency(fmt, m)
  {
    var price := GetOr(m, "price", EmptyObj);
    if price.Err? {
      return Err(price.msg);
    }
    var sec := GetOr(price.value, "returns", EmptyObj);
    if sec.Err? {
      return Err(sec.msg);
    }
    var returnErrors := CheckReturns(fmt, sec.value);
    if returnErrors.Err? {
      return Err(returnErrors.msg);
    }
    var volatilityErrors := VolatilityCheck(fmt, GetOr(price.value, "volatility", EmptyObj).value);
    if volatilityErrors.Err? {
      return Err(volatilityErrors.msg);
    }
    r := Ok(ConsistencyFrom(returnErrors.value, volatilityErrors.value));
  }

  /** The returns check, the loop over the periods appending each mismatch. */
  method CheckReturns(fmt: FormatOps, sec: Json) returns (r: Result<seq<Mismatch>>)
    ensures r == ReturnsCheck(fmt, sec)
  {
    var pair := RawAndDisplay(sec);
    if pair.Err? {
      return Err(pair.msg);
    }
    if pair.value.None? {
      return Ok([]);
    }
    var (raw, display) := pair.value.value;
    if raw.JObj? {
      r := ScanPeriods(fmt, raw.fields, display);
    } else if raw == JArr([]) || raw == JStr([]) {
      r := Ok([]);
    } else {
      r := Err("returns['raw'] cannot be indexed by its own items");
    }
  }

  /** The loop over the periods, appending each mismatch; the first period that raises
      ends it. */
  method ScanPeriods(fmt: FormatOps, periods: seq<(string, Json)>, display: Json) returns (r: Result<seq<Mismatch>>)
    ensures r == ReturnMismatches(fmt, periods, display)
  {
    var errors: seq<Mismatch> := [];
    var i := 0;
    while i < |periods|
      invariant 0 <= i <= |periods|
      invariant ReturnMismatches(fmt, periods[..i], display) == Ok(errors)
    {
      var found := PeriodCheck(fmt, periods[i].0, periods[i].1, display);
      ReturnMismatchesStep(fmt, periods, i, display);
      if found.Err? {
        ErrPrefixRaises(fmt, periods, i + 1, display);
        return Err(found.msg);
      }
      errors := errors + if found.value.Some? then [found.value.value] else [];
      i := i + 1;
    }
    assert periods[..i] == periods;
    r := Ok(errors);
  }

  /** One more period of the loop. */
  lemma ReturnMismatchesStep(fmt: FormatOps, periods: seq<(string, Json)>, i: nat, display: Json)
    requires i < |periods| && ReturnMismatches(fmt, periods[..i], display).Ok?
    ensures var found := PeriodCheck(fmt, periods[i].0, periods[i].1, display);
      ReturnMismatches(fmt, periods[..i + 1], display) ==
        if found.Err? then Err(found.msg)
        else Ok(ReturnMismatches(fmt, periods[..i], display).value + if found.value.Some? then [found.value.value] else [])
  {
    assert periods[..i + 1][..i] == periods[..i] && periods[..i + 1][i] == periods[i];
  }

  /** A prefix of the periods that raises makes the whole loop raise, with its message. */
  lemma {:induction false} ErrPrefixRaises(fmt: FormatOps, periods: seq<(string, Json)>, n: nat, display: Json)
    requires n <= |periods| && ReturnMismatches(fmt, periods[..n], display).Err?
    ensures ReturnMismatches(fmt, periods, display) == ReturnMismatches(fmt, periods[..n], display)
    decreases |periods| - n
  {
    if n < |periods| {
      assert periods[..n + 1][..n] == periods[..n];
      ErrPrefixRaises(fmt, periods, n + 1, display);
    } else {
      assert periods[..n] == periods;
    }
  }

  /** A return display written by format_percentage passes, whenever formatting a
      negative number yields "-" before the formatted magnitude, as Python's does. */
  lemma FormattedReturnPasses(fmt: FormatOps, period: string, x: real)
    requires x < 0.0 ==> fmt.fixed(x * 100.0, 1) == "-" + fmt.fixed(Abs(x * 100.0), 1)
    ensures PeriodPasses(fmt, (period, JNum(x)), JObj([(period, JStr(Formatters.FormatPercentage(fmt, Some(x), 1)))]))
  {
  }

  /** Where the builder's volatility section keeps its raw value and its display. */
  lemma BuiltVolatilityMembers(sec: Json)
    requires V1ToV2Builder.VolatilityShape(sec)
    ensures Member(sec, "raw") == Some(sec.fields[1].1) && Member(sec, "display") == Some(sec.fields[2].1)
    ensures Compared(sec.fields[1].1, sec.fields[2].1) <==> !sec.fields[1].1.JNull?
  {
    LookupSecond(sec.fields, "raw");
    LookupThird(sec.fields, "display");
  }

  /** As written, the volatility section the builder writes for a missing volatility
      (raw None, display "Not available") makes the check raise; the corrected check
      passes it. */
  lemma UnavailableVolatilityRaises(fmt: FormatOps, sec: Json)
    requires V1ToV2Builder.VolatilityShape(sec) && sec.fields[1].1.JNull?
    ensures VolatilityCheck(fmt, sec).Err?
    ensures VolatilityCheckCorrected(fmt, sec) == Ok([])
  {
    BuiltVolatilityMembers(sec);
  }

  /** The corrected check never raises on a volatility section the builder writes
      from a numeric value, and flags it exactly when its display differs from the
      recomputed one. */
  lemma CorrectedVolatilityOfBuiltSection(fmt: FormatOps, sec: Json)
    requires V1ToV2Builder.VolatilityShape(sec) && Num(sec.fields[1].1).Ok?
    ensures VolatilityCheckCorrected(fmt, sec).Ok?
    ensures VolatilityCheckCorrected(fmt, sec) != Ok([]) <==>
      !sec.fields[1].1.JNull? &&
      sec.fields[2].1 != JStr(fmt.fixed(Num(sec.fields[1].1).value.value * 100.0, 1) + "%")
  {
    BuiltVolatilityMembers(sec);
  }
}
