// reports/number_audit.py: the older narrative audit. Percentages, currency amounts,
// written dates and bare numbers are pulled out of a text and each is checked against
// the lists of the v2 audit index: percentages within one point of the same sign,
// currency exactly, dates ignoring letter case, numbers within 5% (at least 0.1).
// Python sets are modelled by the lists they are built from: membership is the same,
// and only the percentage scan depends on the order (see PercentScan).
module NumberAudit {
  import opened Wrappers
  import opened Text
  import opened Dates
  import opened Numerics
  import opened Json
  import opened Patterns

  // ---------------------------------------------------------------------------
  // Extraction

  /** `_extract_percentages`: `-?\d+\.?\d*%`. */
  function ExtractPercentages(text: string): seq<string>
  {
    FindAll(SignedPercent, text)
  }

  /** `_extract_currency`: `\$\d+\.?\d*[BMK]?`. */
  function ExtractCurrency(text: string): seq<string>
  {
    FindAll(Currency, text)
  }

  /** `_extract_dates` as written: the pattern's month alternation is a capturing group,
      so `re.findall` returns that group, the month name, for every date. */
  function DateGroups(text: string): (r: seq<string>)
    ensures forall k :: 0 <= k < |r| ==> r[k] in MonthNames
  {
    MonthGroups(text)
  }

  /** `_extract_dates` as intended: each whole `Month D, YYYY` match. */
  function ExtractDates(text: string): seq<string>
  {
    FindAll(LongDate(false), text)
  }

  /** The strings `_extract_numbers` finds: `\b\d+\.?\d*\b` in the text left after
      every currency amount and then every percentage is deleted. */
  function NumberStrings(text: string): (r: seq<string>)
    ensures forall k :: 0 <= k < |r| ==> r[k] != [] && IsDigit(r[k][0])
  {
    FindBounded(AnyDecimal, RemoveAll(SignedPercent, RemoveAll(Currency, text)), false)
  }

  /** The values of the strings `float` accepts, in order; the others are skipped. */
  function ParsedNumbers(strs: seq<string>): (r: seq<real>)
    ensures |r| <= |strs|
  {
    if strs == [] then []
    else
      var init := ParsedNumbers(strs[..|strs| - 1]);
      var v := ParseFloat(strs[|strs| - 1]);
      if v.Some? then init + [v.value] else init
  }

  function NumbersOf(text: string): seq<real>
  {
    ParsedNumbers(NumberStrings(text))
  }

  /** `_extract_numbers`: the loop converting each found string. */
  method ExtractNumbers(text: string) returns (numbers: seq<real>)
    ensures numbers == NumbersOf(text)
  {
    numbers := ParseAll(NumberStrings(text));
  }

  /** The `try: float(n)` loop of `_extract_numbers`. */
  method ParseAll(strs: seq<string>) returns (numbers: seq<real>)
    ensures numbers == ParsedNumbers(strs)
  {
    numbers := [];
    var i := 0;
    while i < |strs|
      invariant 0 <= i <= |strs|
      invariant numbers == ParsedNumbers(strs[..i])
    {
      var v := ParseFloat(strs[i]);
      ParsedStep(strs, i, v);
      if v.Some? {
        numbers := numbers + [v.value];
      }
      i := i + 1;
    }
    assert strs[..|strs|] == strs;
  }

  lemma ParsedStep(strs: seq<string>, i: nat, v: Option<real>)
    requires i < |strs| && v == ParseFloat(strs[i])
    ensures ParsedNumbers(strs[..i + 1]) == ParsedNumbers(strs[..i]) + (if v.Some? then [v.value] else [])
  {
    assert strs[..i + 1][..i] == strs[..i];
  }

  // ---------------------------------------------------------------------------
  // Membership

  /** `float(p.replace('%', '').replace('-', ''))`, `None` where it raises. */
  function PercentValue(p: string): Option<real>
  {
    ParseFloat(RemoveChar(RemoveChar(p, '%'), '-'))
  }

  /** What the scan looks at in an allowed string: its value without signs and whether
      it starts with a minus. */
  datatype Reading = Reading(value: Option<real>, negative: bool)

  function ReadingOf(a: string): Reading
  {
    Reading(PercentValue(a), StartsWith(a, "-"))
  }

  function Readings(allowed: seq<string>): (r: seq<Reading>)
    ensures |r| == |allowed| && forall k :: 0 <= k < |allowed| ==> r[k] == ReadingOf(allowed[k])
  {
    seq(|allowed|, k requires 0 <= k < |allowed| => ReadingOf(allowed[k]))
  }

  /** A reading of the same sign, within one percentage point. */
  predicate Near(v: real, negative: bool, a: Reading)
  {
    a.value.Some? && a.negative == negative && Abs(v - a.value.value) <= 1.0
  }

  /** The loop of `_percentage_in_allowed` over the allowed strings: one of another sign
      is passed over, a near one answers True, and one `float` rejects ends the whole
      check with False (the `except ValueError`). */
  function PercentScan(v: real, negative: bool, rs: seq<Reading>): bool
  {
    if rs == [] then false
    else if rs[0].value.None? then false
    else if rs[0].negative != negative then PercentScan(v, negative, rs[1..])
    else if Abs(v - rs[0].value.value) <= 1.0 then true
    else PercentScan(v, negative, rs[1..])
  }

  /** `_percentage_in_allowed`: an exact match, or the tolerance scan. */
  predicate PercentAllowed(p: string, allowed: seq<string>)
  {
    p in allowed || (PercentValue(p).Some? && PercentScan(PercentValue(p).value, StartsWith(p, "-"), Readings(allowed)))
  }

  /** When every allowed string is a number, the order of the scan does not matter: a
      percentage passes exactly when some allowed one is near it. */
  lemma {:induction false} PercentScanIff(v: real, negative: bool, rs: seq<Reading>)
    requires forall k :: 0 <= k < |rs| ==> rs[k].value.Some?
    ensures PercentScan(v, negative, rs) <==> exists k :: 0 <= k < |rs| && Near(v, negative, rs[k])
  {
    if rs != [] {
      var rest := rs[1..];
      PercentScanIff(v, negative, rest);
      if PercentScan(v, negative, rs) && !Near(v, negative, rs[0]) {
        var k :| 0 <= k < |rest| && Near(v, negative, rest[k]);
        assert rs[k + 1] == rest[k];
      }
      if exists k :: 0 <= k < |rs| && Near(v, negative, rs[k]) {
        var k :| 0 <= k < |rs| && Near(v, negative, rs[k]);
        if k > 0 {
          assert rest[k - 1] == rs[k];
        }
      }
    }
  }

  /** A string the scan cannot read, placed first, rejects every percentage that is
      not listed exactly, whatever near value follows it. */
  lemma UnreadableFirstRejects(p: string, bad: string, rest: seq<string>)
    requires PercentValue(bad).None? && p !in [bad] + rest
    ensures !PercentAllowed(p, [bad] + rest)
  {
    assert Readings([bad] + rest)[0] == ReadingOf(bad);
  }

  /** `_percentage_in_allowed` itself. */
  method PercentInAllowed(p: string, allowed: seq<string>) returns (ok: bool)
    ensures ok == PercentAllowed(p, allowed)
  {
    if p in allowed {
      return true;
    }
    var v := PercentValue(p);
    if v.None? {
      return false;
    }
    ok := ScanAllowed(v.value, StartsWith(p, "-"), Readings(allowed));
  }

  /** The loop of `_percentage_in_allowed`, over what `float` reads from each allowed string. */
  method ScanAllowed(v: real, negative: bool, rs: seq<Reading>) returns (ok: bool)
    ensures ok == PercentScan(v, negative, rs)
  {
    var i := 0;
    while i < |rs|
      invariant 0 <= i <= |rs|
      invariant PercentScan(v, negative, rs) == PercentScan(v, negative, rs[i..])
    {
      ScanStep(v, negative, rs, i);
      var r := rs[i];
      if r.value.None? {
        return false;
      }
      if r.negative == negative && Abs(v - r.value.value) <= 1.0 {
        return true;
      }
      i := i + 1;
    }
    return false;
  }

  lemma ScanStep(v: real, negative: bool, rs: seq<Reading>, i: nat)
    requires i < |rs|
    ensures PercentScan(v, negative, rs[i..]) ==
      if rs[i].value.None? then false
      else if rs[i].negative != negative then PercentScan(v, negative, rs[i + 1..])
      else if Abs(v - rs[i].value.value) <= 1.0 then true
      else PercentScan(v, negative, rs[i + 1..])
  {
    var tail := rs[i..];
    assert tail[0] == rs[i] && tail[1..] == rs[i + 1..];
  }

  /** `_date_in_allowed`: exact, or equal once both are lower-cased. */
  predicate DateAllowed(d: string, allowed: seq<string>)
  {
    d in allowed || exists k :: 0 <= k < |allowed| && Lower(d) == Lower(allowed[k])
  }

  method DateInAllowed(d: string, allowed: seq<string>) returns (ok: bool)
    ensures ok == DateAllowed(d, allowed)
  {
    if d in allowed {
      return true;
    }
    var found := Lower(d);
    var i := 0;
    while i < |allowed|
      invariant 0 <= i <= |allowed|
      invariant forall k :: 0 <= k < i ==> found != Lower(allowed[k])
    {
      if found == Lower(allowed[i]) {
        return true;
      }
      i := i + 1;
    }
    return false;
  }

  /** `max(0.1, abs(a) * 0.05)`. */
  function Tolerance(a: real): (t: real)
    ensures t >= 0.1 && t >= Abs(a) * 0.05
  {
    Max(0.1, Abs(a) * 0.05)
  }

  /** `_number_in_allowed`: an exact match, or within the tolerance of an allowed number. */
  predicate NumberAllowed(x: real, allowed: seq<real>)
  {
    x in allowed || exists k :: 0 <= k < |allowed| && Abs(x - allowed[k]) <= Tolerance(allowed[k])
  }

  /** The exact match adds nothing: every number is within tolerance of itself. */
  lemma NumberAllowedIff(x: real, allowed: seq<real>)
    ensures NumberAllowed(x, allowed) <==> exists k :: 0 <= k < |allowed| && Abs(x - allowed[k]) <= Tolerance(allowed[k])
  {
    if x in allowed {
      var k :| 0 <= k < |allowed| && allowed[k] == x;
      assert Abs(x - allowed[k]) == 0.0;
    }
  }

  method NumberInAllowed(x: real, allowed: seq<real>) returns (ok: bool)
    ensures ok == NumberAllowed(x, allowed)
  {
    if x in allowed {
      return true;
    }
    var i := 0;
    while i < |allowed|
      invariant 0 <= i <= |allowed|
      invariant forall k :: 0 <= k < i ==> Abs(x - allowed[k]) > Tolerance(allowed[k])
    {
      if Abs(x - allowed[i]) <= Tolerance(allowed[i]) {
        return true;
      }
      i := i + 1;
    }
    return false;
  }

  // ---------------------------------------------------------------------------
  // The audit index

  /** What the narrative may mention: the strings of the three string lists and the
      numbers (`int`, `float` and `bool` are all numbers to `isinstance`) of `numbers`. */
  datatype Allowed = Allowed(percents: seq<string>, currency: seq<string>, dates: seq<string>, numbers: seq<real>)

  /** `set(audit_index.get(key, []))`: the items of what is stored under `key`;
      `set` raises on a list or dictionary item. */
  function IndexList(index: Json, key: string): (r: Result<seq<Json>>)
    ensures r.Ok? ==> forall k :: 0 <= k < |r.value| ==> Hashable(r.value[k])
  {
    var v :- GetOr(index, key, JArr([]));
    var items :- Iterate(v);
    if forall k :: 0 <= k < |items| ==> Hashable(items[k]) then Ok(items) else Err("unhashable type")
  }

  function NumericItems(items: seq<Json>): (r: seq<real>)
    ensures |r| <= |items|
  {
    if items == [] then []
    else
      var init := NumericItems(items[..|items| - 1]);
      match items[|items| - 1]
        case JNum(n) => init + [n]
        case JBool(b) => init + [if b then 1.0 else 0.0]
        case _ => init
  }

  /** The five sets `audit_narrative` builds, `labels` included (built, never used). */
  function AllowedOf(index: Json): Result<Allowed>
  {
    var percents :- IndexList(index, "percent_strings");
    var currency :- IndexList(index, "currency_strings");
    var dates :- IndexList(index, "dates");
    var numbers :- IndexList(index, "numbers");
    var _ :- IndexList(index, "labels");
    Ok(Allowed(StringItems(percents), StringItems(currency), StringItems(dates), NumericItems(numbers)))
  }

  // ---------------------------------------------------------------------------
  // The audit

  /** A found element; the Python lists hold it as `"percentage: 28.5%"` and the like
      when hallucinated, and as the string itself (or `str(num)`) when verified. */
  datatype Element = PercentEl(p: string) | CurrencyEl(c: string) | DateEl(d: string) | NumberEl(x: real)

  predicate ElementAllowed(e: Element, a: Allowed)
  {
    match e
      case PercentEl(p) => PercentAllowed(p, a.percents)
      case CurrencyEl(c) => c in a.currency
      case DateEl(d) => DateAllowed(d, a.dates)
      case NumberEl(x) => NumberAllowed(x, a.numbers)
  }

  /** Whether each element is allowed. */
  function Verdicts(es: seq<Element>, a: Allowed): (r: seq<bool>)
    ensures |r| == |es| && forall k :: 0 <= k < |es| ==> r[k] == ElementAllowed(es[k], a)
  {
    seq(|es|, k requires 0 <= k < |es| => ElementAllowed(es[k], a))
  }

  /** The items whose mark is `want`, in order. */
  function Pick<T>(xs: seq<T>, marks: seq<bool>, want: bool): (r: seq<T>)
    requires |xs| == |marks|
    ensures |r| <= |xs|
  {
    if xs == [] then []
    else
      var n := |xs| - 1;
      var init := Pick(xs[..n], marks[..n], want);
      if marks[n] == want then init + [xs[n]] else init
  }

  lemma {:induction false} PickEmptyIff<T>(xs: seq<T>, marks: seq<bool>, want: bool)
    requires |xs| == |marks|
    ensures Pick(xs, marks, want) == [] <==> forall k :: 0 <= k < |marks| ==> marks[k] != want
  {
    if xs != [] {
      var n := |xs| - 1;
      PickEmptyIff(xs[..n], marks[..n], want);
      assert forall k :: 0 <= k < n ==> marks[..n][k] == marks[k];
    }
  }

  /** Each item is picked under exactly one of the two marks. */
  lemma {:induction false} PickCount<T>(xs: seq<T>, marks: seq<bool>)
    requires |xs| == |marks|
    ensures |Pick(xs, marks, true)| + |Pick(xs, marks, false)| == |xs|
  {
    if xs != [] {
      PickCount(xs[..|xs| - 1], marks[..|xs| - 1]);
    }
  }

  /** A picked item carries the wanted mark. */
  lemma {:induction false} PickSound<T>(xs: seq<T>, marks: seq<bool>, want: bool, x: T)
    requires |xs| == |marks| && x in Pick(xs, marks, want)
    ensures exists k :: 0 <= k < |xs| && xs[k] == x && marks[k] == want
  {
    var n := |xs| - 1;
    var xs', marks' := xs[..n], marks[..n];
    if x in Pick(xs', marks', want) {
      PickSound(xs', marks', want, x);
      var k :| 0 <= k < |xs'| && xs'[k] == x && marks'[k] == want;
      assert xs[k] == x && marks[k] == want;
    } else {
      assert xs[n] == x && marks[n] == want;
    }
  }

  /** An item with the wanted mark is picked. */
  lemma {:induction false} PickComplete<T>(xs: seq<T>, marks: seq<bool>, k: nat)
    requires |xs| == |marks| && k < |xs|
    ensures xs[k] in Pick(xs, marks, marks[k])
  {
    var n := |xs| - 1;
    if k < n {
      PickComplete(xs[..n], marks[..n], k);
      assert xs[..n][k] == xs[k] && marks[..n][k] == marks[k];
    }
  }

  /** The elements the index does not allow, in order. */
  function Hallucinated(es: seq<Element>, a: Allowed): seq<Element>
  {
    Pick(es, Verdicts(es, a), false)
  }

  /** The elements the index allows, in order. */
  function Verified(es: seq<Element>, a: Allowed): seq<Element>
  {
    Pick(es, Verdicts(es, a), true)
  }

  datatype Found = Found(percentages: seq<string>, currency: seq<string>, dates: seq<string>, numbers: seq<real>)

  function PercentEls(ps: seq<string>): (r: seq<Element>)
    ensures |r| == |ps| && forall k :: 0 <= k < |ps| ==> r[k] == PercentEl(ps[k])
  {
    seq(|ps|, k requires 0 <= k < |ps| => PercentEl(ps[k]))
  }

  function CurrencyEls(cs: seq<string>): (r: seq<Element>)
    ensures |r| == |cs| && forall k :: 0 <= k < |cs| ==> r[k] == CurrencyEl(cs[k])
  {
    seq(|cs|, k requires 0 <= k < |cs| => CurrencyEl(cs[k]))
  }

  function DateEls(ds: seq<string>): (r: seq<Element>)
    ensures |r| == |ds| && forall k :: 0 <= k < |ds| ==> r[k] == DateEl(ds[k])
  {
    seq(|ds|, k requires 0 <= k < |ds| => DateEl(ds[k]))
  }

  function NumberEls(xs: seq<real>): (r: seq<Element>)
    ensures |r| == |xs| && forall k :: 0 <= k < |xs| ==> r[k] == NumberEl(xs[k])
  {
    seq(|xs|, k requires 0 <= k < |xs| => NumberEl(xs[k]))
  }

  /** The four checking loops in turn: percentages, currency, dates, numbers. */
  function Rejected(f: Found, a: Allowed): seq<Element>
  {
    Hallucinated(PercentEls(f.percentages), a) + Hallucinated(CurrencyEls(f.currency), a)
      + Hallucinated(DateEls(f.dates), a) + Hallucinated(NumberEls(f.numbers), a)
  }

  function Accepted(f: Found, a: Allowed): seq<Element>
  {
    Verified(PercentEls(f.percentages), a) + Verified(CurrencyEls(f.currency), a)
      + Verified(DateEls(f.dates), a) + Verified(NumberEls(f.numbers), a)
  }

  /** The result dictionary: `NoIndex` is the early `'No audit index available'` answer. */
  datatype Audit =
    | NoIndex
    | Audited(hallucinated: seq<Element>, verified: seq<Element>, found: Found)

  predicate Passed(r: Audit)
  {
    r.Audited? && r.hallucinated == []
  }

  /** The audit of the found elements against `metrics_v2`: a falsy audit index gives
      `NoIndex`; looking up in a non-dictionary or building a set that raises is `Err`. */
  function AuditFound(f: Found, v2: Json): Result<Audit>
  {
    var index :- GetOr(v2, "audit_index", EmptyObj);
    if !Truthy(index) then Ok(NoIndex)
    else
      var a :- AllowedOf(index);
      Ok(Audited(Rejected(f, a), Accepted(f, a), f))
  }

  function FoundIn(text: string): Found
  {
    Found(ExtractPercentages(text), ExtractCurrency(text), ExtractDates(text), NumbersOf(text))
  }

  /** What the source extracts: month names in place of dates. */
  function FoundAsWritten(text: string): Found
  {
    Found(ExtractPercentages(text), ExtractCurrency(text), DateGroups(text), NumbersOf(text))
  }

  /** `audit_narrative`, with the date extraction corrected. */
  function AuditOf(text: string, v2: Json): Result<Audit>
  {
    AuditFound(FoundIn(text), v2)
  }

  /** `audit_narrative` exactly as written. */
  function AuditAsWritten(text: string, v2: Json): Result<Audit>
  {
    AuditFound(FoundAsWritten(text), v2)
  }

  /** `audit_narrative`: extract, then check; the date step yields month names. */
  method AuditNarrative(text: string, v2: Json) returns (r: Result<Audit>)
    ensures r == AuditAsWritten(text, v2)
  {
    var numbers := ExtractNumbers(text);
    r := AuditFoundElements(Found(ExtractPercentages(text), ExtractCurrency(text), DateGroups(text), numbers), v2);
  }

  /** The checks of `audit_narrative`: the four loops append to the shared lists. */
  method AuditFoundElements(f: Found, v2: Json) returns (r: Result<Audit>)
    ensures r == AuditFound(f, v2)
  {
    var index := GetOr(v2, "audit_index", EmptyObj);
    if index.Err? {
      return Err(index.msg);
    }
    if !Truthy(index.value) {
      return Ok(NoIndex);
    }
    var allowed := AllowedOf(index.value);
    if allowed.Err? {
      return Err(allowed.msg);
    }
    var a := allowed.value;
    var hallucinated, verified := CheckElements(PercentEls(f.percentages), a, [], []);
    assert hallucinated == Hallucinated(PercentEls(f.percentages), a) && verified == Verified(PercentEls(f.percentages), a);
    hallucinated, verified := CheckElements(CurrencyEls(f.currency), a, hallucinated, verified);
    hallucinated, verified := CheckElements(DateEls(f.dates), a, hallucinated, verified);
    hallucinated, verified := CheckElements(NumberEls(f.numbers), a, hallucinated, verified);
    AuditFoundOf(f, v2, index.value, a);
    return Ok(Audited(hallucinated, verified, f));
  }

  lemma AuditFoundOf(f: Found, v2: Json, index: Json, a: Allowed)
    requires GetOr(v2, "audit_index", EmptyObj) == Ok(index) && Truthy(index) && AllowedOf(index) == Ok(a)
    ensures AuditFound(f, v2) == Ok(Audited(Rejected(f, a), Accepted(f, a), f))
  {
  }

  /** One checking loop: each element goes to `verified` or `hallucinated`. */
  method CheckElements(es: seq<Element>, a: Allowed, hallucinated0: seq<Element>, verified0: seq<Element>)
    returns (hallucinated: seq<Element>, verified: seq<Element>)
    ensures hallucinated == hallucinated0 + Hallucinated(es, a)
    ensures verified == verified0 + Verified(es, a)
  {
    ghost var marks := Verdicts(es, a);
    hallucinated, verified := hallucinated0, verified0;
    var i := 0;
    while i < |es|
      invariant 0 <= i <= |es|
      invariant hallucinated == hallucinated0 + Pick(es[..i], marks[..i], false)
      invariant verified == verified0 + Pick(es[..i], marks[..i], true)
    {
      var ok := ElementInAllowed(es[i], a);
      RouteStep(es, marks, i, ok, hallucinated0, verified0, hallucinated, verified);
      if ok {
        verified := verified + [es[i]];
      } else {
        hallucinated := hallucinated + [es[i]];
      }
      i := i + 1;
    }
    assert es[..|es|] == es && marks[..|es|] == marks;
  }

  /** One step of the checking loop: the element goes to the list its mark names. */
  lemma RouteStep<T>(xs: seq<T>, marks: seq<bool>, i: nat, ok: bool, h0: seq<T>, v0: seq<T>, h: seq<T>, v: seq<T>)
    requires |xs| == |marks| && i < |xs| && ok == marks[i]
    requires h == h0 + Pick(xs[..i], marks[..i], false) && v == v0 + Pick(xs[..i], marks[..i], true)
    ensures (if ok then h else h + [xs[i]]) == h0 + Pick(xs[..i + 1], marks[..i + 1], false)
    ensures (if ok then v + [xs[i]] else v) == v0 + Pick(xs[..i + 1], marks[..i + 1], true)
  {
    assert xs[..i + 1][..i] == xs[..i] && marks[..i + 1][..i] == marks[..i];
  }

  method ElementInAllowed(e: Element, a: Allowed) returns (ok: bool)
    ensures ok == ElementAllowed(e, a)
  {
    match e
      case PercentEl(p) => ok := PercentInAllowed(p, a.percents);
      case CurrencyEl(c) => ok := c in a.currency;
      case DateEl(d) => ok := DateInAllowed(d, a.dates);
      case NumberEl(x) => ok := NumberInAllowed(x, a.numbers);
  }

  // ---------------------------------------------------------------------------
  // Properties

  /** Without an audit index (missing or empty) the audit fails, whatever the text. */
  lemma NoIndexFails(text: string, v2: Json)
    requires v2.JObj? && !Truthy(GetOr(v2, "audit_index", EmptyObj).value)
    ensures AuditOf(text, v2) == Ok(NoIndex) && AuditAsWritten(text, v2) == Ok(NoIndex)
    ensures !Passed(AuditOf(text, v2).value)
  {
  }

  /** Nothing is hallucinated exactly when every element is allowed. */
  lemma HallucinatedEmptyIff(es: seq<Element>, a: Allowed)
    ensures Hallucinated(es, a) == [] <==> forall k :: 0 <= k < |es| ==> ElementAllowed(es[k], a)
  {
    PickEmptyIff(es, Verdicts(es, a), false);
  }

  /** Every found element lands in exactly one of the two lists, the one its verdict names. */
  lemma EveryElementCounted(es: seq<Element>, a: Allowed)
    ensures |Hallucinated(es, a)| + |Verified(es, a)| == |es|
    ensures forall k :: 0 <= k < |es| && !ElementAllowed(es[k], a) ==> es[k] in Hallucinated(es, a)
    ensures forall k :: 0 <= k < |es| && ElementAllowed(es[k], a) ==> es[k] in Verified(es, a)
  {
    var marks := Verdicts(es, a);
    PickCount(es, marks);
    forall k | 0 <= k < |es|
      ensures es[k] in Pick(es, marks, marks[k])
    {
      PickComplete(es, marks, k);
    }
  }

  /** Only disallowed elements are hallucinated. */
  lemma HallucinatedSound(es: seq<Element>, a: Allowed, e: Element)
    requires e in Hallucinated(es, a)
    ensures e in es && !ElementAllowed(e, a)
  {
    PickSound(es, Verdicts(es, a), false, e);
  }

  /** Only allowed elements are verified. */
  lemma VerifiedSound(es: seq<Element>, a: Allowed, e: Element)
    requires e in Verified(es, a)
    ensures e in es && ElementAllowed(e, a)
  {
    PickSound(es, Verdicts(es, a), true, e);
  }

  /** The audit passes exactly when every percentage, currency amount, date and number
      it found is allowed. */
  lemma PassedIff(f: Found, a: Allowed)
    ensures Rejected(f, a) == [] <==>
      (forall k :: 0 <= k < |f.percentages| ==> PercentAllowed(f.percentages[k], a.percents)) &&
      (forall k :: 0 <= k < |f.currency| ==> f.currency[k] in a.currency) &&
      (forall k :: 0 <= k < |f.dates| ==> DateAllowed(f.dates[k], a.dates)) &&
      (forall k :: 0 <= k < |f.numbers| ==> NumberAllowed(f.numbers[k], a.numbers))
  {
    HallucinatedEmptyIff(PercentEls(f.percentages), a);
    HallucinatedEmptyIff(CurrencyEls(f.currency), a);
    HallucinatedEmptyIff(DateEls(f.dates), a);
    HallucinatedEmptyIff(NumberEls(f.numbers), a);
  }

  /** With every allowed string a number, a percentage passes exactly when it is listed
      or near a listed one. */
  lemma PercentAllowedIff(p: string, allowed: seq<string>)
    requires forall k :: 0 <= k < |allowed| ==> PercentValue(allowed[k]).Some?
    ensures PercentAllowed(p, allowed) <==>
      p in allowed || (PercentValue(p).Some? && exists k :: 0 <= k < |allowed| && Near(PercentValue(p).value, StartsWith(p, "-"), ReadingOf(allowed[k])))
  {
    if PercentValue(p).Some? {
      var rs := Readings(allowed);
      PercentScanIff(PercentValue(p).value, StartsWith(p, "-"), rs);
    }
  }

  // ---------------------------------------------------------------------------
  // The date extraction

  lemma MonthNamesShort(name: string)
    requires name in MonthNames
    ensures |name| <= 9
  {
  }

  /** As written, a month name only passes against an index entry of its own length, and
      no written date (`"May 1, 2025"` has 11 characters) or ISO date is that short. */
  lemma MonthNameRejected(name: string, allowed: seq<string>)
    requires name in MonthNames
    requires forall k :: 0 <= k < |allowed| ==> |allowed[k]| >= 10
    ensures !DateAllowed(name, allowed)
  {
    MonthNamesShort(name);
  }

  /** As written, every date the text mentions is hallucinated against an index of
      full dates. */
  lemma AsWrittenFlagsEveryDate(text: string, a: Allowed)
    requires forall k :: 0 <= k < |a.dates| ==> |a.dates[k]| >= 10
    ensures forall k :: 0 <= k < |DateGroups(text)| ==>
      DateEl(DateGroups(text)[k]) in Rejected(FoundAsWritten(text), a)
  {
    var f := FoundAsWritten(text);
    var es := DateEls(f.dates);
    EveryElementCounted(es, a);
    forall k | 0 <= k < |DateGroups(text)|
      ensures DateEl(DateGroups(text)[k]) in Rejected(f, a)
    {
      MonthNameRejected(DateGroups(text)[k], a.dates);
      assert es[k] == DateEl(DateGroups(text)[k]);
    }
  }

  /** As written, a lone written date never passes an index of full dates; corrected, it
      passes when the index lists it. */
  lemma WrittenDateAudit(m: nat, ds: string, ys: string, a: Allowed)
    requires m < 12 && 1 <= |ds| <= 2 && AllDigits(ds) && |ys| == 4 && AllDigits(ys)
    requires forall k :: 0 <= k < |a.dates| ==> |a.dates[k]| >= 10
    requires MonthNames[m] + " " + ds + ", " + ys in a.dates
    ensures DateGroups(MonthNames[m] + " " + ds + ", " + ys) == [MonthNames[m]]
    ensures !DateAllowed(MonthNames[m], a.dates)
    ensures ExtractDates(MonthNames[m] + " " + ds + ", " + ys) == [MonthNames[m] + " " + ds + ", " + ys]
    ensures DateAllowed(MonthNames[m] + " " + ds + ", " + ys, a.dates)
  {
    WrittenDateGroup(m, ds, ys);
    MonthNameRejected(MonthNames[m], a.dates);
    WrittenDateExtracted(m, ds, ys);
    assert ExtractDates(MonthNames[m] + " " + ds + ", " + ys) == [MonthNames[m] + " " + ds + ", " + ys];
  }

  /** Corrected, every date the text mentions passes when the index lists it. */
  lemma IndexedDatesPass(text: string, a: Allowed)
    requires forall k :: 0 <= k < |ExtractDates(text)| ==> ExtractDates(text)[k] in a.dates
    ensures forall k :: 0 <= k < |ExtractDates(text)| ==> ElementAllowed(DateEl(ExtractDates(text)[k]), a)
  {
  }
}
