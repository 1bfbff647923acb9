// reports/exec_summary_policy.py: what an executive summary may be built from, how a
// skeleton summary is graded, and which data points it carries.
module ExecSummaryPolicy {
  import opened Wrappers
  import opened Text
  import opened Json
  import opened Patterns
  import opened Dates

  // ---------------------------------------------------------------------------
  // The contract on the metrics document

  /** How much of the optional data is there: three, two, one or none of volatility,
      drawdown and concentration. */
  datatype Sufficiency = Complete | Good | Basic | Minimal

  /** The validation dictionary; its `valid` and `has_price_metrics` entries are always
      True and are not repeated here. */
  datatype Validation = Validation(
    ticker: Json,
    asOfDate: Json,
    hasInstitutional: bool,
    hasVolatility: bool,
    hasDrawdown: bool,
    hasConcentration: bool,
    sufficiency: Sufficiency)

  const RequiredFields: seq<string> := ["ticker", "as_of_date", "price_metrics"]

  /** The number of true flags. */
  function Count(bs: seq<bool>): (n: nat)
    ensures n <= |bs|
    ensures n == 0 <==> forall k :: 0 <= k < |bs| ==> !bs[k]
    ensures n == |bs| <==> forall k :: 0 <= k < |bs| ==> bs[k]
  {
    if bs == [] then 0
    else
      var n := Count(bs[1..]);
      assert forall k :: 1 <= k < |bs| ==> bs[k] == bs[1..][k - 1];
      (if bs[0] then 1 else 0) + n
  }

  function SufficiencyOf(n: nat): Sufficiency
  {
    if n >= 3 then Complete else if n >= 2 then Good else if n >= 1 then Basic else Minimal
  }

  /** The first of `fields` the dictionary lacks. */
  function MissingField(metrics: Json, fields: seq<string>): (r: Option<string>)
    ensures r.None? <==> forall k :: 0 <= k < |fields| ==> Has(metrics, fields[k])
    ensures r.Some? ==> r.value in fields && !Has(metrics, r.value)
  {
    if fields == [] then None
    else if !Has(metrics, fields[0]) then Some(fields[0])
    else
      var r := MissingField(metrics, fields[1..]);
      assert forall k :: 1 <= k < |fields| ==> fields[k] == fields[1..][k - 1];
      r
  }

  /** `any(v is not None for v in d.values())`; `.values()` raises on anything but a
      dictionary. */
  function AnyValuePresent(d: Json): (r: Result<bool>)
    ensures r.Ok? <==> d.JObj?
    ensures r.Ok? ==> (r.value <==> exists k :: 0 <= k < |d.fields| && d.fields[k].1 != JNull)
  {
    if !d.JObj? then Err("'values' of a value that is not a dictionary")
    else Ok(exists k :: 0 <= k < |d.fields| && d.fields[k].1 != JNull)
  }

  /** `j.get(key, default)` where `j` is a dictionary, and `default` elsewhere. */
  function Sub(j: Json, key: string, default: Json): (v: Json)
    ensures !Has(j, key) ==> v == default
    ensures j.JObj? ==> GetOr(j, key, default) == Ok(v)
  {
    if j.JObj? then GetOr(j, key, default).value else default
  }

  /** A dictionary holding at least one value that is not `None`. */
  predicate SomeValue(d: Json)
  {
    d.JObj? && exists k :: 0 <= k < |d.fields| && d.fields[k].1 != JNull
  }

  /** `validate_exec_summary_contract` on a dictionary: refused exactly when a required
      field is missing or a lookup meets a value that is not a dictionary; otherwise each
      flag says whether its data is present. */
  function ValidateContract(metrics: Json): (r: Result<Validation>)
    requires metrics.JObj?
    ensures MissingField(metrics, RequiredFields).Some? ==> r.Err?
    ensures var price := Sub(metrics, "price_metrics", JNull);
      var inst := Sub(metrics, "institutional_metrics", JNull);
      r.Err? <==>
        || MissingField(metrics, RequiredFields).Some?
        || !price.JObj? || !Sub(price, "volatility", EmptyObj).JObj? || !Sub(price, "drawdown", EmptyObj).JObj?
        || (Truthy(inst) && (!inst.JObj? || !Sub(inst, "concentration", EmptyObj).JObj?))
    ensures r.Ok? ==> r.value.sufficiency == SufficiencyOf(Count([r.value.hasVolatility, r.value.hasDrawdown, r.value.hasConcentration]))
    ensures r.Ok? && r.value.hasConcentration ==> r.value.hasInstitutional
  {
    var missing := MissingField(metrics, RequiredFields);
    if missing.Some? then Err("Missing required field: " + missing.value)
    else
      var ticker := Get(metrics, "ticker").value;
      var asOf := Get(metrics, "as_of_date").value;
      var price := Get(metrics, "price_metrics").value;
      var institutional := Get(metrics, "institutional_metrics").value;
      var volatility :- GetOr(price, "volatility", EmptyObj);
      var hasVolatility :- AnyValuePresent(volatility);
      var drawdown := GetOr(price, "drawdown", EmptyObj).value;
      var maxDrawdown :- Get(drawdown, "max_drawdown_pct");
      var hasConcentration :- if Truthy(institutional) then ConcentrationPresent(institutional) else Ok(false);
      var flags := [hasVolatility, maxDrawdown != JNull, hasConcentration];
      Ok(Validation(ticker, asOf, institutional != JNull, hasVolatility, maxDrawdown != JNull, hasConcentration, SufficiencyOf(Count(flags))))
  }

  /** Each flag of an accepted document says whether its data is present: a non-`None`
      institutional section, a volatility or concentration dictionary with a value that is not
      `None`, a maximum drawdown that is not `None`. */
  lemma ValidationFlags(metrics: Json)
    requires metrics.JObj? && ValidateContract(metrics).Ok?
    ensures var v := ValidateContract(metrics).value;
      var price := Sub(metrics, "price_metrics", JNull);
      var inst := Sub(metrics, "institutional_metrics", JNull);
      && v.ticker == Sub(metrics, "ticker", JNull)
      && v.asOfDate == Sub(metrics, "as_of_date", JNull)
      && (v.hasInstitutional <==> inst != JNull)
      && (v.hasVolatility <==> SomeValue(Sub(price, "volatility", EmptyObj)))
      && (v.hasDrawdown <==> Sub(Sub(price, "drawdown", EmptyObj), "max_drawdown_pct", JNull) != JNull)
      && (v.hasConcentration <==> Truthy(inst) && SomeValue(Sub(inst, "concentration", EmptyObj)))
  {
  }

  function ConcentrationPresent(institutional: Json): Result<bool>
  {
    var concentration :- GetOr(institutional, "concentration", EmptyObj);
    AnyValuePresent(concentration)
  }

  /** `validate_exec_summary_contract`: the loop over the required fields, then the
      availability flags. */
  method ValidateExecSummaryContract(metrics: Json) returns (r: Result<Validation>)
    requires metrics.JObj?
    ensures r == ValidateContract(metrics)
  {
    var i := 0;
    while i < |RequiredFields|
      invariant 0 <= i <= |RequiredFields|
      invariant forall k :: 0 <= k < i ==> Has(metrics, RequiredFields[k])
    {
      if !Has(metrics, RequiredFields[i]) {
        assert MissingField(metrics, RequiredFields) == Some(RequiredFields[i]) by {
          FirstMissing(metrics, RequiredFields, i);
        }
        return Err("Missing required field: " + RequiredFields[i]);
      }
      i := i + 1;
    }
    r := ValidateContract(metrics);
  }

  /** The field the loop stops at is the first one missing. */
  lemma {:induction false} FirstMissing(metrics: Json, fields: seq<string>, i: nat)
    requires i < |fields| && !Has(metrics, fields[i])
    requires forall k :: 0 <= k < i ==> Has(metrics, fields[k])
    ensures MissingField(metrics, fields) == Some(fields[i])
  {
    if i > 0 {
      assert Has(metrics, fields[0]);
      assert fields[1..][i - 1] == fields[i];
      assert forall k :: 0 <= k < i - 1 ==> fields[1..][k] == fields[k + 1];
      FirstMissing(metrics, fields[1..], i - 1);
    }
  }

  /** A document lacking `ticker`, `as_of_date` or `price_metrics` is refused, naming
      the first one missing. */
  lemma MissingFieldRefused(metrics: Json, i: nat)
    requires metrics.JObj? && i < 3 && !Has(metrics, RequiredFields[i])
    requires forall k :: 0 <= k < i ==> Has(metrics, RequiredFields[k])
    ensures ValidateContract(metrics) == Err("Missing required field: " + RequiredFields[i])
  {
    FirstMissing(metrics, RequiredFields, i);
  }

  /** The sufficiency level names how many of the three kinds of data are present. */
  lemma SufficiencyCounts(volatility: bool, drawdown: bool, concentration: bool)
    ensures var level := SufficiencyOf(Count([volatility, drawdown, concentration]));
      (level == Complete <==> volatility && drawdown && concentration) &&
      (level == Minimal <==> !volatility && !drawdown && !concentration) &&
      (level == Good <==> Count([volatility, drawdown, concentration]) == 2) &&
      (level == Basic <==> Count([volatility, drawdown, concentration]) == 1)
  {
  }

  // ---------------------------------------------------------------------------
  // Grading a skeleton

  const ProhibitedWords: seq<string> :=
    ["will", "should", "expect", "likely", "probably", "may", "might", "could", "target", "forecast"]

  /** The loop collecting `speculative_words`: each prohibited word found in `lower`. */
  method SpeculativeWords(lower: string) returns (found: seq<string>)
    ensures found == Occurring(ProhibitedWords, lower)
  {
    found := CollectOccurring(ProhibitedWords, lower);
  }

  datatype Quality = Quality(
    wordCount: nat,
    wordCountValid: bool,
    hasPercentages: bool,
    hasDates: bool,
    hasWindows: bool,
    mentionsVolatility: bool,
    mentionsDrawdown: bool,
    mentionsConcentration: bool,
    speculativeWords: seq<string>,
    qualityScore: real,
    passesPolicy: bool)

  /** `str(year) in skeleton` for some year from 2020 to 2029. */
  predicate HasYear(s: string)
  {
    exists y: nat :: 2020 <= y < 2030 && Contains(s, NatToString(y))
  }

  /** The six graded checks, in the order of `quality_checks`. */
  function Checks(q: Quality): seq<bool>
  {
    [q.wordCountValid, q.hasPercentages, q.hasDates, q.mentionsVolatility, q.mentionsDrawdown, q.speculativeWords == []]
  }

  /** `validate_skeleton_quality`. */
  function SkeletonQuality(skeleton: string): (q: Quality)
    ensures q.wordCountValid <==> 120 <= q.wordCount <= 180
    ensures q.qualityScore == Count(Checks(q)) as real / 6.0
  {
    var n := WordCount(skeleton);
    var lower := Lower(skeleton);
    var q := Quality(n, 120 <= n <= 180, '%' in skeleton, HasYear(skeleton), '(' in skeleton && ')' in skeleton,
      MentionsVolatility(lower),
      Contains(lower, "drawdown") || Contains(lower, "decline"),
      Contains(lower, "concentration"),
      Occurring(ProhibitedWords, lower), 0.0, false);
    var score := Count(Checks(q)) as real / 6.0;
    q.(qualityScore := score, passesPolicy := score >= 0.8)
  }

  /** What each check of `validate_skeleton_quality` reads in the skeleton: a percent sign, a
      year of the 2020s, both parentheses, "vol", "drawdown" or "decline", "concentration",
      and the prohibited words found anywhere in the lower-cased text. */
  lemma SkeletonQualityChecks(skeleton: string)
    ensures var q := SkeletonQuality(skeleton);
      var lower := Lower(skeleton);
      && q.wordCount == WordCount(skeleton)
      && (q.passesPolicy <==> q.qualityScore >= 0.8)
      && (q.hasPercentages <==> '%' in skeleton)
      && (q.hasDates <==> HasYear(skeleton))
      && (q.hasWindows <==> '(' in skeleton && ')' in skeleton)
      && (q.mentionsVolatility <==> Contains(lower, "vol"))
      && (q.mentionsDrawdown <==> Contains(lower, "drawdown") || Contains(lower, "decline"))
      && (q.mentionsConcentration <==> Contains(lower, "concentration"))
      && q.speculativeWords == Occurring(ProhibitedWords, lower)
  {
    VolatilityMentionIsVol(Lower(skeleton));
  }

  /** The skeleton passes when at most one of the six checks fails. */
  lemma PassesIffAtMostOneFails(skeleton: string)
    ensures var q := SkeletonQuality(skeleton);
      q.passesPolicy <==> Count(Checks(q)) >= 5
  {
    var q := SkeletonQuality(skeleton);
    var n := Count(Checks(q));
    if n >= 5 {
      assert n as real / 6.0 >= 5.0 / 6.0;
    } else {
      assert n as real <= 4.0;
    }
  }

  /** `'volatility' in lower or 'vol' in lower`. */
  predicate MentionsVolatility(lower: string)
  {
    Contains(lower, "volatility") || Contains(lower, "vol")
  }

  /** "volatility" contains "vol": the second test alone decides the mention. */
  lemma VolatilityMentionIsVol(lower: string)
    ensures MentionsVolatility(lower) <==> Contains(lower, "vol")
  {
    if Contains(lower, "volatility") {
      assert "vol" + "atility" == "volatility";
      ContainsPrefix(lower, "vol", "atility");
    }
  }

  /** A prohibited word inside another word counts: "mayor" fails the check. */
  lemma SubstringIsSpeculative(lower: string)
    requires Contains(lower, "may")
    ensures "may" in Occurring(ProhibitedWords, lower)
  {
    assert ProhibitedWords[5] == "may";
  }

  // ---------------------------------------------------------------------------
  // Data points of a skeleton

  datatype DataElements = DataElements(
    percentages: seq<string>,
    dates: seq<string>,
    currency: seq<string>,
    windows: seq<string>,
    totalDataPoints: nat)

  /** `extract_data_elements_from_skeleton` given what its date loop collects. */
  function ElementsWithDates(skeleton: string, dates: seq<string>): (r: DataElements)
    ensures r.totalDataPoints == |r.percentages| + |r.dates| + |r.currency| + |r.windows|
  {
    var percentages := FindAll(SignedPercent, skeleton);
    var currency := FindAll(Currency, skeleton);
    var windows := FindAll(Window, skeleton);
    DataElements(percentages, dates, currency, windows, |percentages| + |dates| + |currency| + |windows|)
  }

  /** `extract_data_elements_from_skeleton`: the long-date pattern has a capturing group,
      so its matches enter `dates` as month names, followed by the ISO dates. */
  function ExtractDataElements(skeleton: string): (r: DataElements)
    ensures r.percentages == FindAll(SignedPercent, skeleton) && r.currency == FindAll(Currency, skeleton)
    ensures r.windows == FindAll(Window, skeleton)
    ensures r.dates == MonthGroups(skeleton) + FindAll(IsoDate, skeleton)
    ensures r.totalDataPoints == |r.percentages| + |r.dates| + |r.currency| + |r.windows|
  {
    ElementsWithDates(skeleton, MonthGroups(skeleton) + FindAll(IsoDate, skeleton))
  }

  /** As intended: the whole written dates, then the ISO dates. */
  function DataElementsCorrected(skeleton: string): DataElements
  {
    ElementsWithDates(skeleton, FindAll(LongDate(false), skeleton) + FindAll(IsoDate, skeleton))
  }

  /** The group only changes what `dates` holds: the count is the same, and each listed
      month name begins the date it stands for. */
  lemma AsWrittenCountsEveryDate(skeleton: string)
    ensures ExtractDataElements(skeleton).totalDataPoints == DataElementsCorrected(skeleton).totalDataPoints
    ensures var w := ExtractDataElements(skeleton).dates;
      var c := DataElementsCorrected(skeleton).dates;
      |w| == |c| && forall k :: 0 <= k < |w| ==> StartsWith(c[k], w[k])
  {
    MonthGroupsOfDates(skeleton);
    var groups := MonthGroups(skeleton);
    var full := FindAll(LongDate(false), skeleton);
    var iso := FindAll(IsoDate, skeleton);
    forall k | 0 <= k < |groups + iso|
      ensures StartsWith((full + iso)[k], (groups + iso)[k])
    {
      if k < |groups| {
        assert (full + iso)[k] == full[k] && (groups + iso)[k] == groups[k];
      } else {
        assert (full + iso)[k] == (groups + iso)[k];
      }
    }
  }

  /** A lone written date is listed as its month name as written, and whole as intended. */
  lemma WrittenDateListed(m: nat, ds: string, ys: string)
    requires m < 12 && 1 <= |ds| <= 2 && AllDigits(ds) && |ys| == 4 && AllDigits(ys)
    ensures var w := MonthNames[m] + " " + ds + ", " + ys;
      MonthGroups(w) == [MonthNames[m]] && FindAll(LongDate(false), w) == [w]
  {
    WrittenDateGroup(m, ds, ys);
    WrittenDateExtracted(m, ds, ys);
  }
}
