// Where a report is stored: the ticker directory name, the timestamped file names
// `YYYY-MM-DD_HHMMSS_report.md` / `_metrics.json`, the `latest.md` pointer, and
// reading the timestamp back out of a report file name. Paths are lists of
// components; the time zone attached to a naive timestamp does not change its
// wall-clock fields, which are all the file name uses.
module PathPolicy {
  import opened Wrappers
  import opened Text
  import opened Dates

  const MaxTickerLength := 20

  /** `[A-Z0-9_]`: the characters a ticker directory keeps. */
  predicate SafeChar(c: char) { IsUpper(c) || IsDigit(c) || c == '_' }

  /** `[<>:"/\\|?*]`: the characters the second check looks for. */
  const ForbiddenChars := "<>:\"/\\|?*"

  /** `re.sub(r'[^A-Z0-9_]', '_', ticker.upper())`. */
  function Substitute(ticker: string): (r: string)
    ensures |r| == |ticker|
    ensures forall i :: 0 <= i < |ticker| ==> SafeChar(r[i])
    ensures forall i :: 0 <= i < |ticker| ==>
      r[i] == (if SafeChar(ToUpper(ticker[i])) then ToUpper(ticker[i]) else '_')
  {
    seq(|ticker|, i requires 0 <= i < |ticker| =>
      var u := ToUpper(ticker[i]);
      if SafeChar(u) then u else '_')
  }

  /** The check for forbidden characters after the substitution cannot fire. */
  lemma SubstitutedHasNoForbiddenChar(ticker: string)
    ensures forall i :: 0 <= i < |ticker| ==> Substitute(ticker)[i] !in ForbiddenChars
  {
    forall i | 0 <= i < |ticker|
      ensures Substitute(ticker)[i] !in ForbiddenChars
    {
      var c := Substitute(ticker)[i];
      assert SafeChar(c);
      assert forall k :: 0 <= k < |ForbiddenChars| ==> !SafeChar(ForbiddenChars[k]);
    }
  }

  /** _normalize_ticker. */
  function NormalizeTicker(ticker: string): (r: Result<string>)
    ensures r.Ok? <==> 1 <= |ticker| <= MaxTickerLength
    ensures r.Ok? ==> r.value == Substitute(ticker)
  {
    if ticker == [] then Err("Ticker cannot be empty")
    else if |ticker| > MaxTickerLength then Err("Ticker too long (max 20 chars)")
    else
      var normalized := Substitute(ticker);
      SubstitutedHasNoForbiddenChar(ticker);
      if exists i :: 0 <= i < |normalized| && normalized[i] in ForbiddenChars then
        Err("Invalid characters in ticker")
      else Ok(normalized)
  }

  /** A normalised ticker is its own normalisation, and a usable directory name:
      non-empty, at most 20 characters, only `[A-Z0-9_]`. */
  lemma NormalizeTickerIdempotent(ticker: string)
    requires NormalizeTicker(ticker).Ok?
    ensures var n := NormalizeTicker(ticker).value;
      1 <= |n| <= MaxTickerLength && (forall i :: 0 <= i < |n| ==> SafeChar(n[i])) &&
      NormalizeTicker(n) == Ok(n)
  {
    var n := NormalizeTicker(ticker).value;
    assert forall i :: 0 <= i < |n| ==> ToUpper(n[i]) == n[i];
    assert Substitute(n) == n;
  }

  // ---------------------------------------------------------------------------
  // The timestamp in file names
  // ---------------------------------------------------------------------------

  /** `%Y` as the C library prints it: the year without padding. */
  function YearText(y: int): string
    requires y >= 1
  {
    NatToString(y)
  }

  /** `strftime('%Y-%m-%d_%H%M%S')`. */
  function TimeStr(t: DateTime): string
    requires ValidTime(t)
  {
    YearText(t.date.year) + "-" + ZeroPad(t.date.month, 2) + "-" + ZeroPad(t.date.day, 2) + "_" +
      ZeroPad(t.hour, 2) + ZeroPad(t.minute, 2) + ZeroPad(t.second, 2)
  }

  const ReportSuffix := "_report.md"
  const MetricsSuffix := "_metrics.json"
  const LatestName := "latest.md"

  function ReportFileName(t: DateTime): string
    requires ValidTime(t)
  {
    TimeStr(t) + ReportSuffix
  }

  /** The paths create_report_paths returns; a path is its list of components. */
  datatype ReportPaths = ReportPaths(
    reportPath: seq<string>, latestPath: seq<string>, metricsPath: seq<string>,
    tickerDir: seq<string>, timestampStr: string)

  /** create_report_paths: every file sits in `base_dir/<normalised ticker>`; the
      report file name reads back as the timestamp whenever the year has four
      digits. */
  function CreateReportPaths(ticker: string, t: DateTime, baseDir: seq<string>): (r: Result<ReportPaths>)
    requires ValidTime(t)
    ensures r.Ok? <==> NormalizeTicker(ticker).Ok?
    ensures r.Ok? ==>
      var p := r.value;
      p.tickerDir == baseDir + [NormalizeTicker(ticker).value] &&
      p.reportPath == p.tickerDir + [p.timestampStr + ReportSuffix] &&
      p.metricsPath == p.tickerDir + [p.timestampStr + MetricsSuffix] &&
      p.latestPath == p.tickerDir + [LatestName] &&
      (t.date.year >= 1000 ==> ParseTimestampFromFilename(p.reportPath[|p.reportPath| - 1]) == Ok(t))
  {
    var normalized :- NormalizeTicker(ticker);
    var timeStr := TimeStr(t);
    var tickerDir := baseDir + [normalized];
    assert t.date.year >= 1000 ==> ParseTimestampFromFilename(timeStr + ReportSuffix) == Ok(t) by {
      if t.date.year >= 1000 { FileNameRoundTrip(t); }
    }
    Ok(ReportPaths(tickerDir + [timeStr + ReportSuffix], tickerDir + [LatestName],
      tickerDir + [timeStr + MetricsSuffix], tickerDir, timeStr))
  }

  /** `^(\d{4})-(\d{2})-(\d{2})_(\d{2})(\d{2})(\d{2})_report\.md`, all of `g`. */
  predicate FileNameShape(g: string)
  {
    |g| == 27 && AllDigits(g[..4]) && g[4] == '-' && AllDigits(g[5..7]) && g[7] == '-' &&
    AllDigits(g[8..10]) && g[10] == '_' && AllDigits(g[11..13]) && AllDigits(g[13..15]) &&
    AllDigits(g[15..17]) && g[17..] == ReportSuffix
  }

  /** What `$` lets through: the name, or the name followed by one newline. */
  function MatchedPart(f: string): string
  {
    if |f| == 28 && f[27] == '\n' then f[..27] else f
  }

  /** parse_timestamp_from_filename: the pattern must match and the fields must
      make a valid `datetime`. */
  function ParseTimestampFromFilename(f: string): (r: Result<DateTime>)
    ensures r.Ok? ==> ValidTime(r.value) && FileNameShape(MatchedPart(f))
  {
    var g := MatchedPart(f);
    if !FileNameShape(g) then Err("Invalid filename format")
    else
      var t := DateTime(Date(DigitsValue(g[..4]), DigitsValue(g[5..7]), DigitsValue(g[8..10])),
        DigitsValue(g[11..13]), DigitsValue(g[13..15]), DigitsValue(g[15..17]));
      if ValidTime(t) then Ok(t) else Err("Invalid date/time in filename")
  }

  /** validate_report_filename. */
  predicate IsReportFileName(f: string)
  {
    ParseTimestampFromFilename(f).Ok?
  }

  /** The four-digit year prints as its zero-padded form. */
  lemma YearTextIsPadded(y: int)
    requires 1000 <= y <= 9999
    ensures YearText(y) == ZeroPad(y, 4) && |YearText(y)| == 4
  {
    assert Pow10(3) == 1000 && Pow10(4) == 10000;
    NatToStringLengthAtLeast(y, 4);
    ZeroPadWidth(y, 4);
  }

  /** The report file name, split at its fixed-width fields. */
  lemma FileNameParts(t: DateTime)
    requires ValidTime(t) && t.date.year >= 1000
    ensures var f := ReportFileName(t);
      |f| == 27 &&
      f[..4] == ZeroPad(t.date.year, 4) && f[4] == '-' && f[5..7] == ZeroPad(t.date.month, 2) && f[7] == '-' &&
      f[8..10] == ZeroPad(t.date.day, 2) && f[10] == '_' && f[11..13] == ZeroPad(t.hour, 2) &&
      f[13..15] == ZeroPad(t.minute, 2) && f[15..17] == ZeroPad(t.second, 2) && f[17..] == ReportSuffix
  {
    YearTextIsPadded(t.date.year);
    ZeroPadWidth(t.date.month, 2);
    ZeroPadWidth(t.date.day, 2);
    ZeroPadWidth(t.hour, 2);
    ZeroPadWidth(t.minute, 2);
    ZeroPadWidth(t.second, 2);
  }

  /** Reading back the report file name of a timestamp gives the timestamp, to the
      second. */
  lemma FileNameRoundTrip(t: DateTime)
    requires ValidTime(t) && t.date.year >= 1000
    ensures ParseTimestampFromFilename(ReportFileName(t)) == Ok(t)
  {
    FileNameParts(t);
    ZeroPadValue(t.date.year, 4);
    ZeroPadValue(t.date.month, 2);
    ZeroPadValue(t.date.day, 2);
    ZeroPadValue(t.hour, 2);
    ZeroPadValue(t.minute, 2);
    ZeroPadValue(t.second, 2);
  }

  /** The other direction: a report file name that parses to a four-digit year is
      the name the timestamp is printed as. */
  lemma ParsedFileNameRoundTrip(f: string)
    requires |f| == 27 && ParseTimestampFromFilename(f).Ok?
    requires ParseTimestampFromFilename(f).value.date.year >= 1000
    ensures ReportFileName(ParseTimestampFromFilename(f).value) == f
  {
    var t := ParseTimestampFromFilename(f).value;
    assert MatchedPart(f) == f;
    YearTextIsPadded(t.date.year);
    ZeroPadOfDigits(f[..4]);
    ZeroPadOfDigits(f[5..7]);
    ZeroPadOfDigits(f[8..10]);
    ZeroPadOfDigits(f[11..13]);
    ZeroPadOfDigits(f[13..15]);
    ZeroPadOfDigits(f[15..17]);
    ShapeParts(f);
  }

  /** A name of the report shape is its fields joined by the separators. */
  lemma ShapeParts(g: string)
    requires FileNameShape(g)
    ensures g == g[..4] + "-" + g[5..7] + "-" + g[8..10] + "_" + g[11..13] + g[13..15] + g[15..17] + ReportSuffix
  {
    var h := g[..4] + "-" + g[5..7] + "-" + g[8..10] + "_" + g[11..13] + g[13..15] + g[15..17] + ReportSuffix;
    assert |h| == 27;
    forall i | 0 <= i < 27 ensures h[i] == g[i] {
      if i < 17 {
        assert h[i] == g[i];
      } else {
        assert h[i] == ReportSuffix[i - 17] == g[17..][i - 17];
      }
    }
  }

  /** Two zero-padded fields of one width compare like their numbers. */
  lemma PaddedOrder(x: nat, y: nat, w: nat)
    requires w >= 1 && x < Pow10(w) && y < Pow10(w)
    ensures |ZeroPad(x, w)| == w && |ZeroPad(y, w)| == w
    ensures LexLess(ZeroPad(x, w), ZeroPad(y, w)) <==> x < y
    ensures ZeroPad(x, w) == ZeroPad(y, w) <==> x == y
  {
    ZeroPadWidth(x, w);
    ZeroPadWidth(y, w);
    ZeroPadValue(x, w);
    ZeroPadValue(y, w);
    DigitsLexOrder(ZeroPad(x, w), ZeroPad(y, w));
  }

  /** One field followed by the rest: the field decides unless it is equal. */
  lemma FieldThen(x: nat, y: nat, w: nat, sep: string, a: string, b: string)
    requires w >= 1 && x < Pow10(w) && y < Pow10(w)
    ensures LexLess(ZeroPad(x, w) + sep + a, ZeroPad(y, w) + sep + b) <==> x < y || (x == y && LexLess(a, b))
  {
    PaddedOrder(x, y, w);
    assert ZeroPad(x, w) + sep + a == ZeroPad(x, w) + (sep + a);
    assert ZeroPad(y, w) + sep + b == ZeroPad(y, w) + (sep + b);
    LexLessConcat(ZeroPad(x, w), sep + a, ZeroPad(y, w), sep + b);
    LexLessCommonPrefix(sep, a, b);
  }

  /** The report file name grouped from the right, field by field. */
  function Nested(t: DateTime): string
    requires ValidTime(t)
  {
    ZeroPad(t.date.year, 4) + "-" + (ZeroPad(t.date.month, 2) + "-" + (ZeroPad(t.date.day, 2) + "_" + Clock(t)))
  }

  /** The time-of-day part of the file name, `HHMMSS` and the suffix. */
  function Clock(t: DateTime): string
    requires ValidTime(t)
  {
    ZeroPad(t.hour, 2) + "" + (ZeroPad(t.minute, 2) + "" + (ZeroPad(t.second, 2) + ReportSuffix))
  }

  /** The time-of-day parts compare like the clock times. */
  lemma ClockOrder(s: DateTime, t: DateTime)
    requires ValidTime(s) && ValidTime(t)
    ensures LexLess(Clock(s), Clock(t)) <==>
      s.hour < t.hour || (s.hour == t.hour && (s.minute < t.minute || (s.minute == t.minute && s.second < t.second)))
  {
    var sSec := ZeroPad(s.second, 2) + ReportSuffix;
    var tSec := ZeroPad(t.second, 2) + ReportSuffix;
    var sMin := ZeroPad(s.minute, 2) + "" + sSec;
    var tMin := ZeroPad(t.minute, 2) + "" + tSec;
    FieldThen(s.hour, t.hour, 2, "", sMin, tMin);
    FieldThen(s.minute, t.minute, 2, "", sSec, tSec);
    PaddedOrder(s.second, t.second, 2);
    LexLessConcat(ZeroPad(s.second, 2), ReportSuffix, ZeroPad(t.second, 2), ReportSuffix);
    LexLessIrreflexive(ReportSuffix);
  }

  lemma NestedIsFileName(t: DateTime)
    requires ValidTime(t) && t.date.year >= 1000
    ensures ReportFileName(t) == Nested(t)
  {
    YearTextIsPadded(t.date.year);
  }

  /** Sorting report file names as strings sorts them chronologically. */
  lemma FileNameOrderIsChronological(s: DateTime, t: DateTime)
    requires ValidTime(s) && ValidTime(t) && s.date.year >= 1000 && t.date.year >= 1000
    ensures LexLess(ReportFileName(s), ReportFileName(t)) <==> TimeBefore(s, t)
  {
    NestedIsFileName(s);
    NestedIsFileName(t);
    var sDay := ZeroPad(s.date.day, 2) + "_" + Clock(s);
    var tDay := ZeroPad(t.date.day, 2) + "_" + Clock(t);
    var sMonth := ZeroPad(s.date.month, 2) + "-" + sDay;
    var tMonth := ZeroPad(t.date.month, 2) + "-" + tDay;
    FieldThen(s.date.year, t.date.year, 4, "-", sMonth, tMonth);
    FieldThen(s.date.month, t.date.month, 2, "-", sDay, tDay);
    FieldThen(s.date.day, t.date.day, 2, "_", Clock(s), Clock(t));
    ClockOrder(s, t);
  }

}
