// The regular expressions the report audits scan text with. Each becomes a matcher
// giving the length of the match Python's backtracking engine finds at the start of a
// string, or none; `re.findall` and `re.sub(pattern, '', text)` become the
// left-to-right scan that resumes after each match. No pattern matches the empty
// string. Character classes are ASCII (`\d`, `\s`, `\w`, IGNORECASE folding).
module Patterns {
  import opened Wrappers
  import opened Text
  import opened Dates

  // ---------------------------------------------------------------------------
  // Runs of one character class

  /** The number of leading characters of `s` in the class. */
  function Run(s: string, cls: char -> bool): (n: nat)
    ensures n <= |s|
    ensures forall i :: 0 <= i < n ==> cls(s[i])
    ensures n < |s| ==> !cls(s[n])
  {
    if s == [] || !cls(s[0]) then 0 else 1 + Run(s[1..], cls)
  }

  /** A run that ends inside `s` ends at the same place whatever follows `s`. */
  lemma {:induction false} RunAppend(s: string, t: string, cls: char -> bool)
    requires Run(s, cls) < |s|
    ensures Run(s + t, cls) == Run(s, cls)
  {
    if s != [] && cls(s[0]) {
      assert (s + t)[1..] == s[1..] + t;
      RunAppend(s[1..], t, cls);
    }
  }

  /** Cutting `s` after its run keeps the run. */
  lemma {:induction false} RunTruncate(s: string, m: nat, cls: char -> bool)
    requires Run(s, cls) <= m <= |s|
    ensures Run(s[..m], cls) == Run(s, cls)
  {
    if s != [] && cls(s[0]) && m > 0 {
      assert s[..m][1..] == s[1..][..m - 1];
      RunTruncate(s[1..], m - 1, cls);
    }
  }

  function DigitRun(s: string): (n: nat)
    ensures n <= |s| && AllDigits(s[..n])
    ensures n < |s| ==> !IsDigit(s[n])
  {
    Run(s, IsDigit)
  }

  function SpaceRun(s: string): (n: nat)
    ensures n <= |s|
    ensures n < |s| ==> !IsSpace(s[n])
  {
    Run(s, IsSpace)
  }

  predicate IsNumberChar(c: char) { IsDigit(c) || c == ',' || c == '.' }

  /** `\d+\.?\d*` taken greedily from a string that starts with a digit: its end. */
  function DecimalEnd(s: string): (e: nat)
    requires s != [] && IsDigit(s[0])
    ensures 0 < e <= |s|
  {
    var d := DigitRun(s);
    if d < |s| && s[d] == '.' then d + 1 + DigitRun(s[d + 1..]) else d
  }

  // ---------------------------------------------------------------------------
  // Anchored matchers

  /** `-?\d+\.?\d*%` (signed) or `\d+\.?\d*%`: the digits, point and digits are taken
      greedily and must be followed by `%`; giving digits back never helps, because the
      character after any shorter prefix is a digit or the point. */
  function PercentMatch(signed: bool, s: string): (r: Option<nat>)
    ensures r.Some? ==> 2 <= r.value <= |s| && s[r.value - 1] == '%'
    ensures r.Some? && !signed ==> IsDigit(s[0])
  {
    var k := if signed && s != [] && s[0] == '-' then 1 else 0;
    var t := s[k..];
    if t == [] || !IsDigit(t[0]) then None
    else
      var e := DecimalEnd(t);
      if e < |t| && t[e] == '%' then Some(k + e + 1) else None
  }

  /** `\$\d+\.?\d*[BMK]?`: everything after the first digit is optional, so the greedy
      choice always succeeds. */
  function CurrencyMatch(s: string): (r: Option<nat>)
    ensures r.Some? <==> |s| >= 2 && s[0] == '$' && IsDigit(s[1])
    ensures r.Some? ==> 2 <= r.value <= |s|
  {
    if |s| < 2 || s[0] != '$' || !IsDigit(s[1]) then None
    else
      var e := 1 + DecimalEnd(s[1..]);
      Some(if e < |s| && s[e] in "BMK" then e + 1 else e)
  }

  /** `\d{1,3}(?:,\d{3})*`: a group of one to three digits, then groups of exactly three. */
  predicate DigitGroups(ip: string)
  {
    var gs := SplitOn(ip, ',');
    1 <= |gs[0]| <= 3 && AllDigits(gs[0]) && forall i :: 1 <= i < |gs| ==> |gs[i]| == 3 && AllDigits(gs[i])
  }

  /** `\d{1,3}(?:,\d{3})*(?:\.\d+)?` matching the whole of `r`. */
  predicate GroupedNumber(r: string)
  {
    var parts := SplitOn(r, '.');
    DigitGroups(parts[0]) && (|parts| == 1 || (|parts| == 2 && parts[1] != [] && AllDigits(parts[1])))
  }

  /** `N\s?%` where `N` is the whole run of digits, commas and points at the start of
      `t` and must satisfy `number`: such characters can only be followed by
      whitespace or `%`, so the engine has no other split to try. */
  function NumberPercent(t: string, number: string -> bool): (r: Option<nat>)
    ensures r.Some? ==> 1 <= r.value <= |t| && t[r.value - 1] == '%'
  {
    var n := Run(t, IsNumberChar);
    if !number(t[..n]) then None
    else if n < |t| && t[n] == '%' then Some(n + 1)
    else if n + 1 < |t| && IsSpace(t[n]) && t[n + 1] == '%' then Some(n + 2)
    else None
  }

  function SignLength(s: string): (k: nat)
    ensures k <= |s|
  {
    if s != [] && (s[0] == '-' || s[0] == '+') then 1 else 0
  }

  /** `[-+]?N\s?%`. */
  function PercentShape(s: string, number: string -> bool): (r: Option<nat>)
    ensures r.Some? ==> 1 <= r.value <= |s| && s[r.value - 1] == '%'
  {
    var k := SignLength(s);
    var e := NumberPercent(s[k..], number);
    if e.Some? then Some(k + e.value) else None
  }

  /** `[-+]?\d{1,3}(?:,\d{3})*(?:\.\d+)?\s?%`. */
  function GroupedPercentMatch(s: string): (r: Option<nat>)
    ensures r.Some? ==> 1 <= r.value <= |s| && s[r.value - 1] == '%'
  {
    PercentShape(s, GroupedNumber)
  }

  lemma NumberPercentExtend(t: string, rest: string, number: string -> bool)
    requires NumberPercent(t, number) == Some(|t|)
    ensures NumberPercent(t + rest, number) == Some(|t|)
  {
    var t2 := t + rest;
    var n := Run(t, IsNumberChar);
    assert !IsNumberChar(t[|t| - 1]);
    RunAppend(t, rest, IsNumberChar);
    assert t2[..n] == t[..n];
    assert n < |t| ==> t2[n] == t[n];
    assert n + 1 < |t| ==> t2[n + 1] == t[n + 1];
  }

  /** A percentage that is the whole of `s` is still the match when text follows it. */
  lemma PercentShapeExtend(s: string, rest: string, number: string -> bool)
    requires PercentShape(s, number) == Some(|s|)
    ensures PercentShape(s + rest, number) == Some(|s|)
  {
    var k := SignLength(s);
    assert (s + rest)[0] == s[0];
    assert SignLength(s + rest) == k;
    assert (s + rest)[k..] == s[k..] + rest;
    NumberPercentExtend(s[k..], rest, number);
  }

  lemma NumberPercentWhole(t: string, number: string -> bool)
    requires NumberPercent(t, number).Some?
    ensures NumberPercent(t[..NumberPercent(t, number).value], number) == Some(NumberPercent(t, number).value)
  {
    var m := NumberPercent(t, number).value;
    var t2 := t[..m];
    var n := Run(t, IsNumberChar);
    RunTruncate(t, m, IsNumberChar);
    assert t2[..n] == t[..n];
  }

  /** A match, cut out of its text, matches whole. */
  lemma PercentShapeWhole(s: string, number: string -> bool)
    requires PercentShape(s, number).Some?
    ensures PercentShape(s[..PercentShape(s, number).value], number) == Some(PercentShape(s, number).value)
  {
    var m := PercentShape(s, number).value;
    var k := SignLength(s);
    assert s[..m][0] == s[0];
    assert SignLength(s[..m]) == k;
    assert s[..m][k..] == s[k..][..m - k];
    NumberPercentWhole(s[k..], number);
  }

  /** A percentage holds no letter. */
  lemma PercentShapeNoLetters(s: string, number: string -> bool)
    requires PercentShape(s, number) == Some(|s|)
    ensures forall i :: 0 <= i < |s| ==> !IsAlpha(s[i])
  {
    var k := SignLength(s);
    var t := s[k..];
    var n := Run(t, IsNumberChar);
    forall i | 0 <= i < |s|
      ensures !IsAlpha(s[i])
    {
      if i >= k {
        assert s[i] == t[i - k];
      }
    }
  }

  /** No percentage starts at whitespace. */
  lemma NoGroupedPercentAtSpace(s: string)
    requires s != [] && IsSpace(s[0])
    ensures GroupedPercentMatch(s) == None
  {
    assert Run(s, IsNumberChar) == 0;
    assert SplitOn("", '.') == [""];
    assert SplitOn("", ',') == [""];
  }

  /** `s` starts with `name`, letter case ignored when asked. */
  predicate NameAt(s: string, ignoreCase: bool, name: string)
  {
    |name| <= |s| && (if ignoreCase then Lower(s[..|name|]) == Lower(name) else s[..|name|] == name)
  }

  /** The first month, from index `k` on, whose name starts `s`. */
  function MonthAt(s: string, ignoreCase: bool, k: nat): (r: Option<nat>)
    requires k <= 12
    ensures r.Some? ==> k <= r.value < 12 && NameAt(s, ignoreCase, MonthNames[r.value])
    ensures r.None? ==> forall m :: k <= m < 12 ==> !NameAt(s, ignoreCase, MonthNames[m])
    decreases 12 - k
  {
    if k == 12 then None
    else if NameAt(s, ignoreCase, MonthNames[k]) then Some(k)
    else MonthAt(s, ignoreCase, k + 1)
  }

  /** The parts of a `Month D, YYYY` match: its length, month index (0 for January),
      and the day and year digits. */
  datatype DateToken = DateToken(len: nat, month: nat, day: string, year: string)

  /** `\s+\d{1,2},\s+\d{4}` at the start of `s`: its length, day digits and year digits.
      The whitespace runs are taken whole, the day is one or two digits directly before
      the comma, and the year is the next four digits, whatever follows them. */
  function DayYearScan(s: string): (r: Option<(nat, string, string)>)
    ensures r.Some? ==> 0 < r.value.0 <= |s|
    ensures r.Some? ==> 1 <= |r.value.1| <= 2 && AllDigits(r.value.1)
    ensures r.Some? ==> |r.value.2| == 4 && AllDigits(r.value.2)
  {
    var w := SpaceRun(s);
    var d := DigitRun(s[w..]);
    var c := w + d;
    if w == 0 || d == 0 || d > 2 || c >= |s| || s[c] != ',' then None
    else
      var w2 := SpaceRun(s[c + 1..]);
      var y := c + 1 + w2;
      if w2 == 0 || DigitRun(s[y..]) < 4 then None
      else
        assert s[w..c] == s[w..][..d];
        assert s[y..y + 4] == s[y..][..4];
        Some((y + 4, s[w..c], s[y..y + 4]))
  }

  /** `(?:January|...|December)\s+\d{1,2},\s+\d{4}`; no month name is a prefix of
      another, so at most one alternative can start the match. */
  function LongDateScan(s: string, ignoreCase: bool): (r: Option<DateToken>)
    ensures r.Some? ==> 0 < r.value.len <= |s| && r.value.month < 12
    ensures r.Some? ==> 1 <= |r.value.day| <= 2 && AllDigits(r.value.day)
    ensures r.Some? ==> |r.value.year| == 4 && AllDigits(r.value.year)
    ensures r.Some? ==> NameAt(s, ignoreCase, MonthNames[r.value.month]) && |MonthNames[r.value.month]| < r.value.len
  {
    var m := MonthAt(s, ignoreCase, 0);
    if m.None? then None
    else
      var a := |MonthNames[m.value]|;
      var t := DayYearScan(s[a..]);
      if t.None? then None
      else Some(DateToken(a + t.value.0, m.value, t.value.1, t.value.2))
  }

  /** `\d{4}-\d{2}-\d{2}`. */
  function IsoDateMatch(s: string): (r: Option<nat>)
    ensures r.Some? ==> r.value == 10 <= |s|
  {
    if |s| >= 10 && AllDigits(s[..4]) && s[4] == '-' && AllDigits(s[5..7]) && s[7] == '-' && AllDigits(s[8..10])
    then Some(10) else None
  }

  /** `\(\d+-day\)`. */
  function WindowMatch(s: string): (r: Option<nat>)
    ensures r.Some? ==> 7 <= r.value <= |s| && s[0] == '(' && s[r.value - 1] == ')'
  {
    if s == [] || s[0] != '(' then None
    else
      var d := DigitRun(s[1..]);
      if d >= 1 && 1 + d + 5 <= |s| && s[1 + d..1 + d + 5] == "-day)" then Some(1 + d + 5) else None
  }

  datatype Pattern =
    | GroupedPercent            // [-+]?\d{1,3}(?:,\d{3})*(?:\.\d+)?\s?%
    | SignedPercent             // -?\d+\.?\d*%
    | PlainPercent              // \d+\.?\d*%
    | Currency                  // \$\d+\.?\d*[BMK]?
    | LongDate(ignoreCase: bool) // (?:January|...|December)\s+\d{1,2},\s+\d{4}
    | IsoDate                   // \d{4}-\d{2}-\d{2}
    | Window                    // \(\d+-day\)

  /** The length of the match of `p` at the start of `s` (`re.match`). */
  function MatchLen(p: Pattern, s: string): (r: Option<nat>)
    ensures r.Some? ==> 0 < r.value <= |s|
  {
    match p
      case GroupedPercent => GroupedPercentMatch(s)
      case SignedPercent => PercentMatch(true, s)
      case PlainPercent => PercentMatch(false, s)
      case Currency => CurrencyMatch(s)
      case LongDate(ic) => var t := LongDateScan(s, ic); if t.Some? then Some(t.value.len) else None
      case IsoDate => IsoDateMatch(s)
      case Window => WindowMatch(s)
  }

  /** `re.findall(p, s)` for a pattern without groups: each match, left to right,
      the scan resuming where the previous match ended. */
  function FindAll(p: Pattern, s: string): (r: seq<string>)
    ensures forall k :: 0 <= k < |r| ==> r[k] != [] && |r[k]| <= |s|
    decreases |s|
  {
    if s == [] then []
    else
      var m := MatchLen(p, s);
      if m.Some? then [s[..m.value]] + FindAll(p, s[m.value..]) else FindAll(p, s[1..])
  }

  /** `re.sub(p, '', s)`: the text with every match found by that scan removed. */
  function RemoveAll(p: Pattern, s: string): (r: string)
    ensures |r| <= |s|
    decreases |s|
  {
    if s == [] then []
    else
      var m := MatchLen(p, s);
      if m.Some? then RemoveAll(p, s[m.value..]) else [s[0]] + RemoveAll(p, s[1..])
  }

  /** `re.findall` for the long-date pattern written with its month alternation as a
      capturing group: `findall` then returns the group, the month name, of each date. */
  function MonthGroups(s: string): (r: seq<string>)
    ensures forall k :: 0 <= k < |r| ==> r[k] in MonthNames
    decreases |s|
  {
    if s == [] then []
    else
      var t := LongDateScan(s, false);
      if t.Some? then [MonthNames[t.value.month]] + MonthGroups(s[t.value.len..])
      else MonthGroups(s[1..])
  }

  /** There is one group per date, and each is the name the date starts with. */
  lemma {:induction false} MonthGroupsOfDates(s: string)
    ensures |MonthGroups(s)| == |FindAll(LongDate(false), s)|
    ensures forall k :: 0 <= k < |MonthGroups(s)| ==> StartsWith(FindAll(LongDate(false), s)[k], MonthGroups(s)[k])
    decreases |s|
  {
    if s != [] {
      var t := LongDateScan(s, false);
      if t.Some? {
        var rest := s[t.value.len..];
        MonthGroupsOfDates(rest);
        var name := MonthNames[t.value.month];
        assert s[..t.value.len][..|name|] == s[..|name|];
        assert MonthGroups(s) == [name] + MonthGroups(rest);
        assert FindAll(LongDate(false), s) == [s[..t.value.len]] + FindAll(LongDate(false), rest);
      } else {
        MonthGroupsOfDates(s[1..]);
      }
    }
  }

  /** A written date on its own: its one group is its month name. */
  lemma WrittenDateGroup(m: nat, ds: string, ys: string)
    requires m < 12 && 1 <= |ds| <= 2 && AllDigits(ds) && |ys| == 4 && AllDigits(ys)
    ensures MonthGroups(MonthNames[m] + " " + ds + ", " + ys) == [MonthNames[m]]
  {
    var w := MonthNames[m] + " " + ds + ", " + ys;
    LongDateOf(m, ds, ys, false);
    assert |w| == |MonthNames[m]| + |ds| + 7;
    assert w[|w|..] == [];
    assert MonthGroups(w) == [MonthNames[m]] + MonthGroups(w[|w|..]);
  }

  /** A written date on its own is one whole match. */
  lemma WrittenDateExtracted(m: nat, ds: string, ys: string)
    requires m < 12 && 1 <= |ds| <= 2 && AllDigits(ds) && |ys| == 4 && AllDigits(ys)
    ensures FindAll(LongDate(false), MonthNames[m] + " " + ds + ", " + ys) == [MonthNames[m] + " " + ds + ", " + ys]
  {
    var w := MonthNames[m] + " " + ds + ", " + ys;
    LongDateOf(m, ds, ys, false);
    assert |w| == |MonthNames[m]| + |ds| + 7;
    WholeMatch(LongDate(false), w);
  }

  lemma WholeMatch(p: Pattern, s: string)
    requires MatchLen(p, s) == Some(|s|)
    ensures FindAll(p, s) == [s]
  {
    assert s[..|s|] == s && s[|s|..] == [];
  }

  /** Every month name starts with a capital letter. */
  lemma MonthNamesCapitalised(m: nat)
    requires m < 12
    ensures |MonthNames[m]| >= 3 && IsUpper(MonthNames[m][0])
  {
  }

  /** A date match starts with a letter. */
  lemma LongDateStartsWithLetter(s: string, ignoreCase: bool)
    requires LongDateScan(s, ignoreCase).Some?
    ensures IsAlpha(s[0])
  {
    var m := LongDateScan(s, ignoreCase).value.month;
    var name := MonthNames[m];
    MonthNamesCapitalised(m);
    if ignoreCase {
      assert Lower(s[..|name|])[0] == Lower(name)[0];
    } else {
      assert s[0] == s[..|name|][0];
    }
  }

  /** A text without letters holds no date. */
  lemma {:induction false} NoDatesWithoutLetters(s: string, ignoreCase: bool)
    requires forall i :: 0 <= i < |s| ==> !IsAlpha(s[i])
    ensures FindAll(LongDate(ignoreCase), s) == []
    decreases |s|
  {
    if s != [] {
      if LongDateScan(s, ignoreCase).Some? {
        LongDateStartsWithLetter(s, ignoreCase);
      }
      NoDatesWithoutLetters(s[1..], ignoreCase);
    }
  }

  /** The first three letters, lower-cased, tell the month names apart. */
  lemma MonthKeysDistinct(k: nat, m: nat)
    requires k < 12 && m < 12 && k != m
    ensures Lower(MonthNames[k][..3]) != Lower(MonthNames[m][..3])
  {
    var a, b := MonthNames[k], MonthNames[m];
    var la, lb := Lower(a[..3]), Lower(b[..3]);
    assert la[0] == ToLower(a[0]) && la[1] == ToLower(a[1]) && la[2] == ToLower(a[2]);
    assert lb[0] == ToLower(b[0]) && lb[1] == ToLower(b[1]) && lb[2] == ToLower(b[2]);
  }

  lemma NamePrefix(s: string, ignoreCase: bool, name: string)
    requires |name| >= 3 && NameAt(s, ignoreCase, name)
    ensures Lower(s[..3]) == Lower(name[..3])
  {
    assert s[..3] == s[..|name|][..3];
    if ignoreCase {
      assert forall i :: 0 <= i < 3 ==> Lower(s[..3])[i] == Lower(s[..|name|])[i] == Lower(name)[i] == Lower(name[..3])[i];
    }
  }

  /** A text that starts with a month's name, in any letter case when case is
      ignored, is matched by that month and no other. */
  lemma MonthAtName(s: string, ignoreCase: bool, m: nat)
    requires m < 12 && NameAt(s, ignoreCase, MonthNames[m])
    ensures MonthAt(s, ignoreCase, 0) == Some(m)
  {
    var k := MonthAt(s, ignoreCase, 0).value;
    if k != m {
      MonthNamesCapitalised(k);
      MonthNamesCapitalised(m);
      NamePrefix(s, ignoreCase, MonthNames[k]);
      NamePrefix(s, ignoreCase, MonthNames[m]);
      MonthKeysDistinct(k, m);
    }
  }

  /** `" D, YYYY"` with one separating space each time scans whole. */
  lemma DayYearOf(ds: string, ys: string)
    requires 1 <= |ds| <= 2 && AllDigits(ds) && |ys| == 4 && AllDigits(ys)
    ensures DayYearScan(" " + ds + ", " + ys) == Some((|ds| + 7, ds, ys))
  {
    var s := " " + ds + ", " + ys;
    var c := 1 + |ds|;
    var y := c + 2;
    assert SpaceRun(s) == 1 by {
      assert IsSpace(s[0]) && !IsSpace(s[1]);
    }
    assert DigitRun(s[1..]) == |ds| by {
      assert s[1..][|ds|] == ',';
      assert forall i :: 0 <= i < |ds| ==> s[1..][i] == ds[i];
    }
    assert s[c] == ',';
    assert SpaceRun(s[c + 1..]) == 1 by {
      assert IsSpace(s[c + 1..][0]) && !IsSpace(s[c + 1..][1]);
    }
    assert s[y..] == ys;
    assert DigitRun(s[y..]) == 4;
    assert s[1..c] == ds && s[y..y + 4] == ys;
  }

  lemma Regroup(name: string, ds: string, ys: string)
    ensures name + (" " + ds + ", " + ys) == name + " " + ds + ", " + ys
  {
  }

  /** `Month D, YYYY` written with single spaces is one date match, case or no case. */
  lemma LongDateOf(m: nat, ds: string, ys: string, ignoreCase: bool)
    requires m < 12 && 1 <= |ds| <= 2 && AllDigits(ds) && |ys| == 4 && AllDigits(ys)
    ensures var r := LongDateScan(MonthNames[m] + " " + ds + ", " + ys, ignoreCase);
      r.Some? && r.value.len == |MonthNames[m]| + |ds| + 7 && r.value.month == m && r.value.day == ds && r.value.year == ys
  {
    Regroup(MonthNames[m], ds, ys);
    DayYearOf(ds, ys);
    MonthThen(m, " " + ds + ", " + ys, ignoreCase);
    LongDateScanParts(MonthNames[m] + (" " + ds + ", " + ys), ignoreCase, m, (|ds| + 7, ds, ys));
  }

  lemma MonthThen(m: nat, rest: string, ignoreCase: bool)
    requires m < 12
    ensures MonthAt(MonthNames[m] + rest, ignoreCase, 0) == Some(m)
    ensures (MonthNames[m] + rest)[|MonthNames[m]|..] == rest
  {
    var name := MonthNames[m];
    var s := name + rest;
    assert s[..|name|] == name;
    assert NameAt(s, ignoreCase, name);
    MonthAtName(s, ignoreCase, m);
  }

  lemma LongDateScanParts(s: string, ignoreCase: bool, m: nat, t: (nat, string, string))
    requires m < 12 && MonthAt(s, ignoreCase, 0) == Some(m)
    requires DayYearScan(s[|MonthNames[m]|..]) == Some(t)
    ensures LongDateScan(s, ignoreCase).Some?
    ensures LongDateScan(s, ignoreCase).value.len == |MonthNames[m]| + t.0
    ensures LongDateScan(s, ignoreCase).value.month == m
    ensures LongDateScan(s, ignoreCase).value.day == t.1
    ensures LongDateScan(s, ignoreCase).value.year == t.2
  {
  }

  // ---------------------------------------------------------------------------
  // Numbers delimited by word boundaries

  datatype BoundedNumber =
    | AnyDecimal  // \b\d+\.?\d*\b
    | TwoDigits   // \b\d+\.?\d+\b

  predicate WordAt(s: string, i: int) { 0 <= i < |s| && IsWordChar(s[i]) }

  /** The match at the start of `s` when a word boundary precedes it. After the digits,
      a point with digits is taken if a boundary follows them; otherwise the engine gives
      back characters until the end sits at a boundary: `\b` holds between a digit and
      a point, and between a point and a word character. */
  function BoundedMatch(p: BoundedNumber, s: string): (r: Option<nat>)
    ensures r.Some? ==> 0 < r.value <= |s| && IsDigit(s[0])
    ensures r.Some? ==> !(IsWordChar(s[r.value - 1]) && WordAt(s, r.value))
  {
    if s == [] || !IsDigit(s[0]) then None
    else
      var d := DigitRun(s);
      var hasPoint := d < |s| && s[d] == '.';
      var f := if hasPoint then DigitRun(s[d + 1..]) else 0;
      var e := d + 1 + f;
      match p
        case AnyDecimal =>
          if hasPoint then
            if f >= 1 && !WordAt(s, e) then Some(e)
            else if f >= 1 || WordAt(s, d + 1) then Some(d + 1)
            else Some(d)
          else if !WordAt(s, d) then Some(d) else None
        case TwoDigits =>
          if hasPoint && f >= 1 && !WordAt(s, e) then Some(e)
          else if hasPoint then (if d >= 2 then Some(d) else None)
          else if d >= 2 && !WordAt(s, d) then Some(d) else None
  }

  /** `re.findall` for a word-bounded number: `prevWord` says whether the character
      before `s` is a word character, so a match may start only after a non-word one. */
  function FindBounded(p: BoundedNumber, s: string, prevWord: bool): (r: seq<string>)
    ensures forall k :: 0 <= k < |r| ==> r[k] != [] && IsDigit(r[k][0])
    decreases |s|
  {
    if s == [] then []
    else
      var m := if prevWord then None else BoundedMatch(p, s);
      if m.Some? then [s[..m.value]] + FindBounded(p, s[m.value..], IsWordChar(s[m.value - 1]))
      else FindBounded(p, s[1..], IsWordChar(s[0]))
  }

  // ---------------------------------------------------------------------------
  // Python's float()

  /** The value of decimal digits `ip.fp`. */
  function DecimalValue(ip: string, fp: string): (v: real)
    requires AllDigits(ip) && AllDigits(fp)
    ensures DigitsValue(ip) as real <= v < DigitsValue(ip) as real + 1.0
  {
    DigitsValue(ip) as real + FractionValue(fp)
  }

  /** The value of the digits after the point, `0.d1d2...`, read from the left. */
  function FractionValue(fp: string): (v: real)
    requires AllDigits(fp)
    ensures 0.0 <= v < 1.0
  {
    if fp == [] then 0.0 else (DigitValue(fp[0]) as real + FractionValue(fp[1..])) / 10.0
  }

  /** `float(s)` on decimal notation: surrounding whitespace, an optional sign, and digits
      with at most one point and at least one digit; `None` where it raises. */
  function ParseFloat(s: string): (r: Option<real>)
    ensures r.Some? ==> Strip(s) != []
    ensures r.Some? && r.value < 0.0 ==> Strip(s)[0] == '-'
  {
    var t := Strip(s);
    var neg := t != [] && t[0] == '-';
    var body := if t != [] && (t[0] == '-' || t[0] == '+') then t[1..] else t;
    var parts := SplitOn(body, '.');
    if |parts| > 2 then None
    else
      var ip := parts[0];
      var fp := if |parts| == 2 then parts[1] else "";
      if !AllDigits(ip) || !AllDigits(fp) || |ip| + |fp| == 0 then None
      else
        var v := DecimalValue(ip, fp);
        Some(if neg then -v else v)
  }

  /** `float(str(n)) == n`. */
  lemma ParseFloatOfNat(n: nat)
    ensures ParseFloat(NatToString(n)) == Some(n as real)
  {
    ParseFloatOfDigits(NatToString(n));
    DigitsValueOfNatToString(n);
  }

  /** `float` of a string of digits is their value. */
  lemma ParseFloatOfDigits(s: string)
    requires s != [] && AllDigits(s)
    ensures ParseFloat(s) == Some(DigitsValue(s) as real)
  {
    NoSpaceIsStripped(s);
    assert IsDigit(s[0]);
    NoSplitWithout(s, '.');
    var parts := SplitOn(s, '.');
    assert parts[0] == s;
    assert DecimalValue(s, "") == DigitsValue(s) as real;
  }

  /** A string of digits is its own `strip()`. */
  lemma NoSpaceIsStripped(s: string)
    requires s != [] && AllDigits(s)
    ensures Strip(s) == s
  {
    assert !IsSpace(s[0]);
    assert LStrip(s) == s;
    assert !IsSpace(s[|s| - 1]);
  }

  /** Splitting on a character that does not occur gives the whole string. */
  lemma NoSplitWithout(s: string, c: char)
    requires forall i :: 0 <= i < |s| ==> s[i] != c
    ensures SplitOn(s, c) == [s]
  {
    assert c !in s;
  }
}
