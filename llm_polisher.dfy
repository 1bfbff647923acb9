// reports/llm_polisher.py: the language model rewrites the skeleton summary; its answer
// is cleaned of markdown, made one paragraph, held to 120-180 words (cut when longer,
// replaced by the skeleton when shorter), and can be checked afterwards. The model call
// itself is a parameter: its answer, or the error it raised.
module LlmPolisher {
  import opened Wrappers
  import opened Text
  import opened Json

  // ---------------------------------------------------------------------------
  // Markdown

  /** The first `j >= i` where the delimiter `d` starts, with no line break between `i`
      and `j`: how far the lazy `(.*?)` reaches. */
  function CloseAt(s: string, d: string, i: nat): (r: Option<nat>)
    requires i <= |s|
    ensures r.Some? ==> i <= r.value <= |s| && StartsWith(s[r.value..], d)
    decreases |s| - i
  {
    if StartsWith(s[i..], d) then Some(i)
    else if i == |s| || s[i] == '\n' then None
    else CloseAt(s, d, i + 1)
  }

  /** `re.sub(r'\*\*(.*?)\*\*', r'\1', s)` with `d == "**"`, `re.sub(r'\*(.*?)\*', r'\1', s)`
      with `d == "*"`: each delimited span on one line is replaced by its inside. */
  function Unwrap(s: string, d: string): (r: string)
    requires d != []
    decreases |s|
  {
    if s == [] then []
    else match Opening(s, d)
      case Some(j) => s[|d|..j] + Unwrap(s[j + |d|..], d)
      case None => [s[0]] + Unwrap(s[1..], d)
  }

  /** Where the closing delimiter sits when `s` opens a span, or None when it does not. */
  function Opening(s: string, d: string): (r: Option<nat>)
    requires d != []
    ensures r.Some? ==> StartsWith(s, d) && |d| <= r.value && r.value + |d| <= |s| && StartsWith(s[r.value..], d)
  {
    if StartsWith(s, d) then CloseAt(s, d, |d|) else None
  }

  lemma RemoveStarsOfWrapped(d: string, inner: string, rest: string)
    requires d == "**" || d == "*"
    ensures RemoveChar(d + inner + d + rest, '*') == RemoveChar(inner, '*') + RemoveChar(rest, '*')
  {
    assert RemoveChar(d, '*') == [];
    RemoveCharAppend(d + inner + d, rest, '*');
    RemoveCharAppend(d + inner, d, '*');
    RemoveCharAppend(d, inner, '*');
  }

  lemma SplitFour(s: string, i: nat, j: nat, k: nat)
    requires i <= j <= k <= |s|
    ensures s == s[..i] + s[i..j] + s[j..k] + s[k..]
  {
    assert s[..j] == s[..i] + s[i..j];
    assert s[..k] == s[..j] + s[j..k];
    assert s == s[..k] + s[k..];
  }

  /** One delimited span: its asterisks are those of the inside and of what follows. */
  lemma SpanStars(s: string, d: string, j: nat)
    requires d == "**" || d == "*"
    requires Opening(s, d) == Some(j)
    ensures RemoveChar(Unwrap(s, d), '*') == RemoveChar(s[|d|..j], '*') + RemoveChar(Unwrap(s[j + |d|..], d), '*')
    ensures RemoveChar(s, '*') == RemoveChar(s[|d|..j], '*') + RemoveChar(s[j + |d|..], '*')
  {
    var inner, rest := s[|d|..j], s[j + |d|..];
    UnwrapSpan(s, d, j);
    RemoveCharAppend(inner, Unwrap(rest, d), '*');
    SpanSplit(s, d, j);
    RemoveStarsOfWrapped(d, inner, rest);
  }

  lemma {:induction false} UnwrapSpan(s: string, d: string, j: nat)
    requires d != []
    requires Opening(s, d) == Some(j)
    ensures Unwrap(s, d) == s[|d|..j] + Unwrap(s[j + |d|..], d)
  {
  }

  lemma SpanSplit(s: string, d: string, j: nat)
    requires StartsWith(s, d) && |d| <= j <= |s| && StartsWith(s[j..], d)
    ensures s == d + s[|d|..j] + d + s[j + |d|..]
  {
    assert s[..|d|] == d && s[j..j + |d|] == d;
    SplitFour(s, |d|, j, j + |d|);
  }

  /** Unwrapping deletes asterisks and nothing else. */
  lemma {:induction false} UnwrapDeletesOnlyStars(s: string, d: string)
    requires d == "**" || d == "*"
    ensures RemoveChar(Unwrap(s, d), '*') == RemoveChar(s, '*')
    decreases |s|
  {
    if s != [] {
      if Opening(s, d).Some? {
        var j := Opening(s, d).value;
        UnwrapDeletesOnlyStars(s[j + |d|..], d);
        SpanStars(s, d, j);
      } else {
        assert Unwrap(s, d) == [s[0]] + Unwrap(s[1..], d);
        UnwrapDeletesOnlyStars(s[1..], d);
        assert s == [s[0]] + s[1..];
        RemoveCharAppend([s[0]], Unwrap(s[1..], d), '*');
        RemoveCharAppend([s[0]], s[1..], '*');
      }
    }
  }

  /** Text without asterisks is left alone. */
  lemma {:induction false} UnwrapStarFree(s: string, d: string)
    requires d == "**" || d == "*"
    requires '*' !in s
    ensures Unwrap(s, d) == s
    decreases |s|
  {
    if s != [] {
      assert s[0] != d[0];
      UnwrapPlain(s, d);
      assert '*' !in s[1..];
      UnwrapStarFree(s[1..], d);
      assert s == [s[0]] + s[1..];
    }
  }

  /** Text that does not open with the delimiter keeps its first character. */
  lemma UnwrapPlain(s: string, d: string)
    requires d != [] && s != [] && s[0] != d[0]
    ensures Unwrap(s, d) == [s[0]] + Unwrap(s[1..], d)
  {
    assert !StartsWith(s, d);
  }

  predicate IsMarker(c: char) { c == '-' || c == '•' || c == '*' }

  /** The number of leading whitespace characters. */
  function SpaceCount(s: string): (n: nat)
    ensures n <= |s|
    ensures forall i :: 0 <= i < n ==> IsSpace(s[i])
    ensures n < |s| ==> !IsSpace(s[n])
  {
    if s == [] || !IsSpace(s[0]) then 0 else 1 + SpaceCount(s[1..])
  }

  /** The length of a `\s*[-•*]\s+` match at the start of `s`: the greedy whitespace run
      must be followed by a marker and at least one more whitespace character. */
  function BulletLen(s: string): (r: Option<nat>)
    ensures r.Some? ==> 2 <= r.value <= |s|
  {
    var w := SpaceCount(s);
    if w < |s| && IsMarker(s[w]) then
      var w2 := SpaceCount(s[w + 1..]);
      if w2 >= 1 then Some(w + 1 + w2) else None
    else None
  }

  /** `re.sub(r'^\s*[-•*]\s+', '', s, flags=re.MULTILINE)`: `lineStart` says whether `s`
      begins a line of the original text (its start, or just after a line break). */
  function StripBullets(s: string, lineStart: bool): (r: string)
    ensures |r| <= |s|
    decreases |s|
  {
    if s == [] then []
    else
      var m := if lineStart then BulletLen(s) else None;
      if m.Some? then StripBullets(s[m.value..], s[m.value - 1] == '\n')
      else [s[0]] + StripBullets(s[1..], s[0] == '\n')
  }

  /** Text without marker characters is left alone. */
  lemma {:induction false} StripBulletsMarkerFree(s: string, lineStart: bool)
    requires forall i :: 0 <= i < |s| ==> !IsMarker(s[i])
    ensures StripBullets(s, lineStart) == s
    decreases |s|
  {
    if s != [] {
      StripBulletsMarkerFree(s[1..], s[0] == '\n');
      assert s == [s[0]] + s[1..];
    }
  }

  /** The text the paragraph step starts from: markdown removed and whitespace collapsed. */
  function Collapsed(response: string): (c: string)
    ensures WellSpaced(c)
  {
    CollapseSpaces(StripBullets(Unwrap(Unwrap(response, "**"), "*"), true))
  }

  // ---------------------------------------------------------------------------
  // One paragraph

  /** `(s.strip() for s in sentences if s.strip())`. */
  function KeptSentences(parts: seq<string>): (r: seq<string>)
    ensures |r| <= |parts|
    ensures [] !in r
  {
    if parts == [] then []
    else
      var p := Strip(parts[0]);
      (if p == [] then [] else [p]) + KeptSentences(parts[1..])
  }

  /** The paragraph step, given the pieces the text is cut into: with more than one,
      the non-blank pieces are joined with ". " and a final '.' is ensured. */
  function Paragraph(cleaned: string, parts: seq<string>): (r: string)
    ensures |parts| > 1 ==> EndsWith(r, ".")
    ensures |parts| <= 1 ==> r == cleaned
  {
    if |parts| > 1 then
      var joined := Join(KeptSentences(parts), ". ");
      if EndsWith(joined, ".") then joined
      else
        assert (joined + ".")[|joined + "."| - 1..] == ".";
        joined + "."
    else cleaned
  }

  /** `_clean_llm_response` as written: `cleaned.split('.')` cuts at every period,
      decimal points included. */
  function CleanAsWritten(response: string): string
  {
    var c := Collapsed(response);
    Paragraph(c, SplitOn(c, '.'))
  }

  /** A period that ends a sentence: not a decimal point between two digits. */
  predicate SentencePeriod(s: string, i: nat)
    requires i < |s|
  {
    s[i] == '.' && !(0 < i < |s| - 1 && IsDigit(s[i - 1]) && IsDigit(s[i + 1]))
  }

  /** The first sentence period at or after `i`, or -1. */
  function NextSentencePeriod(s: string, i: nat): (r: int)
    requires i <= |s|
    ensures r < 0 ==> forall k :: i <= k < |s| ==> !SentencePeriod(s, k)
    ensures r >= 0 ==> i <= r < |s| && SentencePeriod(s, r)
    decreases |s| - i
  {
    if i == |s| then -1
    else if SentencePeriod(s, i) then i
    else NextSentencePeriod(s, i + 1)
  }

  /** The text cut at sentence periods only. */
  function SentenceSplit(s: string): (r: seq<string>)
    ensures |r| >= 1
    decreases |s|
  {
    var j := NextSentencePeriod(s, 0);
    if j < 0 then [s] else [s[..j]] + SentenceSplit(s[j + 1..])
  }

  /** `_clean_llm_response` as intended: sentences are cut at sentence periods, so the
      figures the summary quotes keep their decimals. */
  function CleanResponse(response: string): string
  {
    var c := Collapsed(response);
    Paragraph(c, SentenceSplit(c))
  }

  // ---------------------------------------------------------------------------
  // Spacing of the paragraph

  /** Every whitespace character is a ' ' and no two are adjacent: what is left of a
      well-spaced text when cut anywhere. */
  ghost predicate LooseSpaced(s: string)
  {
    (forall i :: 0 <= i < |s| && IsSpace(s[i]) ==> s[i] == ' ') &&
    (forall i, j :: 0 <= i < j < |s| && j == i + 1 ==> !(IsSpace(s[i]) && IsSpace(s[j])))
  }

  lemma SliceLoose(s: string, a: nat, b: nat)
    requires LooseSpaced(s) && a <= b <= |s|
    ensures LooseSpaced(s[a..b])
  {
    var t := s[a..b];
    forall i | 0 <= i < |t| ensures t[i] == s[a + i] { }
    forall i, j | 0 <= i < j < |t| && j == i + 1 ensures !(IsSpace(t[i]) && IsSpace(t[j])) {
      assert t[i] == s[a + i] && t[j] == s[a + j];
    }
  }

  lemma WellSpacedIsLoose(s: string)
    requires WellSpaced(s)
    ensures LooseSpaced(s)
  {
  }

  /** `s.strip()` is the slice of `s` from `a`, with blanks at neither end. */
  lemma StripIsSlice(s: string) returns (a: nat)
    ensures a + |Strip(s)| <= |s| && Strip(s) == s[a..a + |Strip(s)|]
    ensures Strip(s) == [] || (!IsSpace(Strip(s)[0]) && !IsSpace(Strip(s)[|Strip(s)| - 1]))
  {
    var l := LStrip(s);
    a := |s| - |l|;
    var t := Strip(s);
    assert t == l[..|t|];
    if t != [] { assert t[0] == l[0]; }
  }

  lemma LooseTrimmed(t: string)
    requires LooseSpaced(t)
    requires t == [] || (!IsSpace(t[0]) && !IsSpace(t[|t| - 1]))
    ensures WellSpaced(t)
  {
  }

  /** Stripping a loosely spaced piece leaves a well-spaced one. */
  lemma StripLoose(s: string)
    requires LooseSpaced(s)
    ensures WellSpaced(Strip(s))
  {
    var t := Strip(s);
    var a := StripIsSlice(s);
    assert LooseSpaced(t) by {
      SliceLoose(s, a, a + |t|);
    }
    LooseTrimmed(t);
  }

  /** Every piece `SplitOn` cuts is loosely spaced. */
  lemma {:induction false} SplitLoose(s: string, c: char)
    requires LooseSpaced(s)
    ensures forall k :: 0 <= k < |SplitOn(s, c)| ==> LooseSpaced(SplitOn(s, c)[k])
    decreases |s|
  {
    var i := IndexOf(s, c);
    if i >= 0 {
      SliceLoose(s, 0, i);
      SliceLoose(s, i + 1, |s|);
      SplitLoose(s[i + 1..], c);
      var r := SplitOn(s, c);
      assert r == [s[..i]] + SplitOn(s[i + 1..], c);
      forall k | 0 <= k < |r| ensures LooseSpaced(r[k]) {
        if k > 0 { assert r[k] == SplitOn(s[i + 1..], c)[k - 1]; }
      }
    }
  }

  /** Every piece `SentenceSplit` cuts is loosely spaced. */
  lemma {:induction false} SentenceSplitLoose(s: string)
    requires LooseSpaced(s)
    ensures forall k :: 0 <= k < |SentenceSplit(s)| ==> LooseSpaced(SentenceSplit(s)[k])
    decreases |s|
  {
    var j := NextSentencePeriod(s, 0);
    if j >= 0 {
      SliceLoose(s, 0, j);
      SliceLoose(s, j + 1, |s|);
      SentenceSplitLoose(s[j + 1..]);
      var r := SentenceSplit(s);
      assert r == [s[..j]] + SentenceSplit(s[j + 1..]);
      forall k | 0 <= k < |r| ensures LooseSpaced(r[k]) {
        if k > 0 { assert r[k] == SentenceSplit(s[j + 1..])[k - 1]; }
      }
    }
  }

  lemma {:induction false} KeptWellSpaced(parts: seq<string>)
    requires forall k :: 0 <= k < |parts| ==> LooseSpaced(parts[k])
    ensures forall p :: p in KeptSentences(parts) ==> WellSpaced(p)
  {
    if parts != [] {
      StripLoose(parts[0]);
      KeptWellSpaced(parts[1..]);
      var p := Strip(parts[0]);
      assert KeptSentences(parts) == (if p == [] then [] else [p]) + KeptSentences(parts[1..]);
    }
  }

  /** Sentences joined with ". " keep the spacing well-formed. */
  lemma {:induction false} JoinSentencesWellSpaced(ps: seq<string>)
    requires forall k :: 0 <= k < |ps| ==> ps[k] != [] && WellSpaced(ps[k])
    ensures WellSpaced(Join(ps, ". "))
    ensures ps != [] ==> Join(ps, ". ") != [] && !IsSpace(Join(ps, ". ")[0])
    decreases |ps|
  {
    if |ps| >= 2 {
      JoinSentencesWellSpaced(ps[1..]);
      var a := ps[0];
      var b := Join(ps[1..], ". ");
      var j := a + ". " + b;
      assert Join(ps, ". ") == j;
      forall i | 0 <= i < |j| && IsSpace(j[i])
        ensures j[i] == ' ' && 0 < i < |j| - 1 && !IsSpace(j[i - 1]) && !IsSpace(j[i + 1])
      {
        if i < |a| {
          assert j[i] == a[i] && j[i - 1] == a[i - 1] && j[i + 1] == a[i + 1];
        } else if i <= |a| + 1 {
          assert j[|a|] == '.' && j[|a| + 1] == ' ' && j[|a| + 2] == b[0];
        } else {
          var m := i - |a| - 2;
          assert j[i] == b[m];
          assert j[i + 1] == b[m + 1];
          assert j[i - 1] == (if m == 0 then ' ' else b[m - 1]);
        }
      }
    }
  }

  lemma AppendPeriodWellSpaced(s: string)
    requires WellSpaced(s)
    ensures WellSpaced(s + ".")
  {
    var t := s + ".";
    forall i | 0 <= i < |t| && IsSpace(t[i])
      ensures t[i] == ' ' && 0 < i < |t| - 1 && !IsSpace(t[i - 1]) && !IsSpace(t[i + 1])
    {
      assert i < |s| && t[i] == s[i] && t[i - 1] == s[i - 1] && t[i + 1] == s[i + 1];
    }
  }

  lemma ParagraphWellSpaced(c: string, parts: seq<string>)
    requires WellSpaced(c)
    requires forall k :: 0 <= k < |parts| ==> LooseSpaced(parts[k])
    ensures WellSpaced(Paragraph(c, parts))
  {
    if |parts| > 1 {
      KeptWellSpaced(parts);
      JoinSentencesWellSpaced(KeptSentences(parts));
      AppendPeriodWellSpaced(Join(KeptSentences(parts), ". "));
    }
  }

  /** The cleaned answer is one paragraph: no line breaks, single spaces, no blank ends;
      and it ends with a period when it has more than one piece. */
  lemma CleanIsOneParagraph(response: string)
    ensures WellSpaced(CleanAsWritten(response)) && WellSpaced(CleanResponse(response))
    ensures |SplitOn(Collapsed(response), '.')| > 1 ==> EndsWith(CleanAsWritten(response), ".")
    ensures |SentenceSplit(Collapsed(response))| > 1 ==> EndsWith(CleanResponse(response), ".")
  {
    var c := Collapsed(response);
    WellSpacedIsLoose(c);
    SplitLoose(c, '.');
    SentenceSplitLoose(c);
    ParagraphWellSpaced(c, SplitOn(c, '.'));
    ParagraphWellSpaced(c, SentenceSplit(c));
  }

  // ---------------------------------------------------------------------------
  // The decimal point

  /** A single token the cleaning leaves alone: no whitespace, asterisks or bullet marks. */
  predicate Plain(w: string)
  {
    w != [] && forall i :: 0 <= i < |w| ==> !IsSpace(w[i]) && w[i] != '*' && !IsMarker(w[i])
  }

  lemma CollapsedWord(w: string)
    requires Plain(w)
    ensures Collapsed(w) == w
  {
    UnwrapStarFree(w, "**");
    UnwrapStarFree(w, "*");
    StripBulletsMarkerFree(w, true);
    assert LStrip(w) == w;
    assert RunLength(w) == |w|;
    assert w[|w|..] == [];
    assert w[..|w|] == w;
    assert Words([]) == [];
    assert Words(w) == [w];
  }

  /** `x.y` is a plain token when `x` and `y` are. */
  lemma PlainDotted(x: string, y: string)
    requires Plain(x) && Plain(y)
    ensures Plain(x + "." + y)
  {
    var w := x + "." + y;
    forall i | 0 <= i < |w| ensures !IsSpace(w[i]) && w[i] != '*' && !IsMarker(w[i]) {
      if i < |x| { assert w[i] == x[i]; }
      else if i > |x| { assert w[i] == y[i - |x| - 1]; }
    }
  }

  lemma StripWord(w: string)
    requires NoSpace(w)
    ensures Strip(w) == w
  {
    assert LStrip(w) == w;
    assert RStrip(w) == w;
  }

  /** `x.y` cut at its only period. */
  lemma SplitDotted(x: string, y: string)
    requires '.' !in x && '.' !in y
    ensures SplitOn(x + "." + y, '.') == [x, y]
  {
    var w := x + "." + y;
    var i := IndexOf(w, '.');
    assert w[|x|] == '.';
    assert i == |x|;
    assert w[..i] == x && w[i + 1..] == y;
  }

  lemma NoFinalPeriod(a: string, y: string)
    requires y != [] && y[|y| - 1] != '.'
    ensures !EndsWith(a + y, ".")
  {
    var z := a + y;
    assert z[|z| - 1] == y[|y| - 1];
  }

  /** Non-blank pieces without whitespace are all kept as they are. */
  lemma {:induction false} KeptWords(ps: seq<string>)
    requires forall k :: 0 <= k < |ps| ==> ps[k] != [] && NoSpace(ps[k])
    ensures KeptSentences(ps) == ps
  {
    if ps != [] {
      StripWord(ps[0]);
      KeptWords(ps[1..]);
      assert ps == [ps[0]] + ps[1..];
    }
  }

  lemma TwoSentences(c: string, x: string, y: string)
    requires NoSpace(x) && NoSpace(y) && x != [] && y != [] && '.' !in y
    ensures Paragraph(c, [x, y]) == x + ". " + y + "."
  {
    KeptWords([x, y]);
    JoinTwo(x, y);
    assert y[|y| - 1] != '.';
    NoFinalPeriod(x + ". ", y);
  }

  lemma JoinTwo(x: string, y: string)
    ensures Join([x, y], ". ") == x + ". " + y
  {
    var ps := [x, y];
    assert ps[1..] == [y];
    assert Join(ps[1..], ". ") == y;
  }

  /** As written, a figure `x.y` is cut in two at its decimal point. */
  lemma DecimalCutAsWritten(c: string, x: string, y: string, r: string)
    requires Plain(x) && Plain(y) && '.' !in x && '.' !in y
    requires c == x + "." + y && r == x + ". " + y + "."
    ensures CleanAsWritten(c) == r
  {
    PlainDotted(x, y);
    CollapsedWord(c);
    SplitDotted(x, y);
    TwoSentences(c, x, y);
  }

  /** The answer "1.5%" comes back as "1. 5%." as written. */
  lemma DecimalCutExample()
    ensures CleanAsWritten("1.5%") == "1. 5%."
  {
    var x, y := "1", "5%";
    assert Plain(x) && '.' !in x;
    assert Plain(y) && '.' !in y;
    DecimalCutAsWritten("1.5%", x, y, "1. 5%.");
  }

  /** Corrected, a text whose only periods are decimal points is left as it is. */
  lemma DecimalsKept(c: string)
    requires forall i :: 0 <= i < |c| ==> !SentencePeriod(c, i)
    ensures SentenceSplit(c) == [c] && Paragraph(c, SentenceSplit(c)) == c
  {
  }

  /** Corrected, a figure `x.y` between digits keeps its decimal point. */
  lemma DecimalKeptCorrected(c: string, x: string, y: string)
    requires Plain(x) && Plain(y) && '.' !in x && '.' !in y
    requires IsDigit(x[|x| - 1]) && IsDigit(y[0])
    requires c == x + "." + y
    ensures CleanResponse(c) == c
  {
    PlainDotted(x, y);
    CollapsedWord(c);
    OnlyDecimalPoint(c, x, y);
    DecimalsKept(c);
  }

  lemma OnlyDecimalPoint(c: string, x: string, y: string)
    requires x != [] && y != [] && '.' !in x && '.' !in y
    requires IsDigit(x[|x| - 1]) && IsDigit(y[0])
    requires c == x + "." + y
    ensures forall i :: 0 <= i < |c| ==> !SentencePeriod(c, i)
  {
    forall i | 0 <= i < |c| ensures !SentencePeriod(c, i) {
      if i < |x| { assert c[i] == x[i]; }
      else if i > |x| { assert c[i] == y[i - |x| - 1]; }
      else { assert c[i - 1] == x[|x| - 1] && c[i + 1] == y[0]; }
    }
  }

  /** The answer "1.5%" comes back unchanged once corrected. */
  lemma DecimalKeptExample()
    ensures CleanResponse("1.5%") == "1.5%"
  {
    var x, y := "1", "5%";
    assert Plain(x) && '.' !in x;
    assert Plain(y) && '.' !in y;
    DecimalKeptCorrected("1.5%", x, y);
  }

  // ---------------------------------------------------------------------------
  // The word limit

  /** The cut of the first words `t`: up to the last period when it lies past 80% of
      `t` (`last_period > len(truncated) * 0.8`, written over integers), else `t` + "...". */
  function CutAtPeriod(t: string): (r: string)
    ensures var p := RFind(t, '.');
      if p > 0 && 5 * p > 4 * |t| then r == t[..p + 1] && EndsWith(r, ".")
      else r == t + "..." 
  {
    var p := RFind(t, '.');
    if p > 0 && 5 * p > 4 * |t| then
      assert t[..p + 1][p..] == ".";
      t[..p + 1]
    else t + "..."
  }

  /** `_truncate_to_word_limit`: a text within the limit is returned as it is; a longer
      one is cut to its first `maxWords` words, then cut at a period. */
  function TruncateToWordLimit(text: string, maxWords: nat): (r: string)
    ensures WordCount(text) <= maxWords ==> r == text
    ensures WordCount(text) > maxWords ==> r == CutAtPeriod(Join(Words(text)[..maxWords], " "))
  {
    var words := Words(text);
    if |words| <= maxWords then text
    else CutAtPeriod(Join(words[..maxWords], " "))
  }

  /** A well-spaced prefix that ends on a non-blank character is well spaced. */
  lemma PrefixWellSpaced(s: string, n: nat)
    requires WellSpaced(s) && 0 < n <= |s| && !IsSpace(s[n - 1])
    ensures WellSpaced(s[..n])
  {
  }

  lemma AppendDotsWellSpaced(s: string)
    requires WellSpaced(s)
    ensures WellSpaced(s + "...")
  {
    var t := s + "...";
    forall i | 0 <= i < |t| && IsSpace(t[i])
      ensures t[i] == ' ' && 0 < i < |t| - 1 && !IsSpace(t[i - 1]) && !IsSpace(t[i + 1])
    {
      assert i < |s| && t[i] == s[i] && t[i - 1] == s[i - 1] && t[i + 1] == s[i + 1];
    }
  }

  lemma CutWellSpaced(t: string)
    requires WellSpaced(t)
    ensures WellSpaced(CutAtPeriod(t))
  {
    var p := RFind(t, '.');
    if p > 0 && 5 * p > 4 * |t| {
      PrefixWellSpaced(t, p + 1);
    } else {
      AppendDotsWellSpaced(t);
    }
  }

  /** Truncating a well-spaced text keeps it well spaced. */
  lemma TruncateWellSpaced(text: string, maxWords: nat)
    requires WellSpaced(text)
    ensures WellSpaced(TruncateToWordLimit(text, maxWords))
  {
    if WordCount(text) > maxWords {
      FirstWordsWellSpaced(text, maxWords);
      CutWellSpaced(Join(Words(text)[..maxWords], " "));
    }
  }

  /** Cutting words joined by spaces keeps at most that many words: a prefix of them
      holds no more, and "..." sticks to the last word. */
  lemma CutWordBound(ws: seq<string>)
    requires |ws| >= 1 && forall k :: 0 <= k < |ws| ==> ws[k] != [] && NoSpace(ws[k])
    ensures WordCount(CutAtPeriod(Join(ws, " "))) <= |ws|
  {
    var t := Join(ws, " ");
    WordCountOfJoin(ws);
    var p := RFind(t, '.');
    if p > 0 && 5 * p > 4 * |t| {
      WordCountPrefix(t, p + 1);
    } else {
      DotsAreNoSpace();
      WordCountJoinExtended(ws, "...");
    }
  }

  /** A truncated text holds at most `maxWords` words. */
  lemma TruncateWordBound(text: string, maxWords: nat)
    requires maxWords >= 1
    ensures WordCount(TruncateToWordLimit(text, maxWords)) <= maxWords
  {
    if WordCount(text) > maxWords {
      FirstWordsAreWords(text, maxWords);
      CutWordBound(Words(text)[..maxWords]);
    }
  }

  lemma FirstWordsWellSpaced(text: string, n: nat)
    requires n <= WordCount(text)
    ensures WellSpaced(Join(Words(text)[..n], " "))
  {
    var words := Words(text);
    WordsAreWords(text);
    var ws := words[..n];
    assert forall k :: 0 <= k < |ws| ==> ws[k] == words[k];
    JoinWellSpaced(ws);
  }

  // ---------------------------------------------------------------------------
  // Polishing

  /** `_extract_relevant_metrics`, up to `json.dumps`: the condensed dictionary, or the
      error a missing entry raises. */
  function RelevantMetrics(v2: Json): Result<Json>
  {
    var meta :- At(v2, "meta");
    var ticker :- At(meta, "ticker");
    var price :- At(v2, "price");
    var current :- At(price, "current");
    var currentDisplay :- At(current, "display");
    var rets :- At(price, "returns");
    var returnsDisplay :- At(rets, "display");
    var volatility :- At(price, "volatility");
    var volLevel :- At(volatility, "level");
    var volDisplay :- At(volatility, "display");
    var drawdown :- At(price, "drawdown");
    var ddDisplay :- At(drawdown, "max_dd_display");
    var recovery :- At(drawdown, "recovery_status");
    var base := [("ticker", ticker), ("current_price", currentDisplay), ("returns_display", returnsDisplay),
      ("volatility", JObj([("level", volLevel), ("display", volDisplay)])),
      ("drawdown", JObj([("display", ddDisplay), ("recovery_status", recovery)]))];
    var ownership := Get(v2, "ownership_13f").value;
    if Truthy(ownership) then
      var concentration :- At(ownership, "concentration");
      var level :- At(concentration, "level");
      var basis :- At(concentration, "basis");
      Ok(JObj(base + [("concentration", JObj([("level", level), ("basis", basis)]))]))
    else Ok(JObj(base))
  }

  /** The result dictionary of `polish_executive_summary`: completed, failed in the model
      call (`OllamaError`, reported with the model), or failed otherwise (no model key). */
  datatype Polish =
    | Completed(polishedText: string, originalSkeleton: string, wordCount: nat, modelUsed: Option<string>)
    | ModelFailed(error: string, fallbackText: string, wordCount: nat, modelUsed: Option<string>)
    | Failed(error: string, fallbackText: string, wordCount: nat)

  /** The word-count rule applied to the cleaned answer. */
  function Bounded(cleaned: string, skeleton: string): (r: string)
    ensures WordCount(cleaned) > 180 ==> r == TruncateToWordLimit(cleaned, 180)
    ensures WordCount(cleaned) < 120 ==> r == skeleton
    ensures 120 <= WordCount(cleaned) <= 180 ==> r == cleaned
  {
    var n := WordCount(cleaned);
    if n > 180 then TruncateToWordLimit(cleaned, 180) else if n < 120 then skeleton else cleaned
  }

  /** `polish_executive_summary`: `answer` is what the model call returned, or the
      message of the `OllamaError` it raised. The answer is cleaned as written. */
  function PolishSummary(skeleton: string, v2: Json, answer: Result<string>, model: Option<string>): (r: Polish)
    ensures !r.Completed? ==> r.fallbackText == skeleton && r.wordCount == WordCount(skeleton)
    ensures r.Completed? ==> r.originalSkeleton == skeleton && r.wordCount == WordCount(r.polishedText)
    ensures r.Completed? <==> RelevantMetrics(v2).Ok? && answer.Ok?
    ensures r.Failed? <==> RelevantMetrics(v2).Err?
    ensures !r.Failed? ==> r.modelUsed == model
    ensures r.Completed? ==> r.polishedText == Bounded(CleanAsWritten(answer.value), skeleton)
  {
    var relevant := RelevantMetrics(v2);
    if relevant.Err? then Failed("Unexpected polishing error: " + relevant.msg, skeleton, WordCount(skeleton))
    else if answer.Err? then ModelFailed(answer.msg, skeleton, WordCount(skeleton), model)
    else
      var polished := Bounded(CleanAsWritten(answer.value), skeleton);
      Completed(polished, skeleton, WordCount(polished), model)
  }

  /** The same with the answer cleaned at sentence periods only: it differs from the
      source only in the text of a completed polish. */
  function PolishSummaryCorrected(skeleton: string, v2: Json, answer: Result<string>, model: Option<string>): (r: Polish)
    ensures r.Completed? <==> PolishSummary(skeleton, v2, answer, model).Completed?
    ensures !r.Completed? ==> r == PolishSummary(skeleton, v2, answer, model)
    ensures r.Completed? ==> r.originalSkeleton == skeleton && r.modelUsed == model
    ensures r.Completed? ==> r.polishedText == Bounded(CleanResponse(answer.value), skeleton) && r.wordCount == WordCount(r.polishedText)
  {
    var p := PolishSummary(skeleton, v2, answer, model);
    if p.Completed? then
      var polished := Bounded(CleanResponse(answer.value), skeleton);
      Completed(polished, skeleton, WordCount(polished), model)
    else p
  }

  /** A completed polish is the skeleton itself, or a single well-spaced paragraph, as
      written and corrected alike. */
  lemma PolishedIsParagraphOrSkeleton(skeleton: string, v2: Json, answer: Result<string>, model: Option<string>)
    requires PolishSummary(skeleton, v2, answer, model).Completed?
    ensures var text := PolishSummary(skeleton, v2, answer, model).polishedText;
      text == skeleton || WellSpaced(text)
    ensures var text := PolishSummaryCorrected(skeleton, v2, answer, model).polishedText;
      text == skeleton || WellSpaced(text)
  {
    CleanIsOneParagraph(answer.value);
    BoundedWellSpaced(CleanAsWritten(answer.value), skeleton);
    BoundedWellSpaced(CleanResponse(answer.value), skeleton);
  }

  lemma BoundedWellSpaced(cleaned: string, skeleton: string)
    requires WellSpaced(cleaned)
    ensures Bounded(cleaned, skeleton) == skeleton || WellSpaced(Bounded(cleaned, skeleton))
  {
    TruncateWellSpaced(cleaned, 180);
  }

  /** A completed polish other than the skeleton holds at most 180 words, and at least
      120 unless it had to be cut. */
  lemma PolishedWithinLimit(skeleton: string, v2: Json, answer: Result<string>, model: Option<string>)
    requires PolishSummary(skeleton, v2, answer, model).Completed?
    ensures var r := PolishSummary(skeleton, v2, answer, model);
      r.polishedText == skeleton || r.wordCount <= 180
    ensures var r := PolishSummary(skeleton, v2, answer, model);
      WordCount(CleanAsWritten(answer.value)) <= 180 ==> r.polishedText == skeleton || r.wordCount >= 120
  {
    TruncateWordBound(CleanAsWritten(answer.value), 180);
  }

  // ---------------------------------------------------------------------------
  // Checking a polished text

  const ProhibitedWords: seq<string> := ["will", "should", "expect", "likely", "probably", "target", "recommend"]

  /** `s.count("\n\n")`: non-overlapping blank-line breaks. */
  function BlankLines(s: string): (n: nat)
    ensures n == 0 <==> !Contains(s, "\n\n")
    decreases |s|
  {
    if |s| < 2 then
      assert |s| > 0 ==> !Contains(s[1..], "\n\n");
      0
    else if s[..2] == "\n\n" then 1 + BlankLines(s[2..])
    else BlankLines(s[1..])
  }

  /** Python's `str(list)` for a list of plain words: `['will', 'likely']`. */
  function ListRepr(words: seq<string>): string
  {
    "[" + Join(seq(|words|, k requires 0 <= k < |words| => "'" + words[k] + "'"), ", ") + "]"
  }

  datatype Validation = Validation(
    valid: bool,
    errors: seq<string>,
    warnings: seq<string>,
    wordCount: nat,
    lengthValid: bool,
    structureValid: bool)

  /** `validate_polished_output` given the prohibited words found. */
  function ValidationWith(text: string, found: seq<string>): Validation
  {
    var n := WordCount(text);
    var lengthErrors :=
      if n < 120 then ["Too short: " + NatToString(n) + " words (min 120)"]
      else if n > 180 then ["Too long: " + NatToString(n) + " words (max 180)"]
      else [];
    var paragraphs := BlankLines(text) + 1;
    var warnings := if paragraphs > 1 then ["Multiple paragraphs detected: " + NatToString(paragraphs)] else [];
    var wordErrors := if found != [] then ["Prohibited words found: " + ListRepr(found)] else [];
    Validation(lengthErrors == [] && found == [], lengthErrors + wordErrors, warnings, n, lengthErrors == [], paragraphs == 1)
  }

  function ValidatePolished(text: string): (v: Validation)
    ensures v.valid <==> 120 <= v.wordCount <= 180 && forall w :: w in ProhibitedWords ==> !Contains(Lower(text), w)
    ensures v.lengthValid <==> 120 <= v.wordCount <= 180
    ensures v.structureValid <==> !Contains(text, "\n\n")
    ensures v.valid <==> v.errors == []
  {
    var found := Occurring(ProhibitedWords, Lower(text));
    assert found == [] <==> forall w :: w in ProhibitedWords ==> !Contains(Lower(text), w) by {
      if found != [] { assert found[0] in found; }
    }
    ValidationWith(text, found)
  }

  /** `validate_polished_output`, with its loop over the prohibited words. */
  method ValidatePolishedOutput(text: string) returns (v: Validation)
    ensures v == ValidatePolished(text)
  {
    var found := CollectOccurring(ProhibitedWords, Lower(text));
    v := ValidationWith(text, found);
  }
}
