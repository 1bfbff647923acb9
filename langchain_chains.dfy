// The LLM polish chains: the executive-summary parser (word-count limits, outer
// quotes removed, over-long output cut at a sentence end), the risk-bullets
// parser (bullet markers and numbering removed, count limits) and the
// generators' retry loop: a chain is invoked at most `max_retries + 1` times, then
// a fallback is used, for the risk bullets the
// three fixed bullets (the summary generator, which falls back to the skeleton, is
// in LangchainSummary). The model itself, the prompt templates and the logging are
// not modelled: the output of each chain call is a parameter.
module LangchainChains {
  import opened Wrappers
  import opened Text
  import opened Json

  const DefaultMinWords := 120
  const DefaultMaxWords := 180
  const DefaultMinBullets := 3
  const DefaultMaxBullets := 5

  /** The bullets returned when every attempt failed (lines 358-362). */
  const FallbackBullets := [
    "Market volatility risk based on observed price movements",
    "Concentration risk in institutional ownership structure",
    "Liquidity risk during market stress periods"]

  /** Python's `s[:n]`, a negative `n` counting from the end. */
  function Take<T>(s: seq<T>, n: int): (r: seq<T>)
    ensures 0 <= n <= |s| ==> r == s[..n]
    ensures |s| <= n ==> r == s
    ensures n < 0 ==> r == s[..if |s| + n < 0 then 0 else |s| + n]
  {
    if n >= |s| then s
    else if n >= 0 then s[..n]
    else if |s| + n < 0 then []
    else s[..|s| + n]
  }

  /** No whitespace at either end, and not empty. */
  predicate Trimmed(s: string)
  {
    s != [] && !IsSpace(s[0]) && !IsSpace(s[|s| - 1])
  }

  /** `strip()` leaves nothing or a trimmed text. */
  lemma StripTrimmed(s: string)
    ensures Strip(s) == [] || Trimmed(Strip(s))
  {
    var l := LStrip(s);
    var r := RStrip(l);
    assert r != [] ==> r[0] == l[0];
  }

  /** `strip()` keeps a text that starts and ends with a non-blank. */
  lemma StripSolid(x: string)
    requires Trimmed(x)
    ensures Strip(x) == x
  {
    assert LStrip(x) == x;
  }

  // ---------------------------------------------------------------------------
  // ExecSummaryParser

  /** The characters `[.?!]` that end a sentence. */
  predicate IsSentenceEnd(c: char) { c == '.' || c == '?' || c == '!' }

  /** The index of the last sentence end in `t`, or -1. */
  function LastSentenceEnd(t: string): (r: int)
    ensures -1 <= r < |t|
    ensures r >= 0 ==> IsSentenceEnd(t[r]) && forall j :: r < j < |t| ==> !IsSentenceEnd(t[j])
    ensures r < 0 ==> forall j :: 0 <= j < |t| ==> !IsSentenceEnd(t[j])
  {
    EndBefore(t, |t|)
  }

  /** The index of the last sentence end among the first `n` characters, or -1. */
  function EndBefore(t: string, n: nat): (r: int)
    requires n <= |t|
    ensures -1 <= r < n
    ensures r >= 0 ==> IsSentenceEnd(t[r]) && forall j :: r < j < n ==> !IsSentenceEnd(t[j])
    ensures r < 0 ==> forall j :: 0 <= j < n ==> !IsSentenceEnd(t[j])
  {
    if n == 0 then -1 else if IsSentenceEnd(t[n - 1]) then n - 1 else EndBefore(t, n - 1)
  }

  /** The cut of an over-long text's words `ws`: the first `maxWords` of them
      joined by spaces, up to and including the last `.`, `?` or `!`, or, when
      there is none, one word fewer followed by "...". */
  function CutWords(ws: seq<string>, maxWords: int): string
  {
    CutJoined(Join(Take(ws, maxWords), " "), Join(Take(ws, maxWords - 1), " "))
  }

  /** `t` up to and including its last sentence end, or else `shorter` + "...". */
  function CutJoined(t: string, shorter: string): string
  {
    CutAt(t, LastSentenceEnd(t), shorter)
  }

  /** `t[:e + 1].strip()` for an index `e` of `t`, else `shorter` + "...". */
  function CutAt(t: string, e: int, shorter: string): string
  {
    if 0 <= e < |t| then Strip(t[..e + 1]) else shorter + "..."
  }

  /** `_truncate_at_sentence`: a text within the limit is returned as it is; a
      longer one is cut. */
  function TruncateAtSentenceEnd(text: string, maxWords: int): (r: string)
    ensures WordCount(text) <= maxWords ==> r == text
    ensures WordCount(text) > maxWords ==> r == CutWords(Words(text), maxWords)
  {
    if WordCount(text) <= maxWords then text else CutWords(Words(text), maxWords)
  }

  /** Non-empty parts without whitespace, as `split()` yields them. */
  predicate AreWords(ws: seq<string>)
  {
    forall k :: 0 <= k < |ws| ==> ws[k] != [] && NoSpace(ws[k])
  }

  /** The first `n` words joined by single spaces: `n` words, starting with a
      non-blank. */
  lemma FirstWordsJoined(ws: seq<string>, n: nat)
    requires AreWords(ws) && 1 <= n <= |ws|
    ensures var t := Join(ws[..n], " ");
      WordCount(t) == n && t != [] && !IsSpace(t[0])
  {
    assert AreWords(ws[..n]);
    WordCountOfJoin(ws[..n]);
    JoinWellSpaced(ws[..n]);
  }

  /** A text that starts with a non-blank, cut at a sentence end: a prefix that
      ends the sentence, with no more words. */
  lemma CutJoinedAtEnd(t: string, shorter: string)
    requires t != [] && !IsSpace(t[0]) && LastSentenceEnd(t) >= 0
    ensures var r := CutJoined(t, shorter);
      r != [] && r == t[..|r|] && IsSentenceEnd(r[|r| - 1]) && WordCount(r) <= WordCount(t)
  {
    var e := LastSentenceEnd(t);
    var p := t[..e + 1];
    CutJoinedIsPrefix(t, shorter);
    assert CutJoined(t, shorter) == p;
    assert p[|p| - 1] == t[e];
    WordCountPrefix(t, e + 1);
  }

  lemma CutJoinedIsPrefix(t: string, shorter: string)
    requires t != [] && !IsSpace(t[0]) && LastSentenceEnd(t) >= 0
    ensures CutJoined(t, shorter) == t[..LastSentenceEnd(t) + 1]
  {
    CutAtPrefix(t, LastSentenceEnd(t), shorter);
  }

  lemma CutAtPrefix(t: string, e: int, shorter: string)
    requires 0 <= e < |t| && !IsSpace(t[0]) && IsSentenceEnd(t[e])
    ensures CutAt(t, e, shorter) == t[..e + 1]
  {
    var x := t[..e + 1];
    assert x[0] == t[0] && x[|x| - 1] == t[e];
    StripSolid(x);
  }

  /** Words cut at a sentence end: a prefix of the first `maxWords` words that ends
      the sentence. */
  lemma CutAtSentenceEnd(ws: seq<string>, maxWords: int)
    requires AreWords(ws) && 1 <= maxWords < |ws|
    requires LastSentenceEnd(Join(ws[..maxWords], " ")) >= 0
    ensures var t, r := Join(ws[..maxWords], " "), CutWords(ws, maxWords);
      r != [] && r == t[..|r|] && IsSentenceEnd(r[|r| - 1]) && WordCount(r) <= maxWords
  {
    assert Take(ws, maxWords) == ws[..maxWords];
    FirstWordsJoined(ws, maxWords);
    CutJoinedAtEnd(Join(ws[..maxWords], " "), Join(Take(ws, maxWords - 1), " "));
  }

  /** Words cut without a sentence end: one word fewer, then "...". */
  lemma CutWithDots(ws: seq<string>, maxWords: int)
    requires AreWords(ws) && 1 <= maxWords < |ws|
    requires LastSentenceEnd(Join(ws[..maxWords], " ")) < 0
    ensures var r := CutWords(ws, maxWords);
      r == Join(ws[..maxWords - 1], " ") + "..." && WordCount(r) == if maxWords == 1 then 1 else maxWords - 1
  {
    assert Take(ws, maxWords) == ws[..maxWords];
    assert Take(ws, maxWords - 1) == ws[..maxWords - 1];
    var first := ws[..maxWords - 1];
    DotsAreNoSpace();
    if maxWords == 1 {
      assert Join(first, " ") + "..." == "...";
      SingleWord("...");
    } else {
      assert AreWords(first);
      WordCountJoinExtended(first, "...");
    }
  }

  /** A truncated text holds at most `maxWords` words. */
  lemma TruncateWithinBudget(text: string, maxWords: int)
    requires maxWords >= 1
    ensures WordCount(TruncateAtSentenceEnd(text, maxWords)) <= maxWords
  {
    var ws := Words(text);
    if |ws| > maxWords {
      WordsAreWords(text);
      assert AreWords(ws);
      if LastSentenceEnd(Join(ws[..maxWords], " ")) >= 0 {
        CutAtSentenceEnd(ws, maxWords);
      } else {
        CutWithDots(ws, maxWords);
      }
    }
  }

  /** The text `parse` counts: stripped, then one pair of matching outer quotes
      removed and the inside stripped again. */
  function Unquote(text: string): string
  {
    var c := Strip(text);
    if |c| >= 2 && ((c[0] == '"' && c[|c| - 1] == '"') || (c[0] == '\'' && c[|c| - 1] == '\'')) then
      Strip(c[1..|c| - 1])
    else c
  }

  /** A quoted text reads as the text inside the quotes. */
  lemma QuotesRemoved(t: string, q: char)
    requires q == '"' || q == '\''
    ensures Unquote([q] + t + [q]) == Strip(t)
  {
    var x := [q] + t + [q];
    assert x[1..|x| - 1] == t;
    assert x[0] == q && x[|x| - 1] == q;
    StripSolid(x);
  }

  /** `ExecSummaryParser.parse`: too few words raise (and make the caller retry);
      too many are truncated at a sentence end; otherwise the unquoted text. */
  function ParseExecSummary(text: string, minWords: int, maxWords: int): (r: Result<string>)
    ensures r.Err? <==> WordCount(Unquote(text)) < minWords
    ensures r.Ok? && WordCount(Unquote(text)) <= maxWords ==> r.value == Unquote(text)
  {
    var cleaned := Unquote(text);
    var n := WordCount(cleaned);
    if n < minWords then Err("Executive summary too short")
    else if n > maxWords then Ok(TruncateAtSentenceEnd(cleaned, maxWords))
    else Ok(cleaned)
  }

  /** An accepted summary never exceeds the word limit. */
  lemma ExecSummaryWithinMax(text: string, minWords: int, maxWords: int)
    requires maxWords >= 1
    ensures ParseExecSummary(text, minWords, maxWords).Ok? ==>
      WordCount(ParseExecSummary(text, minWords, maxWords).value) <= maxWords
  {
    TruncateWithinBudget(Unquote(text), maxWords);
  }

  // ---------------------------------------------------------------------------
  // RiskBulletsParser

  predicate IsMarker(c: char) { c == '-' || c == '•' || c == '*' }

  /** `re.sub(r'^[-•*]\s*', '', line)`: what is left of a trimmed line is
      trimmed, or empty. */
  function StripMarker(l: string): (r: string)
    ensures |r| <= |l|
    ensures Trimmed(l) ==> r == [] || Trimmed(r)
  {
    if l != [] && IsMarker(l[0]) then LStrip(l[1..]) else l
  }

  /** The number of leading digits. */
  function DigitRun(t: string): (n: nat)
    ensures n <= |t|
  {
    if t != [] && IsDigit(t[0]) then 1 + DigitRun(t[1..]) else 0
  }

  /** What follows `t`'s first `d` characters when they are digits followed by a
      period: the rest with its leading blanks removed; otherwise `t` itself. */
  function AfterNumber(t: string, d: nat): (r: string)
    ensures |r| <= |t|
    ensures Trimmed(t) ==> r == [] || Trimmed(r)
  {
    if 1 <= d < |t| && t[d] == '.' then LStrip(t[d + 1..]) else t
  }

  /** `re.sub(r'^\d+\.\s*', '', text)`. */
  function StripNumber(t: string): (r: string)
    ensures |r| <= |t|
    ensures Trimmed(t) ==> r == [] || Trimmed(r)
  {
    AfterNumber(t, DigitRun(t))
  }

  /** A stripped line with its bullet marker, then its numbering, removed: what
      is left of a trimmed line is trimmed, or empty. */
  function BulletText(l: string): (r: string)
    ensures |r| <= |l|
    ensures Trimmed(l) ==> r == [] || Trimmed(r)
  {
    StripNumber(StripMarker(l))
  }

  /** A marked line: the marker and the blanks after it go. */
  lemma MarkedLine(m: char, t: string)
    requires IsMarker(m) && (LStrip(t) == [] || !IsDigit(LStrip(t)[0]))
    ensures BulletText([m] + t) == LStrip(t)
  {
    assert ([m] + t)[1..] == t;
  }

  /** A numbered line: the digits, the period and the blanks after them go. */
  lemma NumberedLine(d: string, t: string)
    requires d != [] && AllDigits(d)
    ensures BulletText(d + ("." + t)) == LStrip(t)
  {
    var x := d + ("." + t);
    DigitRunPrefix(d, "." + t);
    assert x[|d|] == '.' && x[|d| + 1..] == t;
    assert !IsMarker(x[0]);
  }

  lemma {:induction false} DigitRunPrefix(d: string, rest: string)
    requires AllDigits(d) && rest != [] && !IsDigit(rest[0])
    ensures DigitRun(d + rest) == |d|
    decreases |d|
  {
    if d != [] {
      assert (d + rest)[1..] == d[1..] + rest;
      DigitRunPrefix(d[1..], rest);
    } else {
      assert d + rest == rest;
    }
  }

  /** The bullet a line contributes, if any. */
  function LineBullet(line: string): seq<string>
  {
    var l := Strip(line);
    if l == [] then []
    else
      var b := BulletText(l);
      if b == [] then [] else [b]
  }

  /** The bullets of the lines, in order. */
  function LineBullets(lines: seq<string>): seq<string>
  {
    if lines == [] then []
    else LineBullets(lines[..|lines| - 1]) + LineBullet(lines[|lines| - 1])
  }

  /** `[s.strip() for s in parts if s.strip()]`. */
  function NonBlank(parts: seq<string>): seq<string>
  {
    if parts == [] then []
    else
      var p := Strip(parts[|parts| - 1]);
      NonBlank(parts[..|parts| - 1]) + (if p == [] then [] else [p])
  }

  /** `_extract_bullets`: the bullets of the lines, or, when fewer than two, the
      non-blank sentences. */
  function Bullets(text: string): seq<string>
  {
    var lb := LineBullets(SplitOn(text, '\n'));
    if |lb| < 2 then NonBlank(SplitOn(text, '.')) else lb
  }

  /** Every line bullet is trimmed. */
  lemma {:induction false} LineBulletsTrimmed(lines: seq<string>)
    ensures forall k :: 0 <= k < |LineBullets(lines)| ==> Trimmed(LineBullets(lines)[k])
    decreases |lines|
  {
    if lines != [] {
      var init := lines[..|lines| - 1];
      LineBulletsTrimmed(init);
      var l := Strip(lines[|lines| - 1]);
      StripTrimmed(lines[|lines| - 1]);
    }
  }

  lemma {:induction false} NonBlankTrimmed(parts: seq<string>)
    ensures forall k :: 0 <= k < |NonBlank(parts)| ==> Trimmed(NonBlank(parts)[k])
    decreases |parts|
  {
    if parts != [] {
      NonBlankTrimmed(parts[..|parts| - 1]);
      StripTrimmed(parts[|parts| - 1]);
    }
  }

  /** Every extracted bullet is non-empty, with no blank at either end. */
  lemma BulletsTrimmed(text: string)
    ensures forall k :: 0 <= k < |Bullets(text)| ==> Trimmed(Bullets(text)[k])
  {
    LineBulletsTrimmed(SplitOn(text, '\n'));
    NonBlankTrimmed(SplitOn(text, '.'));
  }

  lemma LineBulletsStep(lines: seq<string>, i: nat)
    requires i < |lines|
    ensures LineBullets(lines[..i + 1]) == LineBullets(lines[..i]) + LineBullet(lines[i])
  {
    assert lines[..i + 1][..i] == lines[..i];
  }

  lemma NonBlankStep(parts: seq<string>, i: nat)
    requires i < |parts|
    ensures NonBlank(parts[..i + 1]) == NonBlank(parts[..i]) + (if Strip(parts[i]) == [] then [] else [Strip(parts[i])])
  {
    assert parts[..i + 1][..i] == parts[..i];
  }

  /** `_extract_bullets`, loop by loop. */
  method ExtractBullets(text: string) returns (bullets: seq<string>)
    ensures bullets == Bullets(text)
  {
    var lines := SplitOn(text, '\n');
    bullets := [];
    var i := 0;
    while i < |lines|
      invariant 0 <= i <= |lines|
      invariant bullets == LineBullets(lines[..i])
    {
      LineBulletsStep(lines, i);
      var line := Strip(lines[i]);
      if line != [] {
        var b := BulletText(line);
        if b != [] {
          bullets := bullets + [b];
        }
      }
      i := i + 1;
    }
    assert lines[..i] == lines;
    if |bullets| < 2 {
      bullets := NonBlankParts(SplitOn(text, '.'));
    }
  }

  /** `[s.strip() for s in parts if s.strip()]`, part by part. */
  method NonBlankParts(parts: seq<string>) returns (kept: seq<string>)
    ensures kept == NonBlank(parts)
  {
    kept := [];
    var i := 0;
    while i < |parts|
      invariant 0 <= i <= |parts|
      invariant kept == NonBlank(parts[..i])
    {
      NonBlankStep(parts, i);
      var s := Strip(parts[i]);
      if s != [] {
        kept := kept + [s];
      }
      i := i + 1;
    }
    assert parts[..i] == parts;
  }

  /** The count check of `RiskBulletsParser.parse`: too few bullets raise; too
      many are cut to the first `maxBullets`. */
  function LimitCount(bullets: seq<string>, minBullets: int, maxBullets: int): (r: Result<seq<string>>)
    ensures r.Err? <==> |bullets| < minBullets
    ensures r.Ok? ==> |r.value| <= |bullets| && r.value == bullets[..|r.value|]
    ensures r.Ok? && 0 <= maxBullets ==> |r.value| <= maxBullets
    ensures r.Ok? && minBullets <= maxBullets ==> minBullets <= |r.value|
  {
    if |bullets| < minBullets then Err("Too few risk bullets")
    else if |bullets| > maxBullets then Ok(Take(bullets, maxBullets))
    else Ok(bullets)
  }

  /** What `RiskBulletsParser.parse` returns: the bullets of the stripped text,
      count-checked; each one trimmed. */
  function RiskBulletsOf(text: string, minBullets: int, maxBullets: int): (r: Result<seq<string>>)
    ensures r.Err? <==> |Bullets(Strip(text))| < minBullets
    ensures r.Ok? ==> |r.value| <= |Bullets(Strip(text))| && r.value == Bullets(Strip(text))[..|r.value|]
    ensures r.Ok? ==> forall k :: 0 <= k < |r.value| ==> Trimmed(r.value[k])
  {
    BulletsTrimmed(Strip(text));
    LimitCount(Bullets(Strip(text)), minBullets, maxBullets)
  }

  /** `RiskBulletsParser.parse`. */
  method ParseRiskBullets(text: string, minBullets: int, maxBullets: int) returns (r: Result<seq<string>>)
    ensures r == RiskBulletsOf(text, minBullets, maxBullets)
  {
    var bullets := ExtractBullets(Strip(text));
    if |bullets| < minBullets {
      return Err("Too few risk bullets");
    }
    if |bullets| > maxBullets {
      bullets := Take(bullets, maxBullets);
    }
    return Ok(bullets);
  }

  // ---------------------------------------------------------------------------
  // Retry, then fall back

  /** The attempts `range(max_retries + 1)` allows. */
  function Attempts(maxRetries: int): nat
  {
    if maxRetries < 0 then 0 else maxRetries + 1
  }

  /** The first of the first `n` attempts that succeeds. */
  function FirstOk<T>(outcome: nat -> Result<T>, n: nat): (r: Option<nat>)
    ensures r.Some? ==> r.value < n && outcome(r.value).Ok? && forall j :: 0 <= j < r.value ==> outcome(j).Err?
    ensures r.None? ==> forall j :: 0 <= j < n ==> outcome(j).Err?
  {
    if n == 0 then None
    else match FirstOk(outcome, n - 1)
      case Some(k) => Some(k)
      case None => if outcome(n - 1).Ok? then Some(n - 1) else None
  }

  /** Once an attempt succeeds after failures only, it stays the first success. */
  lemma {:induction false} FirstOkFound<T>(outcome: nat -> Result<T>, i: nat, n: nat)
    requires i < n && FirstOk(outcome, i) == None && outcome(i).Ok?
    ensures FirstOk(outcome, n) == Some(i)
    decreases n
  {
    if n - 1 > i {
      FirstOkFound(outcome, i, n - 1);
    }
  }

  /** One risk-bullets attempt: the text handed to the parser, parsed. */
  function BulletAttempts(fed: nat -> Result<string>, minBullets: int, maxBullets: int): nat -> Result<seq<string>>
  {
    (k: nat) => if fed(k).Err? then Err(fed(k).msg) else RiskBulletsOf(fed(k).value, minBullets, maxBullets)
  }

  /** `generate_risk_bullets`: the chain is invoked until an attempt parses, at
      most `max_retries + 1` times; when none does, the three fixed bullets.
      `fed(k)` is what the k-th chain call hands to the parser, `Err` when the
      call raises before that. */
  method GenerateRiskBullets(fed: nat -> Result<string>, maxRetries: int, minBullets: int, maxBullets: int)
    returns (bullets: seq<string>, calls: nat)
    ensures calls <= Attempts(maxRetries)
    ensures match FirstOk(BulletAttempts(fed, minBullets, maxBullets), Attempts(maxRetries))
      case Some(k) => calls == k + 1 && Ok(bullets) == BulletAttempts(fed, minBullets, maxBullets)(k)
      case None => calls == Attempts(maxRetries) && bullets == FallbackBullets
  {
    ghost var outcome := BulletAttempts(fed, minBullets, maxBullets);
    calls := 0;
    var attempt := 0;
    while attempt < Attempts(maxRetries)
      invariant attempt <= Attempts(maxRetries) && calls == attempt
      invariant FirstOk(outcome, attempt) == None
    {
      calls := calls + 1;
      var text := fed(attempt);
      if text.Ok? {
        var result := ParseRiskBullets(text.value, minBullets, maxBullets);
        if result.Ok? {
          FirstOkFound(outcome, attempt, Attempts(maxRetries));
          return result.value, calls;
        }
      }
      assert outcome(attempt).Err?;
      attempt := attempt + 1;
    }
    return FallbackBullets, calls;
  }

  /** The risk bullets are the fixed three, or between the limits and trimmed. */
  lemma RiskBulletsShape(fed: nat -> Result<string>, maxRetries: int, minBullets: int, maxBullets: int, bullets: seq<string>)
    requires 0 <= minBullets <= maxBullets
    requires (bullets == FallbackBullets ||
      exists k :: 0 <= k < Attempts(maxRetries) && BulletAttempts(fed, minBullets, maxBullets)(k) == Ok(bullets))
    ensures (bullets == FallbackBullets ||
      (minBullets <= |bullets| <= maxBullets && forall j :: 0 <= j < |bullets| ==> Trimmed(bullets[j])))
  {
    if bullets != FallbackBullets {
      var k :| 0 <= k < Attempts(maxRetries) && BulletAttempts(fed, minBullets, maxBullets)(k) == Ok(bullets);
      assert fed(k).Ok?;
    }
  }
}
