// String helpers with Python's semantics, restricted to ASCII character classes:
// `str.upper`/`str.lower`, `str.strip`, `str.split()`, `str.split(c)`, `sep.join`,
// `in` on strings, `str.rfind`, `str.zfill` and string ordering.
module Text {

  predicate IsDigit(c: char) { '0' <= c <= '9' }
  predicate IsUpper(c: char) { 'A' <= c <= 'Z' }
  predicate IsLower(c: char) { 'a' <= c <= 'z' }
  predicate IsAlpha(c: char) { IsUpper(c) || IsLower(c) }
  /** Python's `\w` on ASCII text. */
  predicate IsWordChar(c: char) { IsAlpha(c) || IsDigit(c) || c == '_' }
  /** Python's `str.isspace` on ASCII: space, \t, \n, \x0b, \x0c, \r and the separators
      \x1c to \x1f. */
  predicate IsSpace(c: char) { c == ' ' || ('\t' <= c <= '\r') || (28 <= c as int <= 31) }

  function ToUpper(c: char): char { if IsLower(c) then (c as int - 32) as char else c }
  function ToLower(c: char): char { if IsUpper(c) then (c as int + 32) as char else c }

  function Upper(s: string): (r: string)
    ensures |r| == |s| && forall i :: 0 <= i < |s| ==> r[i] == ToUpper(s[i])
  {
    if s == [] then [] else [ToUpper(s[0])] + Upper(s[1..])
  }

  function Lower(s: string): (r: string)
    ensures |r| == |s| && forall i :: 0 <= i < |s| ==> r[i] == ToLower(s[i])
  {
    if s == [] then [] else [ToLower(s[0])] + Lower(s[1..])
  }

  predicate AllDigits(s: string) { forall i :: 0 <= i < |s| ==> IsDigit(s[i]) }
  predicate AllAlpha(s: string) { forall i :: 0 <= i < |s| ==> IsAlpha(s[i]) }

  predicate StartsWith(s: string, p: string) { |p| <= |s| && s[..|p|] == p }
  predicate EndsWith(s: string, p: string) { |p| <= |s| && s[|s| - |p|..] == p }

  /** Python's `sub in s`. */
  predicate Contains(s: string, sub: string)
    decreases |s|
  {
    StartsWith(s, sub) || (|s| > 0 && Contains(s[1..], sub))
  }

  /** A string holding `sub` holds each of its characters. */
  lemma {:induction false} ContainsChars(s: string, sub: string, c: char)
    requires Contains(s, sub) && c in sub
    ensures c in s
    decreases |s|
  {
    if StartsWith(s, sub) {
      var i :| 0 <= i < |sub| && sub[i] == c;
      assert s[i] == c;
    } else {
      ContainsChars(s[1..], sub, c);
    }
  }

  /** A string holding `a + b` holds `a`. */
  lemma {:induction false} ContainsPrefix(s: string, a: string, b: string)
    requires Contains(s, a + b)
    ensures Contains(s, a)
    decreases |s|
  {
    if StartsWith(s, a + b) {
      assert s[..|a|] == (a + b)[..|a|] == a;
    } else {
      ContainsPrefix(s[1..], a, b);
    }
  }

  /** The words of `words` that occur in `s` as substrings, in list order. */
  function Occurring(words: seq<string>, s: string): (r: seq<string>)
    ensures |r| <= |words|
    ensures forall w :: w in r <==> w in words && Contains(s, w)
  {
    if words == [] then []
    else
      var init := Occurring(words[..|words| - 1], s);
      var last := words[|words| - 1];
      assert words == words[..|words| - 1] + [last];
      if Contains(s, last) then init + [last] else init
  }

  /** The loop `for w in words: if w in s: found.append(w)`. */
  method CollectOccurring(words: seq<string>, s: string) returns (found: seq<string>)
    ensures found == Occurring(words, s)
  {
    found := [];
    var i := 0;
    while i < |words|
      invariant 0 <= i <= |words|
      invariant found == Occurring(words[..i], s)
    {
      assert words[..i + 1][..i] == words[..i];
      if Contains(s, words[i]) {
        found := found + [words[i]];
      }
      i := i + 1;
    }
    assert words[..|words|] == words;
  }

  predicate HasChar(s: string, c: char) { c in s }

  /** Python's `s.find(c)`: the first index of `c`, or -1. */
  function IndexOf(s: string, c: char): (r: int)
    ensures -1 <= r < |s|
    ensures r >= 0 ==> s[r] == c && c !in s[..r]
    ensures r < 0 <==> c !in s
  {
    if s == [] then -1
    else if s[0] == c then 0
    else var k := IndexOf(s[1..], c); if k < 0 then -1 else k + 1
  }

  /** Python's `s.rfind(c)`: the last index of `c`, or -1. */
  function RFind(s: string, c: char): (r: int)
    ensures -1 <= r < |s|
    ensures r >= 0 ==> s[r] == c && c !in s[r + 1..]
    ensures r < 0 <==> c !in s
  {
    if s == [] then -1
    else if s[|s| - 1] == c then |s| - 1
    else RFind(s[..|s| - 1], c)
  }

  function LStrip(s: string): (r: string)
    ensures |r| <= |s| && r == s[|s| - |r|..]
    ensures r == [] || !IsSpace(r[0])
  {
    if |s| > 0 && IsSpace(s[0]) then LStrip(s[1..]) else s
  }

  function RStrip(s: string): (r: string)
    ensures |r| <= |s| && r == s[..|r|]
    ensures r == [] || !IsSpace(r[|r| - 1])
  {
    if |s| > 0 && IsSpace(s[|s| - 1]) then RStrip(s[..|s| - 1]) else s
  }

  /** Python's `s.strip()`. */
  function Strip(s: string): string { RStrip(LStrip(s)) }

  /** Number of leading characters of `t` that are not whitespace. */
  function RunLength(t: string): (n: nat)
    ensures n <= |t|
    ensures forall i :: 0 <= i < n ==> !IsSpace(t[i])
    ensures n < |t| ==> IsSpace(t[n])
  {
    if t == [] || IsSpace(t[0]) then 0 else 1 + RunLength(t[1..])
  }

  /** Python's `s.split()`: the maximal runs of non-whitespace characters. */
  function Words(s: string): (ws: seq<string>)
    decreases |s|
  {
    var t := LStrip(s);
    if t == [] then []
    else
      var n := RunLength(t);
      [t[..n]] + Words(t[n..])
  }

  function WordCount(s: string): nat { |Words(s)| }

  /** Python's `sep.join(parts)`. */
  function Join(parts: seq<string>, sep: string): string
  {
    if |parts| == 0 then ""
    else if |parts| == 1 then parts[0]
    else parts[0] + sep + Join(parts[1..], sep)
  }

  /** Python's `s.split(c)` for a one-character separator. */
  function SplitOn(s: string, c: char): (r: seq<string>)
    ensures |r| >= 1
    ensures forall k :: 0 <= k < |r| ==> c !in r[k]
    decreases |s|
  {
    var i := IndexOf(s, c);
    if i < 0 then [s]
    else
      var rest := SplitOn(s[i + 1..], c);
      ConsFree(s[..i], rest, c);
      [s[..i]] + rest
  }

  lemma ConsFree(x: string, rest: seq<string>, c: char)
    requires c !in x && forall k :: 0 <= k < |rest| ==> c !in rest[k]
    ensures forall k :: 0 <= k < |[x] + rest| ==> c !in ([x] + rest)[k]
  {
    var r := [x] + rest;
    forall k | 0 <= k < |r| ensures c !in r[k] {
      if k > 0 { assert r[k] == rest[k - 1]; }
    }
  }

  /** Python's `s.replace(old, new)`, leftmost non-overlapping occurrences. */
  function ReplaceAll(s: string, pat: string, rep: string): string
    requires |pat| > 0
    decreases |s|
  {
    if |s| < |pat| then s
    else if s[..|pat|] == pat then rep + ReplaceAll(s[|pat|..], pat, rep)
    else [s[0]] + ReplaceAll(s[1..], pat, rep)
  }

  /** Every occurrence of character `c` replaced by `d`. */
  function MapChar(s: string, c: char, d: char): (r: string)
    ensures |r| == |s|
    ensures forall i :: 0 <= i < |s| ==> r[i] == (if s[i] == c then d else s[i])
  {
    if s == [] then [] else [if s[0] == c then d else s[0]] + MapChar(s[1..], c, d)
  }

  /** Python's `s.replace(c, '')`. */
  function RemoveChar(s: string, c: char): (r: string)
    ensures c !in r
    ensures |r| <= |s|
  {
    if s == [] then [] else (if s[0] == c then [] else [s[0]]) + RemoveChar(s[1..], c)
  }

  lemma DigitsConcat(a: string, b: string)
    requires AllDigits(a) && AllDigits(b)
    ensures AllDigits(a + b)
  {
    forall i | 0 <= i < |a + b| ensures IsDigit((a + b)[i]) {
      if i >= |a| { assert (a + b)[i] == b[i - |a|]; }
    }
  }

  lemma {:induction false} RemoveCharAppend(x: string, y: string, c: char)
    ensures RemoveChar(x + y, c) == RemoveChar(x, c) + RemoveChar(y, c)
  {
    if x == [] {
      assert x + y == y;
    } else {
      var h := if x[0] == c then [] else [x[0]];
      assert (x + y)[0] == x[0] && (x + y)[1..] == x[1..] + y;
      RemoveCharAppend(x[1..], y, c);
      assert RemoveChar(x + y, c) == h + (RemoveChar(x[1..], c) + RemoveChar(y, c));
    }
  }

  lemma {:induction false} RemoveAbsent(s: string, c: char)
    requires c !in s
    ensures RemoveChar(s, c) == s
  {
    if s != [] {
      RemoveAbsent(s[1..], c);
    }
  }

  /** Removing `c` from `a + [m] + b` keeps the separator `m` unless it is `c` itself. */
  lemma RemoveInner(a: string, b: string, c: char, m: char)
    requires c !in a && c !in b
    ensures RemoveChar(a + [m] + b, c) == a + RemoveChar([m], c) + b
  {
    RemoveCharAppend(a + [m], b, c);
    RemoveCharAppend(a, [m], c);
    RemoveAbsent(a, c);
    RemoveAbsent(b, c);
  }

  lemma RemoveTrailing(s: string, c: char)
    requires c !in s
    ensures RemoveChar(s + [c], c) == s
  {
    RemoveCharAppend(s, [c], c);
    RemoveAbsent(s, c);
  }

  lemma EndsNotSpaceStripped(s: string)
    requires s != [] && !IsSpace(s[0]) && !IsSpace(s[|s| - 1])
    ensures Strip(s) == s
  {
  }

  function Repeat(c: char, n: nat): (r: string)
    ensures |r| == n && forall i :: 0 <= i < n ==> r[i] == c
  {
    if n == 0 then [] else [c] + Repeat(c, n - 1)
  }

  // ---------------------------------------------------------------- numbers

  function DigitChar(d: nat): (c: char)
    requires d < 10
    ensures IsDigit(c)
  {
    ('0' as int + d) as char
  }

  function DigitValue(c: char): (d: nat)
    requires IsDigit(c)
    ensures d < 10 && DigitChar(d) == c
  {
    c as int - '0' as int
  }

  /** Python's `str(n)` for a non-negative integer. */
  function NatToString(n: nat): (s: string)
    ensures |s| >= 1 && AllDigits(s)
    ensures n >= 10 ==> s[0] != '0'
  {
    if n < 10 then [DigitChar(n)] else NatToString(n / 10) + [DigitChar(n % 10)]
  }

  /** Python's `str(i)` for any integer. */
  function IntToString(i: int): (s: string)
    ensures |s| >= 1
  {
    if i >= 0 then NatToString(i) else "-" + NatToString(-i)
  }

  lemma {:induction false} NatToStringInjective(a: nat, b: nat)
    requires NatToString(a) == NatToString(b)
    ensures a == b
  {
    DigitsValueOfNatToString(a);
    DigitsValueOfNatToString(b);
  }

  lemma IntToStringInjective(a: int, b: int)
    requires IntToString(a) == IntToString(b)
    ensures a == b
  {
    if a >= 0 && b >= 0 {
      NatToStringInjective(a, b);
    } else if a < 0 && b < 0 {
      assert NatToString(-a) == IntToString(a)[1..];
      NatToStringInjective(-a, -b);
    }
  }

  /** `f"{a}{suffix}"` determines `a`. */
  lemma SuffixedIntInjective(a: int, b: int, suffix: string)
    requires IntToString(a) + suffix == IntToString(b) + suffix
    ensures a == b
  {
    var sa, sb := IntToString(a) + suffix, IntToString(b) + suffix;
    assert IntToString(a) == sa[..|sa| - |suffix|];
    assert IntToString(b) == sb[..|sb| - |suffix|];
    IntToStringInjective(a, b);
  }

  /** Python's `int(s)` on a string of ASCII digits. */
  function DigitsValue(s: string): nat
    requires AllDigits(s)
  {
    if s == [] then 0 else 10 * DigitsValue(s[..|s| - 1]) + DigitValue(s[|s| - 1])
  }

  /** `str(n).zfill(w)` for a non-negative integer. */
  function ZeroPad(n: nat, w: nat): (s: string)
    ensures AllDigits(s) && |s| >= w
  {
    var d := NatToString(n);
    if |d| >= w then d else Repeat('0', w - |d|) + d
  }

  lemma {:induction false} DigitsValueOfNatToString(n: nat)
    ensures DigitsValue(NatToString(n)) == n
  {
    if n >= 10 {
      var s := NatToString(n / 10) + [DigitChar(n % 10)];
      assert s[..|s| - 1] == NatToString(n / 10);
      DigitsValueOfNatToString(n / 10);
    }
  }

  /** Place value: the digits of `a` count `Pow10(|b|)` times over in `a + b`. */
  lemma {:induction false} DigitsValueConcat(a: string, b: string)
    requires AllDigits(a) && AllDigits(b)
    ensures AllDigits(a + b)
    ensures DigitsValue(a + b) == DigitsValue(a) * Pow10(|b|) + DigitsValue(b)
    decreases |b|
  {
    DigitsConcat(a, b);
    var s := a + b;
    if b == [] {
      assert s == a;
    } else {
      var b' := b[..|b| - 1];
      var last := DigitValue(b[|b| - 1]);
      assert s[..|s| - 1] == a + b' && s[|s| - 1] == b[|b| - 1];
      DigitsValueConcat(a, b');
      assert DigitsValue(s) == 10 * DigitsValue(a + b') + last;
      PlaceStep(DigitsValue(a), Pow10(|b'|), DigitsValue(b'), last);
    }
  }

  lemma PlaceStep(x: int, p: int, y: int, d: int)
    ensures 10 * (x * p + y) + d == x * (10 * p) + (10 * y + d)
  {
  }

  lemma {:induction false} DigitsValueLeadingZeros(k: nat, d: string)
    requires AllDigits(d)
    ensures AllDigits(Repeat('0', k) + d)
    ensures DigitsValue(Repeat('0', k) + d) == DigitsValue(d)
    decreases |d|
  {
    var s := Repeat('0', k) + d;
    if d == [] {
      assert s == Repeat('0', k);
      ZerosValue(k);
    } else {
      assert s[..|s| - 1] == Repeat('0', k) + d[..|d| - 1];
      DigitsValueLeadingZeros(k, d[..|d| - 1]);
    }
  }

  lemma {:induction false} ZerosValue(k: nat)
    ensures DigitsValue(Repeat('0', k)) == 0
  {
    if k > 0 {
      var s := Repeat('0', k);
      assert s[..|s| - 1] == Repeat('0', k - 1);
      ZerosValue(k - 1);
    }
  }

  /** Reading back a zero-padded number gives the number. */
  lemma {:induction false} ZeroPadValue(n: nat, w: nat)
    ensures DigitsValue(ZeroPad(n, w)) == n
  {
    var d, z := NatToString(n), ZeroPad(n, w);
    DigitsValueOfNatToString(n);
    if |d| < w {
      DigitsValueLeadingZeros(w - |d|, d);
      assert z == Repeat('0', w - |d|) + d;
    } else {
      assert z == d;
    }
  }

  lemma {:induction false} NatToStringLength(n: nat, k: nat)
    requires n < Pow10(k) && k >= 1
    ensures |NatToString(n)| <= k
  {
    if n >= 10 { NatToStringLength(n / 10, k - 1); }
  }

  function Pow10(k: nat): (p: nat)
    ensures p >= 1
  {
    if k == 0 then 1 else 10 * Pow10(k - 1)
  }

  /** A number below 10^w zero-padded to width w has exactly w digits. */
  lemma {:induction false} ZeroPadWidth(n: nat, w: nat)
    requires w >= 1 && n < Pow10(w)
    ensures |ZeroPad(n, w)| == w
  {
    NatToStringLength(n, w);
  }

  // ---------------------------------------------------------------- ordering

  /** Python's `a < b` on strings: lexicographic by code point. */
  predicate LexLess(a: string, b: string)
  {
    if |a| == 0 then |b| > 0
    else if |b| == 0 then false
    else if a[0] != b[0] then a[0] < b[0]
    else LexLess(a[1..], b[1..])
  }

  lemma {:induction false} LexLessIrreflexive(a: string)
    ensures !LexLess(a, a)
  {
    if |a| > 0 { LexLessIrreflexive(a[1..]); }
  }

  lemma {:induction false} LexLessTransitive(a: string, b: string, c: string)
    requires LexLess(a, b) && LexLess(b, c)
    ensures LexLess(a, c)
  {
    if |a| > 0 && |b| > 0 && |c| > 0 && a[0] == b[0] && b[0] == c[0] {
      LexLessTransitive(a[1..], b[1..], c[1..]);
    }
  }

  lemma {:induction false} LexLessTotal(a: string, b: string)
    requires a != b
    ensures LexLess(a, b) || LexLess(b, a)
  {
    if |a| > 0 && |b| > 0 && a[0] == b[0] {
      LexLessTotal(a[1..], b[1..]);
    }
  }

  lemma {:induction false} LexLessAsymmetric(a: string, b: string)
    requires LexLess(a, b)
    ensures !LexLess(b, a)
  {
    if LexLess(b, a) { LexLessTransitive(a, b, a); LexLessIrreflexive(a); }
  }

  /** Two strings with the same prefix compare like what follows it. */
  lemma {:induction false} LexLessCommonPrefix(p: string, a: string, b: string)
    ensures LexLess(p + a, p + b) == LexLess(a, b)
  {
    if |p| > 0 {
      assert (p + a)[1..] == p[1..] + a && (p + b)[1..] == p[1..] + b;
      LexLessCommonPrefix(p[1..], a, b);
    } else {
      assert p + a == a && p + b == b;
    }
  }

  /** Comparing two concatenations whose first parts have the same length compares
      the first parts, then the rest. */
  lemma {:induction false} LexLessConcat(a1: string, b1: string, a2: string, b2: string)
    requires |a1| == |a2|
    ensures LexLess(a1 + b1, a2 + b2) <==> LexLess(a1, a2) || (a1 == a2 && LexLess(b1, b2))
  {
    if |a1| == 0 {
      assert a1 + b1 == b1 && a2 + b2 == b2;
    } else {
      assert (a1 + b1)[1..] == a1[1..] + b1 && (a2 + b2)[1..] == a2[1..] + b2;
      LexLessConcat(a1[1..], b1, a2[1..], b2);
      if a1[0] == a2[0] && a1[1..] == a2[1..] {
        assert a1 == [a1[0]] + a1[1..] && a2 == [a2[0]] + a2[1..];
      }
    }
  }

  /** Digit strings of one length compare like the numbers they spell. */
  lemma {:induction false} DigitsLexOrder(s: string, t: string)
    requires AllDigits(s) && AllDigits(t) && |s| == |t|
    ensures LexLess(s, t) <==> DigitsValue(s) < DigitsValue(t)
    decreases |s|
  {
    if |s| == 0 {
    } else {
      var n := |s| - 1;
      var s', t' := s[..n], t[..n];
      assert s == s' + [s[n]] && t == t' + [t[n]];
      LexLessConcat(s', [s[n]], t', [t[n]]);
      DigitsLexOrder(s', t');
      DigitsLexOrder(t', s');
      if !LexLess(s', t') && !LexLess(t', s') && s' != t' {
        LexLessTotal(s', t');
      }
    }
  }

  lemma {:induction false} NatToStringLengthAtLeast(n: nat, k: nat)
    requires k >= 1 && n >= Pow10(k - 1)
    ensures |NatToString(n)| >= k
  {
    if k > 1 { NatToStringLengthAtLeast(n / 10, k - 1); }
  }

  lemma {:induction false} DigitsValueBound(s: string)
    requires AllDigits(s)
    ensures DigitsValue(s) < Pow10(|s|)
  {
    if s != [] { DigitsValueBound(s[..|s| - 1]); }
  }

  /** Zero-padding the value of a digit string to its own width gives it back. */
  lemma ZeroPadOfDigits(s: string)
    requires AllDigits(s) && |s| >= 1
    ensures ZeroPad(DigitsValue(s), |s|) == s
  {
    var n := DigitsValue(s);
    DigitsValueBound(s);
    ZeroPadWidth(n, |s|);
    ZeroPadValue(n, |s|);
    var z := ZeroPad(n, |s|);
    DigitsLexOrder(s, z);
    DigitsLexOrder(z, s);
    if z != s { LexLessTotal(z, s); }
  }

  // ---------------------------------------------------------------- spacing

  predicate NoSpace(w: string) { forall i :: 0 <= i < |w| ==> !IsSpace(w[i]) }

  /** No whitespace at either end, and every inner whitespace is a single ' ' between two non-blanks. */
  predicate WellSpaced(s: string)
  {
    forall i :: 0 <= i < |s| && IsSpace(s[i]) ==> s[i] == ' ' && 0 < i < |s| - 1 && !IsSpace(s[i - 1]) && !IsSpace(s[i + 1])
  }

  /** `s.split()` yields non-empty words without whitespace. */
  lemma {:induction false} WordsAreWords(s: string)
    ensures forall k :: 0 <= k < |Words(s)| ==> Words(s)[k] != [] && NoSpace(Words(s)[k])
    decreases |s|
  {
    var t := LStrip(s);
    if t != [] {
      var n := RunLength(t);
      WordsAreWords(t[n..]);
      var ws, rest := Words(s), Words(t[n..]);
      assert ws == [t[..n]] + rest;
      forall k | 0 <= k < |ws| ensures ws[k] != [] && NoSpace(ws[k]) {
        if k > 0 { assert ws[k] == rest[k - 1]; }
      }
    }
  }

  /** Joining such words with single spaces gives a well-spaced string. */
  lemma {:induction false} JoinWellSpaced(ws: seq<string>)
    requires forall k :: 0 <= k < |ws| ==> ws[k] != [] && NoSpace(ws[k])
    ensures WellSpaced(Join(ws, " "))
    ensures ws != [] ==> Join(ws, " ") != [] && !IsSpace(Join(ws, " ")[0])
    decreases |ws|
  {
    if |ws| >= 2 {
      JoinWellSpaced(ws[1..]);
      var a := ws[0];
      var b := Join(ws[1..], " ");
      var j := a + " " + b;
      assert Join(ws, " ") == j;
      forall i | 0 <= i < |j| && IsSpace(j[i])
        ensures j[i] == ' ' && 0 < i < |j| - 1 && !IsSpace(j[i - 1]) && !IsSpace(j[i + 1])
      {
        if i < |a| {
          assert false;
        } else if i == |a| {
          assert j[i - 1] == a[|a| - 1] && j[i + 1] == b[0];
        } else {
          assert j[i] == b[i - |a| - 1];
          assert j[i - 1] == (if i - 1 == |a| then ' ' else b[i - |a| - 2]);
          assert j[i + 1] == b[i - |a|];
        }
      }
    }
  }

  /** `' '.join(s.split())`: whitespace runs collapsed to one space, ends trimmed. */
  function CollapseSpaces(s: string): (r: string)
    ensures WellSpaced(r)
  {
    WordsAreWords(s);
    JoinWellSpaced(Words(s));
    Join(Words(s), " ")
  }

  // ---------------------------------------------------------------- word counts

  /** A leading space does not change `s.split()`. */
  lemma LeadingSpaceWords(x: string)
    ensures Words(" " + x) == Words(x)
  {
    assert (" " + x)[1..] == x;
    assert LStrip(" " + x) == LStrip(x);
  }

  /** A word followed by whitespace (or nothing) is a run of that word's length. */
  lemma RunLengthWord(w: string, x: string)
    requires NoSpace(w) && (x == [] || IsSpace(x[0]))
    ensures RunLength(w + x) == |w|
  {
    var t := w + x;
    assert forall i :: 0 <= i < |w| ==> t[i] == w[i];
    assert x != [] ==> t[|w|] == x[0];
  }

  /** A word, a space, then more text: the word comes first in `split()`. */
  lemma WordThenText(w: string, rest: string)
    requires w != [] && NoSpace(w)
    ensures Words(w + (" " + rest)) == [w] + Words(rest)
  {
    var j := w + (" " + rest);
    assert j[0] == w[0];
    assert LStrip(j) == j;
    RunLengthWord(w, " " + rest);
    assert j[..|w|] == w && j[|w|..] == " " + rest;
    LeadingSpaceWords(rest);
  }

  lemma SingleWord(w: string)
    requires w != [] && NoSpace(w)
    ensures Words(w) == [w]
  {
    assert LStrip(w) == w;
    RunLengthWord(w, []);
    assert w + [] == w;
    assert w[..|w|] == w && w[|w|..] == [];
    assert Words([]) == [];
  }

  lemma JoinHead(ws: seq<string>)
    requires |ws| >= 2
    ensures Join(ws, " ") == ws[0] + (" " + Join(ws[1..], " "))
  {
  }

  /** Words joined by single spaces count as that many words. */
  lemma {:induction false} WordCountOfJoin(ws: seq<string>)
    requires forall k :: 0 <= k < |ws| ==> ws[k] != [] && NoSpace(ws[k])
    ensures WordCount(Join(ws, " ")) == |ws|
    decreases |ws|
  {
    if |ws| == 1 {
      SingleWord(ws[0]);
    } else if |ws| >= 2 {
      WordCountOfJoin(ws[1..]);
      JoinHead(ws);
      WordThenText(ws[0], Join(ws[1..], " "));
    }
  }

  /** What `LStripPrefix` states, for one text and one length. */
  ghost predicate StripsToPrefix(s: string, n: nat)
    requires n <= |s|
  {
    var k := |s| - |LStrip(s)|;
    LStrip(s[..n]) == if n <= k then [] else s[k..n]
  }

  lemma StripsToPrefixSpace(s: string, n: nat)
    requires 0 < n <= |s| && IsSpace(s[0])
    requires StripsToPrefix(s[1..], n - 1)
    ensures StripsToPrefix(s, n)
  {
    var s1 := s[1..];
    assert LStrip(s[..n]) == LStrip(s1[..n - 1]) by {
      assert s[..n][1..] == s1[..n - 1];
    }
    assert LStrip(s) == LStrip(s1);
    var k := |s| - |LStrip(s)|;
    if n > k {
      assert s1[k - 1..n - 1] == s[k..n];
    }
  }

  lemma StripsToPrefixSolid(s: string, n: nat)
    requires n <= |s| && (n == 0 || !IsSpace(s[0]))
    ensures StripsToPrefix(s, n)
  {
    if n > 0 {
      assert LStrip(s) == s;
      assert LStrip(s[..n]) == s[..n];
      assert s[0..n] == s[..n];
    } else {
      assert s[..n] == [];
    }
  }

  /** Stripping a prefix of `s`: its leading blanks are those of `s`, up to its length. */
  lemma {:induction false} LStripPrefix(s: string, n: nat)
    requires n <= |s|
    ensures StripsToPrefix(s, n)
    decreases |s|
  {
    if n > 0 && IsSpace(s[0]) {
      LStripPrefix(s[1..], n - 1);
      StripsToPrefixSpace(s, n);
    } else {
      StripsToPrefixSolid(s, n);
    }
  }

  lemma RunLengthPrefix(t: string, m: nat)
    requires m <= |t|
    ensures RunLength(t[..m]) == if RunLength(t) < m then RunLength(t) else m
  {
    assert forall i :: 0 <= i < m ==> t[..m][i] == t[i];
  }

  /** `split()` of a text that does not start blank: its first run, then the rest. */
  lemma CountUnfold(s: string)
    requires LStrip(s) != []
    ensures WordCount(s) == 1 + WordCount(LStrip(s)[RunLength(LStrip(s))..])
  {
  }

  lemma BlankNoWords(s: string)
    requires LStrip(s) == []
    ensures WordCount(s) == 0
  {
  }

  lemma SlicePrefix(t: string, r: nat, m: nat)
    requires r <= m <= |t|
    ensures t[..m][r..] == t[r..][..m - r]
  {
  }

  /** The prefix of `s` of length `n` strips to a prefix of `LStrip(s)`. */
  lemma StrippedPrefix(s: string, n: nat)
    requires |s| - |LStrip(s)| < n <= |s|
    ensures LStrip(s[..n]) == LStrip(s)[..n - (|s| - |LStrip(s)|)]
  {
    LStripPrefix(s, n);
  }

  /** A prefix that ends inside the first word holds one word. */
  lemma PrefixInFirstWord(s: string, n: nat)
    requires |s| - |LStrip(s)| < n <= |s|
    requires RunLength(LStrip(s)) >= n - (|s| - |LStrip(s)|)
    ensures WordCount(s[..n]) == 1 && WordCount(s) >= 1
  {
    var t := LStrip(s);
    var m := n - (|s| - |t|);
    StrippedPrefix(s, n);
    RunLengthPrefix(t, m);
    CountUnfold(s);
    CountUnfold(s[..n]);
    assert t[..m][m..] == [];
    BlankNoWords(t[..m][m..]);
  }

  /** A prefix that ends past the first word: the same first word, then a prefix of the rest. */
  lemma PrefixPastFirstWord(s: string, n: nat)
    requires |s| - |LStrip(s)| < n <= |s|
    requires RunLength(LStrip(s)) < n - (|s| - |LStrip(s)|)
    ensures var t := LStrip(s); var r := RunLength(t);
      WordCount(s[..n]) == 1 + WordCount(t[r..][..n - (|s| - |t|) - r]) && WordCount(s) == 1 + WordCount(t[r..])
  {
    var t := LStrip(s);
    var m := n - (|s| - |t|);
    var r := RunLength(t);
    StrippedPrefix(s, n);
    RunLengthPrefix(t, m);
    CountUnfold(s);
    CountUnfold(s[..n]);
    SlicePrefix(t, r, m);
  }

  lemma PrefixBlank(s: string, n: nat)
    requires n <= |s| - |LStrip(s)|
    ensures WordCount(s[..n]) == 0
  {
    LStripPrefix(s, n);
    BlankNoWords(s[..n]);
  }

  /** A prefix of a text has no more words than the text. */
  lemma {:induction false} WordCountPrefix(s: string, n: nat)
    requires n <= |s|
    ensures WordCount(s[..n]) <= WordCount(s)
    decreases |s|
  {
    var t := LStrip(s);
    var k := |s| - |t|;
    if n <= k {
      PrefixBlank(s, n);
    } else if RunLength(t) >= n - k {
      PrefixInFirstWord(s, n);
    } else {
      var r := RunLength(t);
      PrefixPastFirstWord(s, n);
      WordCountPrefix(t[r..], n - k - r);
    }
  }

  /** The parts with `x` appended to the last one. */
  function ExtendLast(ws: seq<string>, x: string): (r: seq<string>)
    requires |ws| >= 1
    ensures |r| == |ws| && r[|r| - 1] == ws[|ws| - 1] + x
    ensures forall k :: 0 <= k < |ws| - 1 ==> r[k] == ws[k]
  {
    ws[..|ws| - 1] + [ws[|ws| - 1] + x]
  }

  lemma ExtendLastTail(ws: seq<string>, x: string)
    requires |ws| >= 2
    ensures ExtendLast(ws, x)[1..] == ExtendLast(ws[1..], x)
  {
  }

  /** Appending to the joined text appends to its last part. */
  lemma {:induction false} JoinExtendLast(ws: seq<string>, x: string, sep: string)
    requires |ws| >= 1
    ensures Join(ExtendLast(ws, x), sep) == Join(ws, sep) + x
    decreases |ws|
  {
    var e := ExtendLast(ws, x);
    if |ws| >= 2 {
      ExtendLastTail(ws, x);
      JoinExtendLast(ws[1..], x, sep);
      assert Join(e, sep) == ws[0] + sep + (Join(ws[1..], sep) + x);
    }
  }

  /** Words joined by single spaces, with non-blank text glued to the last one, count the same. */
  lemma WordCountJoinExtended(ws: seq<string>, x: string)
    requires |ws| >= 1 && forall k :: 0 <= k < |ws| ==> ws[k] != [] && NoSpace(ws[k])
    requires NoSpace(x)
    ensures WordCount(Join(ws, " ") + x) == |ws|
  {
    ExtendedWords(ws, x);
    JoinExtendLast(ws, x, " ");
    WordCountOfJoin(ExtendLast(ws, x));
  }

  lemma ExtendedWords(ws: seq<string>, x: string)
    requires |ws| >= 1 && forall k :: 0 <= k < |ws| ==> ws[k] != [] && NoSpace(ws[k])
    requires NoSpace(x)
    ensures forall k :: 0 <= k < |ws| ==> ExtendLast(ws, x)[k] != [] && NoSpace(ExtendLast(ws, x)[k])
  {
    var w := ws[|ws| - 1];
    assert forall i :: 0 <= i < |w + x| ==> (w + x)[i] == (if i < |w| then w[i] else x[i - |w|]);
  }

  /** The first `n` words of a text are non-blank and hold no whitespace. */
  lemma FirstWordsAreWords(text: string, n: nat)
    requires n <= WordCount(text)
    ensures forall k :: 0 <= k < n ==> Words(text)[..n][k] != [] && NoSpace(Words(text)[..n][k])
  {
    WordsAreWords(text);
  }

  lemma DotsAreNoSpace()
    ensures NoSpace("...")
  {
    var d := "...";
    assert d[0] == '.' && d[1] == '.' && d[2] == '.';
  }
}
