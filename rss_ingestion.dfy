// News ingestion from RSS feeds (sentiment/rss_ingestion.py): URL canonicalisation
// and its hash, ticker hints drawn from a headline, the per-entry checks that turn
// a feed entry into a news item, the relevance filter and the news-item validator.
// Fetching feeds, feed parsing, the clock, SHA-256 and the free-form date parser are
// outside the model; the last three are parameters.
module RssIngestion {
  import opened Wrappers
  import opened Text
  import opened Dates

  // ---------------------------------------------------------------------------
  // normalize_url

  const TrackingParams: seq<string> := [
    "utm_source", "utm_medium", "utm_campaign", "utm_content", "utm_term",
    "ref", "referrer", "source", "campaign", "fbclid", "gclid"]

  /** `param.split('=', 1)[0]`. */
  function ParamKey(p: string): string
    requires '=' in p
  {
    p[..IndexOf(p, '=')]
  }

  /** A query parameter survives when it has a value and its key is not a tracking key. */
  predicate KeepParam(p: string, tracking: seq<string>)
  {
    '=' in p && ParamKey(p) !in tracking
  }

  /** `filtered_params`: the surviving parameters, in order. */
  function KeptParams(ps: seq<string>, tracking: seq<string>): (r: seq<string>)
    ensures |r| <= |ps|
    ensures forall k :: 0 <= k < |r| ==> KeepParam(r[k], tracking) && r[k] in ps
    ensures forall x :: x in ps && KeepParam(x, tracking) ==> x in r
    decreases |ps|
  {
    if ps == [] then []
    else
      var init := KeptParams(ps[..|ps| - 1], tracking);
      assert forall x :: x in ps ==> x in ps[..|ps| - 1] || x == ps[|ps| - 1];
      if KeepParam(ps[|ps| - 1], tracking) then init + [ps[|ps| - 1]] else init
  }

  /** `s.split('#')[0]`. */
  function DropFragment(s: string): (r: string)
    ensures '#' !in r && |r| <= |s| && r == s[..|r|]
    ensures '#' !in s ==> r == s
  {
    var i := IndexOf(s, '#');
    if i < 0 then s else s[..i]
  }

  /** The query step: everything after the first `?` is split on `&` and filtered; the `?`
      goes when no parameter survives. */
  function FilterQuery(s: string, tracking: seq<string>): string
  {
    var i := IndexOf(s, '?');
    if i < 0 then s
    else
      WithQuery(s[..i], KeptParams(SplitOn(s[i + 1..], '&'), tracking))
  }

  /** The URL rebuilt from its base and the surviving query parameters. */
  function WithQuery(base: string, kept: seq<string>): string
  {
    if kept == [] then base else base + "?" + Join(kept, "&")
  }

  /** `normalize_url`: strip and lower-case, drop the fragment, filter the query. Nothing
      strips the whitespace left in front of a removed fragment or query part. */
  function NormalizedUrl(url: string, tracking: seq<string>): string
  {
    FilterQuery(DropFragment(Strip(Lower(url))), tracking)
  }

  /** The canonical form `normalize_url` evidently aims at: its result stripped once more. */
  function CanonicalUrl(url: string, tracking: seq<string>): string
  {
    Strip(NormalizedUrl(url, tracking))
  }

  /** As written, normalising twice is not normalising once: the space before a fragment
      survives the first pass and is stripped by the second. */
  lemma AsWrittenNotIdempotent()
    ensures NormalizedUrl("a #b", TrackingParams) == "a "
    ensures NormalizedUrl(NormalizedUrl("a #b", TrackingParams), TrackingParams) == "a"
  {
    AsWrittenKeepsSpace();
    AsWrittenSecondPass();
  }

  lemma AsWrittenKeepsSpace()
    ensures NormalizedUrl("a #b", TrackingParams) == "a "
  {
    var u := "a #b";
    assert Lower(u) == u by { LowerSample(); }
    assert Strip(u) == u by {
      LStripFixed(u);
      RStripFixed(u);
    }
    FragmentSample();
    assert FilterQuery("a ", TrackingParams) == "a " by {
      IndexOfAbsent("a ", '?');
    }
  }

  lemma FragmentSample()
    ensures DropFragment("a #b") == "a "
  {
    var u := "a #b";
    assert u[..2] == "a ";
    IndexOfUnique(u, '#', 2);
  }

  lemma IndexOfAbsent(s: string, c: char)
    requires c !in s
    ensures IndexOf(s, c) == -1
  {
  }

  lemma LowerSample()
    ensures Lower("a #b") == "a #b"
  {
  }

  lemma AsWrittenSecondPass()
    ensures NormalizedUrl("a ", TrackingParams) == "a"
  {
    assert Lower("a ") == "a ";
    LStripFixed("a ");
    assert RStrip("a ") == "a";
    assert IndexOf("a", '#') == -1;
    assert IndexOf("a", '?') == -1;
  }

  /** A second pass of `normalize_url` only strips: it lands on the canonical form. */
  lemma SecondPassCanonical(url: string, tracking: seq<string>)
    ensures NormalizedUrl(NormalizedUrl(url, tracking), tracking) == CanonicalUrl(url, tracking)
  {
    var w := DropFragment(Strip(Lower(url)));
    LowerClean(url);
    StripClean(Lower(url));
    var q := NormalizedUrl(url, tracking);
    FilterQueryShape(w, tracking);
    FilterQueryClean(w, tracking);
    CleanLower(q);
    assert DropFragment(Strip(q)) == Strip(q);
  }

  /** The canonical form is a fixed point of both `normalize_url` and the canonicalisation. */
  lemma CanonicalIdempotent(url: string, tracking: seq<string>)
    ensures NormalizedUrl(CanonicalUrl(url, tracking), tracking) == CanonicalUrl(url, tracking)
    ensures CanonicalUrl(CanonicalUrl(url, tracking), tracking) == CanonicalUrl(url, tracking)
  {
    var w := DropFragment(Strip(Lower(url)));
    LowerClean(url);
    StripClean(Lower(url));
    var v := CanonicalUrl(url, tracking);
    FilterQueryShape(w, tracking);
    CleanLower(v);
    StripIdempotent(FilterQuery(w, tracking));
    assert Strip(Lower(v)) == v;
    assert DropFragment(v) == v;
  }

  // Helpers for the fixed-point proof.

  /** No upper-case letter and no `#`. */
  predicate Clean(s: string)
  {
    forall i :: 0 <= i < |s| ==> !IsUpper(s[i]) && s[i] != '#'
  }

  lemma LowerClean(url: string)
    ensures forall i :: 0 <= i < |Lower(url)| ==> !IsUpper(Lower(url)[i])
  {
  }

  lemma StripClean(s: string)
    requires forall i :: 0 <= i < |s| ==> !IsUpper(s[i])
    ensures Clean(DropFragment(Strip(s)))
  {
    var t := Strip(s);
    StripNoUpper(s);
    var d := DropFragment(t);
    assert forall i :: 0 <= i < |d| ==> d[i] == t[i];
  }

  lemma StripNoUpper(s: string)
    requires forall i :: 0 <= i < |s| ==> !IsUpper(s[i])
    ensures forall i :: 0 <= i < |Strip(s)| ==> !IsUpper(Strip(s)[i])
  {
    SliceOfStrip(s);
    var a, b :| 0 <= a <= b <= |s| && Strip(s) == s[a..b];
    assert forall i :: 0 <= i < b - a ==> s[a..b][i] == s[a + i];
  }

  lemma CleanLower(v: string)
    requires Clean(v)
    ensures Lower(v) == v
  {
  }

  lemma StripIdempotent(s: string)
    ensures Strip(Strip(s)) == Strip(s)
  {
    var l := LStrip(s);
    var t := RStrip(l);
    if t != [] {
      assert t[0] == l[0];
    }
    LStripFixed(t);
    RStripFixed(t);
  }

  lemma LStripFixed(t: string)
    requires t == [] || !IsSpace(t[0])
    ensures LStrip(t) == t
  {
  }

  lemma RStripFixed(t: string)
    requires t == [] || !IsSpace(t[|t| - 1])
    ensures RStrip(t) == t
  {
  }

  /** The shape of the query step's result once stripped: clean, and either free of `?` or
      a clean base, `?`, and surviving parameters whose last one has lost its trailing
      whitespace; either way the query step leaves it alone. */
  lemma FilterQueryShape(w: string, tracking: seq<string>)
    requires Clean(w)
    ensures Clean(Strip(FilterQuery(w, tracking)))
    ensures FilterQuery(Strip(FilterQuery(w, tracking)), tracking) == Strip(FilterQuery(w, tracking))
  {
    var i := IndexOf(w, '?');
    if i < 0 {
      NoQueryStrip(w, tracking);
    } else {
      var parts := SplitOn(w[i + 1..], '&');
      var kept := KeptParams(parts, tracking);
      SplitOnClean(w[i + 1..], '&');
      assert GoodParams(kept, tracking);
      if kept == [] {
        assert '?' !in w[..i];
        NoQueryStrip(w[..i], tracking);
      } else {
        QueryStrip(w[..i], kept, tracking);
      }
    }
  }

  /** The query step keeps a clean string clean. */
  lemma FilterQueryClean(w: string, tracking: seq<string>)
    requires Clean(w)
    ensures Clean(FilterQuery(w, tracking))
  {
    var i := IndexOf(w, '?');
    if i >= 0 {
      var parts := SplitOn(w[i + 1..], '&');
      var kept := KeptParams(parts, tracking);
      SplitOnClean(w[i + 1..], '&');
      assert forall k :: 0 <= k < |kept| ==> Clean(kept[k]);
      if kept != [] {
        SeparatorsClean();
        JoinClean(kept, "&");
        CleanConcat(w[..i], "?");
        CleanConcat(w[..i] + "?", Join(kept, "&"));
      }
    }
  }

  lemma NoQueryStrip(s: string, tracking: seq<string>)
    requires Clean(s) && '?' !in s
    ensures Clean(Strip(s)) && '?' !in Strip(s)
    ensures FilterQuery(Strip(s), tracking) == Strip(s)
    ensures FilterQuery(s, tracking) == s
  {
    SliceOfStrip(s);
  }

  /** `Strip(s)` is a slice of `s`. */
  lemma SliceOfStrip(s: string)
    ensures exists a, b :: 0 <= a <= b <= |s| && Strip(s) == s[a..b]
  {
    var l := LStrip(s);
    var a := |s| - |l|;
    var t := RStrip(l);
    assert t == s[a..a + |t|];
  }

  /** Parameters as the query step leaves them: clean, free of `&`, and all kept. */
  predicate GoodParams(ps: seq<string>, tracking: seq<string>)
  {
    forall k :: 0 <= k < |ps| ==> Clean(ps[k]) && '&' !in ps[k] && KeepParam(ps[k], tracking)
  }

  lemma QueryStrip(base: string, kept: seq<string>, tracking: seq<string>)
    requires Clean(base) && '?' !in base && kept != []
    requires GoodParams(kept, tracking)
    ensures var v := Strip(base + "?" + Join(kept, "&"));
      Clean(v) && FilterQuery(v, tracking) == v
  {
    var kept' := TrimLastParam(kept, tracking);
    var j := Join(kept, "&");
    StripQuery(base, j);
    LStripKeepsClean(base);
    QueryFixed(LStrip(base), kept', tracking);
  }

  /** Stripping the front of a clean string without a `?` leaves one. */
  lemma LStripKeepsClean(s: string)
    requires Clean(s) && '?' !in s
    ensures Clean(LStrip(s)) && '?' !in LStrip(s)
  {
    var t := LStrip(s);
    assert t == s[|s| - |t|..];
    assert forall i :: 0 <= i < |t| ==> t[i] == s[|s| - |t| + i];
  }

  /** Stripping the end of the joined parameters trims only the last one, which stays a kept
      parameter. */
  lemma TrimLastParam(kept: seq<string>, tracking: seq<string>) returns (kept': seq<string>)
    requires kept != [] && GoodParams(kept, tracking)
    ensures kept' != [] && GoodParams(kept', tracking)
    ensures RStrip(Join(kept, "&")) == Join(kept', "&")
  {
    var n := |kept|;
    var last := kept[n - 1];
    KeepParamRStrip(last, tracking);
    kept' := kept[..n - 1] + [RStrip(last)];
    RStripJoin(kept, "&");
    assert kept'[n - 1] == RStrip(last) == last[..|RStrip(last)|];
  }

  lemma StripQuery(base: string, j: string)
    requires RStrip(j) != []
    ensures Strip(base + "?" + j) == LStrip(base) + "?" + RStrip(j)
  {
    StripQueryFront(base, j);
    StripQueryBack(LStrip(base), j);
    StripOfStripped(base + "?" + j, LStrip(base) + "?" + j, LStrip(base) + "?" + RStrip(j));
  }

  lemma StripQueryFront(base: string, j: string)
    ensures LStrip(base + "?" + j) == LStrip(base) + "?" + j
  {
    var q := "?" + j;
    ConcatAssoc(base, "?", j);
    LStripConcat(base, q);
    ConcatAssoc(LStrip(base), "?", j);
  }

  lemma ConcatAssoc(a: string, b: string, c: string)
    ensures a + b + c == a + (b + c)
  {
  }

  lemma StripQueryBack(b: string, j: string)
    requires RStrip(j) != []
    ensures RStrip(b + "?" + j) == b + "?" + RStrip(j)
  {
    RStripConcat(b + "?", j);
  }

  lemma StripOfStripped(x: string, y: string, z: string)
    requires LStrip(x) == y && RStrip(y) == z
    ensures Strip(x) == z
  {
  }

  lemma QueryFixed(base: string, kept: seq<string>, tracking: seq<string>)
    requires Clean(base) && '?' !in base && kept != []
    requires GoodParams(kept, tracking)
    ensures var v := base + "?" + Join(kept, "&");
      Clean(v) && FilterQuery(v, tracking) == v
  {
    var j := Join(kept, "&");
    var v := base + "?" + j;
    assert v[..|base|] == base;
    IndexOfUnique(v, '?', |base|);
    assert v[|base| + 1..] == j;
    SplitJoin(kept);
    KeptParamsAllKept(kept, tracking);
    QueryClean(base, kept, tracking);
  }

  lemma QueryClean(base: string, kept: seq<string>, tracking: seq<string>)
    requires Clean(base) && GoodParams(kept, tracking)
    ensures Clean(base + "?" + Join(kept, "&"))
  {
    SeparatorsClean();
    JoinClean(kept, "&");
    CleanConcat(base, "?");
    CleanConcat(base + "?", Join(kept, "&"));
  }

  lemma SeparatorsClean()
    ensures Clean("&") && Clean("?")
  {
  }

  lemma CleanConcat(a: string, b: string)
    requires Clean(a) && Clean(b)
    ensures Clean(a + b)
  {
    assert forall i :: |a| <= i < |a + b| ==> (a + b)[i] == b[i - |a|];
  }

  lemma {:induction false} KeptParamsAllKept(ps: seq<string>, tracking: seq<string>)
    requires forall k :: 0 <= k < |ps| ==> KeepParam(ps[k], tracking)
    ensures KeptParams(ps, tracking) == ps
    decreases |ps|
  {
    if ps != [] {
      KeptParamsAllKept(ps[..|ps| - 1], tracking);
    }
  }

  lemma KeepParamRStrip(p: string, tracking: seq<string>)
    requires KeepParam(p, tracking)
    ensures KeepParam(RStrip(p), tracking) && RStrip(p) != []
  {
    var i := IndexOf(p, '=');
    RStripKeepsNonSpace(p, i);
    var r := RStrip(p);
    assert r[i] == '=' && r[..i] == p[..i];
    IndexOfUnique(r, '=', i);
  }

  /** `IndexOf` is the one position holding `c` with no `c` before it. */
  lemma IndexOfUnique(t: string, c: char, r: int)
    requires 0 <= r < |t| && t[r] == c && c !in t[..r]
    ensures IndexOf(t, c) == r
  {
    assert c in t;
  }

  lemma {:induction false} RStripKeepsNonSpace(s: string, j: int)
    requires 0 <= j < |s| && !IsSpace(s[j])
    ensures j < |RStrip(s)|
    decreases |s|
  {
    if IsSpace(s[|s| - 1]) {
      RStripKeepsNonSpace(s[..|s| - 1], j);
    }
  }

  lemma {:induction false} LStripConcat(a: string, b: string)
    requires b != [] && !IsSpace(b[0])
    ensures LStrip(a + b) == LStrip(a) + b
    decreases |a|
  {
    if a == [] {
      assert a + b == b;
    } else {
      assert (a + b)[1..] == a[1..] + b;
      LStripConcat(a[1..], b);
    }
  }

  lemma {:induction false} RStripConcat(a: string, b: string)
    requires RStrip(b) != []
    ensures RStrip(a + b) == a + RStrip(b)
    decreases |b|
  {
    if IsSpace(b[|b| - 1]) {
      assert (a + b)[..|a + b| - 1] == a + b[..|b| - 1];
      RStripConcat(a, b[..|b| - 1]);
    }
  }

  /** Stripping the end of a join only trims its last part, when that part is not all blank. */
  lemma {:induction false} RStripJoin(ps: seq<string>, sep: string)
    requires ps != [] && RStrip(ps[|ps| - 1]) != []
    ensures RStrip(Join(ps, sep)) == Join(ps[..|ps| - 1] + [RStrip(ps[|ps| - 1])], sep)
    ensures RStrip(Join(ps, sep)) != []
    decreases |ps|
  {
    var trimmed := ps[..|ps| - 1] + [RStrip(ps[|ps| - 1])];
    if |ps| >= 2 {
      var rest := ps[1..];
      RStripJoin(rest, sep);
      assert rest[|rest| - 1] == ps[|ps| - 1];
      var restTrimmed := rest[..|rest| - 1] + [RStrip(rest[|rest| - 1])];
      assert ps[0] + sep + Join(rest, sep) == (ps[0] + sep) + Join(rest, sep);
      RStripConcat(ps[0] + sep, Join(rest, sep));
      assert trimmed == [ps[0]] + restTrimmed;
      assert trimmed[1..] == restTrimmed;
      assert Join(trimmed, sep) == ps[0] + sep + Join(restTrimmed, sep);
      JoinNonEmpty(restTrimmed, sep);
    }
  }

  lemma {:induction false} JoinNonEmpty(ps: seq<string>, sep: string)
    requires ps != [] && ps[|ps| - 1] != []
    ensures Join(ps, sep) != []
    decreases |ps|
  {
    if |ps| >= 2 {
      JoinNonEmpty(ps[1..], sep);
    }
  }

  /** Splitting a join on a separator that no part contains gives the parts back. */
  lemma {:induction false} SplitJoin(ps: seq<string>)
    requires ps != [] && forall k :: 0 <= k < |ps| ==> '&' !in ps[k]
    ensures SplitOn(Join(ps, "&"), '&') == ps
    decreases |ps|
  {
    if |ps| == 1 {
      assert IndexOf(ps[0], '&') < 0;
    } else {
      var rest := Join(ps[1..], "&");
      ConcatAssoc(ps[0], "&", rest);
      SplitStep(ps[0], rest);
      SplitJoin(ps[1..]);
      assert ps == [ps[0]] + ps[1..];
    }
  }

  /** Splitting `x & rest` with `x` free of `&` splits off `x`. */
  lemma SplitStep(x: string, rest: string)
    requires '&' !in x
    ensures SplitOn(x + ("&" + rest), '&') == [x] + SplitOn(rest, '&')
  {
    var s := x + ("&" + rest);
    assert s[|x|] == '&' && s[..|x|] == x;
    IndexOfUnique(s, '&', |x|);
    assert s[|x| + 1..] == rest;
  }

  lemma {:induction false} JoinClean(ps: seq<string>, sep: string)
    requires Clean(sep) && forall k :: 0 <= k < |ps| ==> Clean(ps[k])
    ensures Clean(Join(ps, sep))
    decreases |ps|
  {
    if |ps| >= 2 {
      JoinClean(ps[1..], sep);
      var a, b := ps[0] + sep, Join(ps[1..], sep);
      assert Join(ps, sep) == a + b;
      assert forall i :: 0 <= i < |a + b| ==> (a + b)[i] == if i < |a| then a[i] else b[i - |a|];
    }
  }

  lemma {:induction false} SplitOnClean(s: string, c: char)
    requires Clean(s)
    ensures forall k :: 0 <= k < |SplitOn(s, c)| ==> Clean(SplitOn(s, c)[k])
    decreases |s|
  {
    var i := IndexOf(s, c);
    if i >= 0 {
      SplitOnClean(s[i + 1..], c);
      assert SplitOn(s, c) == [s[..i]] + SplitOn(s[i + 1..], c);
    }
  }

  // ---------------------------------------------------------------------------
  // normalize_url as a procedure, and create_url_hash

  /** The parameter loop of `normalize_url`. */
  method FilterParams(pairs: seq<string>, tracking: seq<string>) returns (filtered: seq<string>)
    ensures filtered == KeptParams(pairs, tracking)
  {
    filtered := [];
    var i := 0;
    while i < |pairs|
      invariant i <= |pairs|
      invariant filtered == KeptParams(pairs[..i], tracking)
    {
      assert pairs[..i + 1][..i] == pairs[..i];
      var param := pairs[i];
      if '=' in param {
        var key := param[..IndexOf(param, '=')];
        if key !in tracking {
          filtered := filtered + [param];
        }
      }
      i := i + 1;
    }
    assert pairs[..i] == pairs;
  }

  /** `normalize_url`. Its result is not always a fixed point: a second pass strips it. */
  method NormalizeUrl(url: string) returns (normalized: string)
    ensures normalized == NormalizedUrl(url, TrackingParams)
    ensures NormalizedUrl(normalized, TrackingParams) == CanonicalUrl(url, TrackingParams)
  {
    normalized := Strip(Lower(url));
    normalized := RemoveFragment(normalized);
    normalized := RemoveTrackingParams(normalized, TrackingParams);
    SecondPassCanonical(url, TrackingParams);
  }

  /** The fragment step of `normalize_url`. */
  method RemoveFragment(s: string) returns (r: string)
    ensures r == DropFragment(s)
  {
    r := s;
    if '#' in s {
      r := s[..IndexOf(s, '#')];
    }
  }

  /** The query step of `normalize_url`. */
  method RemoveTrackingParams(s: string, tracking: seq<string>) returns (r: string)
    ensures r == FilterQuery(s, tracking)
  {
    var i := IndexOf(s, '?');
    if i < 0 {
      return s;
    }
    var pairs := SplitOn(s[i + 1..], '&');
    var filtered := FilterParams(pairs, tracking);
    r := WithQuery(s[..i], filtered);
  }

  /** `create_url_hash`: the SHA-256 hex digest (a parameter) of the normalised URL. */
  function CreateUrlHash(url: string, sha256: string -> string): string
  {
    sha256(NormalizedUrl(url, TrackingParams))
  }

  /** Hashing an already normalised URL normalises it a second time, so the digest is that of
      the canonical form; two URLs with the same canonical form share it. */
  lemma UrlHashOfNormalized(url: string, sha256: string -> string)
    ensures CreateUrlHash(NormalizedUrl(url, TrackingParams), sha256) == sha256(CanonicalUrl(url, TrackingParams))
  {
    SecondPassCanonical(url, TrackingParams);
  }

  /** With the canonical form the hash is stable: re-hashing a canonical URL gives the same
      digest as hashing the URL it came from once canonicalised. */
  lemma UrlHashOfCanonical(url: string, sha256: string -> string)
    ensures CreateUrlHash(CanonicalUrl(url, TrackingParams), sha256) == sha256(CanonicalUrl(url, TrackingParams))
  {
    CanonicalIdempotent(url, TrackingParams);
  }

  // ---------------------------------------------------------------------------
  // extract_ticker_hints

  /** The false positives dropped from the hints. */
  const FalsePositives: set<string> := {
    "RSS", "XML", "HTTP", "HTTPS", "WWW", "COM", "NET", "ORG",
    "NEWS", "API", "JSON", "HTML", "PDF", "JPG", "PNG", "GIF",
    "GET", "POST", "PUT", "DELETE", "HEAD", "UTC", "GMT", "EST",
    "PST", "CST", "MST", "EDT", "PDT", "CDT", "MDT"}

  /** Drops the leading characters that are not word characters. */
  function SkipNonWord(s: string): (t: string)
    ensures |t| <= |s| && t == s[|s| - |t|..]
    ensures t == [] || IsWordChar(t[0])
  {
    if s != [] && !IsWordChar(s[0]) then
      var t := SkipNonWord(s[1..]);
      assert s[1..][|s[1..]| - |t|..] == s[|s| - |t|..];
      t
    else s
  }

  /** The length of the leading run of word characters. */
  function WordRunLength(t: string): (n: nat)
    ensures n <= |t|
    ensures forall i :: 0 <= i < n ==> IsWordChar(t[i])
    ensures n < |t| ==> !IsWordChar(t[n])
  {
    if t == [] || !IsWordChar(t[0]) then 0 else 1 + WordRunLength(t[1..])
  }

  predicate IsWord(w: string)
  {
    w != [] && forall i :: 0 <= i < |w| ==> IsWordChar(w[i])
  }

  /** The maximal runs of word characters, left to right. */
  function WordRuns(s: string): (ws: seq<string>)
    ensures forall k :: 0 <= k < |ws| ==> IsWord(ws[k])
    decreases |s|
  {
    var t := SkipNonWord(s);
    if t == [] then []
    else
      var n := WordRunLength(t);
      RunIsWord(t, n);
      var rest := WordRuns(t[n..]);
      AllWordsCons(t[..n], rest);
      [t[..n]] + rest
  }

  lemma AllWordsCons(w: string, ws: seq<string>)
    requires IsWord(w) && forall k :: 0 <= k < |ws| ==> IsWord(ws[k])
    ensures forall k :: 0 <= k < |[w] + ws| ==> IsWord(([w] + ws)[k])
  {
  }

  lemma RunIsWord(t: string, n: nat)
    requires 0 < n <= |t| && forall i :: 0 <= i < n ==> IsWordChar(t[i])
    ensures IsWord(t[..n])
  {
    assert forall i :: 0 <= i < n ==> t[..n][i] == t[i];
  }

  /** One to five capital letters. */
  predicate IsTickerToken(w: string)
  {
    1 <= |w| <= 5 && forall i :: 0 <= i < |w| ==> IsUpper(w[i])
  }

  /** `re.findall(r'\b[A-Z]{1,5}\b', s.upper())`: a match is a whole run of word characters
      made of one to five capitals. */
  function TickerTokens(s: string): (ts: seq<string>)
    ensures forall k :: 0 <= k < |ts| ==> IsTickerToken(ts[k])
  {
    TokensOf(WordRuns(Upper(s)))
  }

  function TokensOf(ws: seq<string>): (ts: seq<string>)
    ensures forall k :: 0 <= k < |ts| ==> IsTickerToken(ts[k])
  {
    if ws == [] then []
    else (if IsTickerToken(ws[0]) then [ws[0]] else []) + TokensOf(ws[1..])
  }

  predicate Qualifies(hint: string, falsePositives: set<string>)
  {
    hint !in falsePositives && |hint| >= 2
  }

  predicate DistinctHints(hs: seq<string>)
  {
    forall i, j :: 0 <= i < j < |hs| ==> hs[i] != hs[j]
  }

  /** The filter-and-deduplicate loop: qualifying tokens, each kept at its first occurrence. */
  function Hints(tokens: seq<string>, falsePositives: set<string>): (hs: seq<string>)
    ensures DistinctHints(hs)
    ensures forall k :: 0 <= k < |hs| ==> hs[k] in tokens && Qualifies(hs[k], falsePositives)
    decreases |tokens|
  {
    if tokens == [] then []
    else
      var init := tokens[..|tokens| - 1];
      var t := tokens[|tokens| - 1];
      var h := Hints(init, falsePositives);
      assert forall x :: x in init ==> x in tokens;
      if Qualifies(t, falsePositives) && t !in h then h + [t] else h
  }

  /** Every qualifying token is among the hints. */
  lemma {:induction false} HintsComplete(tokens: seq<string>, falsePositives: set<string>, t: string)
    requires t in tokens && Qualifies(t, falsePositives)
    ensures t in Hints(tokens, falsePositives)
    decreases |tokens|
  {
    var init := tokens[..|tokens| - 1];
    if t in init {
      HintsComplete(init, falsePositives, t);
    }
  }

  method DedupHints(tokens: seq<string>, falsePositives: set<string>) returns (filtered: seq<string>)
    ensures filtered == Hints(tokens, falsePositives)
  {
    filtered := [];
    var i := 0;
    while i < |tokens|
      invariant i <= |tokens|
      invariant filtered == Hints(tokens[..i], falsePositives)
    {
      assert tokens[..i + 1][..i] == tokens[..i];
      var hint := tokens[i];
      if hint !in falsePositives && |hint| >= 2 {
        if hint !in filtered {
          filtered := filtered + [hint];
        }
      }
      i := i + 1;
    }
    assert tokens[..i] == tokens;
  }

  function HintsOf(title: string, url: string): seq<string>
  {
    var hs := Hints(TickerTokens(title) + TickerTokens(url), FalsePositives);
    if |hs| <= 5 then hs else hs[..5]
  }

  /** `extract_ticker_hints`: at most five distinct tokens of two to five capitals, none a
      false positive, title tokens first. */
  method ExtractTickerHints(title: string, url: string) returns (hints: seq<string>)
    ensures hints == HintsOf(title, url)
    ensures |hints| <= 5 && DistinctHints(hints)
    ensures forall k :: 0 <= k < |hints| ==>
      2 <= |hints[k]| <= 5 && (forall i :: 0 <= i < |hints[k]| ==> IsUpper(hints[k][i])) && hints[k] !in FalsePositives
  {
    var tokens := TickerTokens(title) + TickerTokens(url);
    var filtered := DedupHints(tokens, FalsePositives);
    hints := if |filtered| <= 5 then filtered else filtered[..5];
    assert forall k :: 0 <= k < |hints| ==> hints[k] in tokens;
  }

  /** A qualifying capital word in the title is a hint when fewer than five hints come before
      it; in particular a qualifying first title token is always the first hint. */
  lemma FirstTitleTokenLeads(title: string, url: string)
    requires TickerTokens(title) != [] && Qualifies(TickerTokens(title)[0], FalsePositives)
    ensures HintsOf(title, url) != [] && HintsOf(title, url)[0] == TickerTokens(title)[0]
  {
    var tokens := TickerTokens(title) + TickerTokens(url);
    HintsFirst(tokens, FalsePositives);
  }

  lemma {:induction false} HintsFirst(tokens: seq<string>, falsePositives: set<string>)
    requires tokens != [] && Qualifies(tokens[0], falsePositives)
    ensures Hints(tokens, falsePositives) != [] && Hints(tokens, falsePositives)[0] == tokens[0]
    decreases |tokens|
  {
    if |tokens| > 1 {
      HintsFirst(tokens[..|tokens| - 1], falsePositives);
    }
  }

  // ---------------------------------------------------------------------------
  // process_rss_entry

  /** The attributes of a feed entry that the processing reads; `None` is an absent attribute. */
  datatype Entry = Entry(title: Option<string>, link: Option<string>, publishedParsed: Option<DateTime>,
                         published: Option<string>, summary: Option<string>, description: Option<string>,
                         author: Option<string>)

  datatype NewsItem = NewsItem(urlHash: string, canonicalUrl: string, title: string, body: Option<string>,
                               publishedAt: DateTime, source: string, author: Option<string>,
                               fetchedAt: DateTime, tickerHint: Option<string>)

  /** `getattr(entry, name, '')`. */
  function OrBlank(x: Option<string>): string { if x.Some? then x.value else "" }

  /** The publication time: the parsed structure, else the date string read by `parseDate`
      (which stands for `dateutil`'s parser and fails with `None`), else the current time. */
  function PublishedAt(entry: Entry, parseDate: string -> Option<DateTime>, now: DateTime): DateTime
  {
    if entry.publishedParsed.Some? then entry.publishedParsed.value
    else if entry.published.Some? && parseDate(entry.published.value).Some? then parseDate(entry.published.value).value
    else now
  }

  /** `process_rss_entry`: an entry without a title or link after stripping is dropped; otherwise
      the item holds the stripped title, the canonical link, its hash, and the first hint. The
      current time is `now` (for both the fallback publication time and the fetch time). */
  function ProcessRssEntry(entry: Entry, sourceName: string, parseDate: string -> Option<DateTime>,
                           now: DateTime, sha256: string -> string): (r: Option<NewsItem>)
    ensures r.None? <==> Strip(OrBlank(entry.title)) == "" || Strip(OrBlank(entry.link)) == ""
    ensures r.Some? ==>
      && r.value.title == Strip(OrBlank(entry.title)) && |r.value.title| > 0
      && r.value.canonicalUrl == NormalizedUrl(Strip(OrBlank(entry.link)), TrackingParams)
      && r.value.urlHash == sha256(CanonicalUrl(Strip(OrBlank(entry.link)), TrackingParams))
      && r.value.source == sourceName && r.value.fetchedAt == now
      && (r.value.tickerHint.Some? <==> HintsOf(r.value.title, Strip(OrBlank(entry.link))) != [])
  {
    var title := Strip(OrBlank(entry.title));
    var link := Strip(OrBlank(entry.link));
    if title == "" || link == "" then None
    else
      var body := if entry.summary.Some? then Some(Strip(entry.summary.value))
                  else if entry.description.Some? then Some(Strip(entry.description.value))
                  else None;
      var author := if entry.author.Some? then Some(Strip(entry.author.value)) else None;
      var canonicalUrl := NormalizedUrl(link, TrackingParams);
      var hints := HintsOf(title, link);
      UrlHashOfNormalized(link, sha256);
      Some(NewsItem(CreateUrlHash(canonicalUrl, sha256), canonicalUrl, title, body,
                    PublishedAt(entry, parseDate, now), sourceName, author, now,
                    if hints != [] then Some(hints[0]) else None))
  }

  // ---------------------------------------------------------------------------
  // filter_relevant_news

  datatype RelevanceConfig = RelevanceConfig(financialTerms: seq<string>, exclusionTerms: seq<string>)

  /** `any(term.lower() in text for term in terms)`. */
  predicate AnyTermIn(terms: seq<string>, text: string)
  {
    exists k :: 0 <= k < |terms| && Contains(text, Lower(terms[k]))
  }

  /** `title.lower() + ' ' + (body or '').lower()`. */
  function CombinedText(item: NewsItem): string
  {
    Lower(item.title) + " " + Lower(OrBlank(item.body))
  }

  /** With a (non-empty) target the ticker must appear in the title or body, or be the hint;
      without one, any hint will do. */
  predicate TickerRelevant(item: NewsItem, target: Option<string>)
  {
    if target.Some? && target.value != "" then
      var t := Lower(target.value);
      Contains(Lower(item.title), t) || Contains(Lower(OrBlank(item.body)), t) || Lower(OrBlank(item.tickerHint)) == t
    else
      item.tickerHint.Some? && item.tickerHint.value != ""
  }

  /** An item is kept when it holds no exclusion term, some financial term, and is relevant to
      the ticker. */
  predicate Relevant(item: NewsItem, target: Option<string>, config: RelevanceConfig)
  {
    var text := CombinedText(item);
    !AnyTermIn(config.exclusionTerms, text) && AnyTermIn(config.financialTerms, text) && TickerRelevant(item, target)
  }

  function RelevanceOf(target: Option<string>, config: RelevanceConfig): NewsItem -> bool
  {
    item => Relevant(item, target, config)
  }

  /** The items that `keep` accepts, in their original order. */
  function Filtered(items: seq<NewsItem>, keep: NewsItem -> bool): (r: seq<NewsItem>)
    ensures |r| <= |items|
    ensures forall k :: 0 <= k < |r| ==> r[k] in items && keep(r[k])
    ensures forall x :: x in items && keep(x) ==> x in r
    decreases |items|
  {
    if items == [] then []
    else
      var init := items[..|items| - 1];
      var x := items[|items| - 1];
      assert forall y :: y in items ==> y in init || y == x;
      Filtered(init, keep) + (if keep(x) then [x] else [])
  }

  function RelevantNews(items: seq<NewsItem>, target: Option<string>, config: RelevanceConfig): seq<NewsItem>
  {
    Filtered(items, RelevanceOf(target, config))
  }

  /** `filter_relevant_news` with the relevance configuration given: exactly the relevant items,
      in their original order. */
  method FilterRelevantNews(items: seq<NewsItem>, target: Option<string>, config: RelevanceConfig)
    returns (relevant: seq<NewsItem>)
    ensures relevant == RelevantNews(items, target, config)
    ensures forall k :: 0 <= k < |relevant| ==> relevant[k] in items && Relevant(relevant[k], target, config)
    ensures forall x :: x in items && Relevant(x, target, config) ==> x in relevant
  {
    var keep := RelevanceOf(target, config);
    relevant := [];
    var i := 0;
    while i < |items|
      invariant i <= |items|
      invariant relevant == Filtered(items[..i], keep)
    {
      FilteredStep(items, i, keep);
      // `keep` runs the exclusion check, then the financial terms, then the ticker test.
      if keep(items[i]) {
        relevant := relevant + [items[i]];
      }
      i := i + 1;
    }
    assert items[..i] == items;
    RelevantNewsMembers(items, target, config);
  }

  lemma RelevantNewsMembers(items: seq<NewsItem>, target: Option<string>, config: RelevanceConfig)
    ensures forall k :: 0 <= k < |RelevantNews(items, target, config)| ==>
      RelevantNews(items, target, config)[k] in items && Relevant(RelevantNews(items, target, config)[k], target, config)
    ensures forall x :: x in items && Relevant(x, target, config) ==> x in RelevantNews(items, target, config)
  {
    var keep := RelevanceOf(target, config);
    assert forall x :: keep(x) == Relevant(x, target, config);
  }

  lemma FilteredStep(items: seq<NewsItem>, i: nat, keep: NewsItem -> bool)
    requires i < |items|
    ensures Filtered(items[..i + 1], keep) == Filtered(items[..i], keep) + (if keep(items[i]) then [items[i]] else [])
  {
    assert items[..i + 1][..i] == items[..i];
  }

  /** The filter keeps the relative order: filtering a concatenation filters each part. */
  lemma {:induction false} FilteredAppend(a: seq<NewsItem>, b: seq<NewsItem>, keep: NewsItem -> bool)
    ensures Filtered(a + b, keep) == Filtered(a, keep) + Filtered(b, keep)
    decreases |b|
  {
    if b == [] {
      assert a + b == a;
    } else {
      var init := b[..|b| - 1];
      var ab := a + b;
      assert ab[..|ab| - 1] == a + init && ab[|ab| - 1] == b[|b| - 1];
      FilteredAppend(a, init, keep);
      FilteredLast(ab, keep);
      FilteredLast(b, keep);
    }
  }

  lemma FilteredLast(s: seq<NewsItem>, keep: NewsItem -> bool)
    requires s != []
    ensures Filtered(s, keep) == Filtered(s[..|s| - 1], keep) + (if keep(s[|s| - 1]) then [s[|s| - 1]] else [])
  {
  }

  /** Filtering twice is filtering once. */
  lemma {:induction false} FilteredIdempotent(items: seq<NewsItem>, keep: NewsItem -> bool)
    ensures Filtered(Filtered(items, keep), keep) == Filtered(items, keep)
    decreases |items|
  {
    if items != [] {
      var init := items[..|items| - 1];
      var x := items[|items| - 1];
      FilteredIdempotent(init, keep);
      var r := Filtered(init, keep);
      if keep(x) {
        var rx := r + [x];
        assert rx[..|rx| - 1] == r && rx[|rx| - 1] == x;
      } else {
        assert r + [] == r;
      }
    }
  }

  /** News filtering distributes over concatenation and is idempotent. */
  lemma RelevantNewsLaws(a: seq<NewsItem>, b: seq<NewsItem>, target: Option<string>, config: RelevanceConfig)
    ensures RelevantNews(a + b, target, config) == RelevantNews(a, target, config) + RelevantNews(b, target, config)
    ensures RelevantNews(RelevantNews(a, target, config), target, config) == RelevantNews(a, target, config)
  {
    FilteredAppend(a, b, RelevanceOf(target, config));
    FilteredIdempotent(a, RelevanceOf(target, config));
  }

  /** An item holding an exclusion term is never kept, whatever else it holds. */
  lemma ExclusionWins(items: seq<NewsItem>, target: Option<string>, config: RelevanceConfig, k: int)
    requires 0 <= k < |config.exclusionTerms|
    ensures forall x :: x in RelevantNews(items, target, config) ==>
      !Contains(CombinedText(x), Lower(config.exclusionTerms[k]))
  {
  }

  // ---------------------------------------------------------------------------
  // validate_news_item

  /** The fields the validator reads; `None` stands for a missing key or a `None` value. */
  datatype NewsRecord = NewsRecord(urlHash: Option<string>, canonicalUrl: Option<string>, title: Option<string>,
                                   publishedAt: Option<DateTime>, source: Option<string>, fetchedAt: Option<DateTime>)

  const HourSeconds := 3600
  const YearSeconds := 365 * 86400

  function RecordOf(item: NewsItem): NewsRecord
  {
    NewsRecord(Some(item.urlHash), Some(item.canonicalUrl), Some(item.title), Some(item.publishedAt),
               Some(item.source), Some(item.fetchedAt))
  }

  /** `validate_news_item` at the current time `now`: every required field present, a title of
      at least five characters, a 64-character hash, published no later than an hour ahead and
      no earlier than 365 days back. */
  function ValidateNewsItem(r: NewsRecord, now: DateTime): (ok: bool)
    requires ValidTime(now)
    requires r.publishedAt.Some? ==> ValidTime(r.publishedAt.value)
    ensures ok ==> r.urlHash.Some? && r.canonicalUrl.Some? && r.title.Some? && r.publishedAt.Some?
                   && r.source.Some? && r.fetchedAt.Some?
    ensures ok ==> |r.title.value| >= 5 && |r.urlHash.value| == 64
    ensures ok ==> Seconds(now) - YearSeconds <= Seconds(r.publishedAt.value) <= Seconds(now) + HourSeconds
    ensures (r.urlHash.Some? && r.canonicalUrl.Some? && r.title.Some? && r.publishedAt.Some?
             && r.source.Some? && r.fetchedAt.Some? && |r.title.value| >= 5 && |r.urlHash.value| == 64
             && Seconds(now) - YearSeconds <= Seconds(r.publishedAt.value) <= Seconds(now) + HourSeconds) ==> ok
  {
    if r.urlHash.None? || r.canonicalUrl.None? || r.title.None? || r.publishedAt.None?
       || r.source.None? || r.fetchedAt.None? then false
    else if |r.title.value| < 5 then false
    else if |r.urlHash.value| != 64 then false
    else
      var pub := Seconds(r.publishedAt.value);
      if pub > Seconds(now) + HourSeconds then false
      else if pub < Seconds(now) - YearSeconds then false
      else true
  }

  /** A processed entry passes validation exactly when its title has five or more characters
      and it was published within the window, given a digest that always has 64 hex digits. */
  lemma ProcessedEntryValidation(entry: Entry, sourceName: string, parseDate: string -> Option<DateTime>,
                                 now: DateTime, sha256: string -> string, checkTime: DateTime)
    requires ValidTime(checkTime)
    requires ProcessRssEntry(entry, sourceName, parseDate, now, sha256).Some?
    requires ValidTime(ProcessRssEntry(entry, sourceName, parseDate, now, sha256).value.publishedAt)
    requires forall s :: |sha256(s)| == 64
    ensures var item := ProcessRssEntry(entry, sourceName, parseDate, now, sha256).value;
      ValidateNewsItem(RecordOf(item), checkTime) <==>
        |item.title| >= 5
        && Seconds(checkTime) - YearSeconds <= Seconds(item.publishedAt) <= Seconds(checkTime) + HourSeconds
  {
    var item := ProcessRssEntry(entry, sourceName, parseDate, now, sha256).value;
    assert |item.urlHash| == 64 by {
      assert item.urlHash == sha256(CanonicalUrl(Strip(OrBlank(entry.link)), TrackingParams));
    }
    RecordValidation(item, checkTime);
  }

  lemma RecordValidation(item: NewsItem, checkTime: DateTime)
    requires ValidTime(checkTime) && ValidTime(item.publishedAt) && |item.urlHash| == 64
    ensures ValidateNewsItem(RecordOf(item), checkTime) <==>
      |item.title| >= 5
      && Seconds(checkTime) - YearSeconds <= Seconds(item.publishedAt) <= Seconds(checkTime) + HourSeconds
  {
  }
}
