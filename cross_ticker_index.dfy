// The cross-ticker index (`latest_reports.json`): one entry per ticker for its
// newest report, kept sorted by ticker, and the "what did I analyse today" query
// over it. Reading and writing the file is not modelled; the index is an object
// whose entry list the update replaces in place.
module CrossTickerIndex {
  import opened Wrappers
  import opened Text
  import opened Dates

  const IndexSchemaVersion := "1.0.0"

  datatype Entry = Entry(
    ticker: string, reportPath: string, latestPath: string, runId: Option<int>,
    generatedAtLocal: string, pointerStrategy: string)

  function Tickers(s: seq<Entry>): (ts: seq<string>)
    ensures |ts| == |s| && forall i :: 0 <= i < |s| ==> ts[i] == s[i].ticker
  {
    seq(|s|, i requires 0 <= i < |s| => s[i].ticker)
  }

  /** At most one entry per ticker. */
  predicate UniqueTickers(s: seq<Entry>)
  {
    forall i, j :: 0 <= i < j < |s| ==> s[i].ticker != s[j].ticker
  }

  // ---------------------------------------------------------------------------
  // Stable sorting by a string key (`list.sort(key=..., reverse=...)`)
  // ---------------------------------------------------------------------------

  /** The two orders the module sorts by. */
  datatype Order = ByTicker | NewestFirst

  /** `a` must be placed before `b`: a smaller ticker, or a later timestamp string. */
  predicate Ahead(a: Entry, b: Entry, o: Order)
  {
    match o
      case ByTicker => LexLess(a.ticker, b.ticker)
      case NewestFirst => LexLess(b.generatedAtLocal, a.generatedAtLocal)
  }

  predicate Ordered(s: seq<Entry>, o: Order)
  {
    forall i :: 0 <= i < |s| - 1 ==> !Ahead(s[i + 1], s[i], o)
  }

  lemma AheadAsymmetric(a: Entry, b: Entry, o: Order)
    requires Ahead(a, b, o)
    ensures !Ahead(b, a, o)
  {
    match o
      case ByTicker => LexLessAsymmetric(a.ticker, b.ticker);
      case NewestFirst => LexLessAsymmetric(b.generatedAtLocal, a.generatedAtLocal);
  }

  /** Places `x` after every entry it need not precede, so equal keys keep their
      order. */
  function Insert(x: Entry, s: seq<Entry>, o: Order): (r: seq<Entry>)
    requires Ordered(s, o)
    ensures |r| == |s| + 1 && multiset(r) == multiset(s) + multiset{x}
    ensures r[0] == x || (s != [] && r[0] == s[0])
    ensures Ordered(r, o)
  {
    if s == [] then [x]
    else if Ahead(x, s[0], o) then
      AheadAsymmetric(x, s[0], o);
      [x] + s
    else
      assert s == [s[0]] + s[1..];
      [s[0]] + Insert(x, s[1..], o)
  }

  /** The sorted list: the same entries, in order. */
  function Sort(s: seq<Entry>, o: Order): (r: seq<Entry>)
    ensures |r| == |s| && multiset(r) == multiset(s) && Ordered(r, o)
  {
    if s == [] then []
    else
      var init := s[..|s| - 1];
      assert s == init + [s[|s| - 1]];
      Insert(s[|s| - 1], Sort(init, o), o)
  }

  /** The string the order compares. */
  function Key(e: Entry, o: Order): string
  {
    match o
      case ByTicker => e.ticker
      case NewestFirst => e.generatedAtLocal
  }

  /** The entries whose key is `k`, in their order. */
  function WithKey(s: seq<Entry>, o: Order, k: string): seq<Entry>
  {
    if s == [] then [] else (if Key(s[0], o) == k then [s[0]] else []) + WithKey(s[1..], o, k)
  }

  lemma {:induction false} WithKeyAppend(a: seq<Entry>, b: seq<Entry>, o: Order, k: string)
    ensures WithKey(a + b, o, k) == WithKey(a, o, k) + WithKey(b, o, k)
    decreases |a|
  {
    if a != [] {
      assert (a + b)[1..] == a[1..] + b;
      WithKeyAppend(a[1..], b, o, k);
    } else {
      assert a + b == b;
    }
  }

  /** "Not before" chains on strings: `c` not below `b`, `b` not below `a`. */
  lemma NotLessTransitive(a: string, b: string, c: string)
    requires !LexLess(b, a) && !LexLess(c, b)
    ensures !LexLess(c, a)
  {
    if a != b { LexLessTotal(a, b); }
    if b != c { LexLessTotal(b, c); }
    if a == b && b == c {
      LexLessIrreflexive(a);
    } else if a == b {
      LexLessAsymmetric(a, c);
    } else if b == c {
      LexLessAsymmetric(a, c);
    } else {
      LexLessTransitive(a, b, c);
      LexLessAsymmetric(a, c);
    }
  }

  lemma NotAheadTransitive(a: Entry, b: Entry, c: Entry, o: Order)
    requires !Ahead(b, a, o) && !Ahead(c, b, o)
    ensures !Ahead(c, a, o)
  {
    match o
      case ByTicker => NotLessTransitive(a.ticker, b.ticker, c.ticker);
      case NewestFirst => NotLessTransitive(c.generatedAtLocal, b.generatedAtLocal, a.generatedAtLocal);
  }

  /** Nothing in an ordered list goes before its first entry. */
  lemma {:induction false} NoneAheadOfFirst(t: seq<Entry>, o: Order, j: nat)
    requires Ordered(t, o) && j < |t|
    ensures !Ahead(t[j], t[0], o)
  {
    if j == 0 {
      if Ahead(t[0], t[0], o) { AheadAsymmetric(t[0], t[0], o); }
    } else {
      NoneAheadOfFirst(t, o, j - 1);
      NotAheadTransitive(t[0], t[j - 1], t[j], o);
    }
  }

  lemma {:induction false} NoKeyNone(t: seq<Entry>, o: Order, k: string)
    requires forall j :: 0 <= j < |t| ==> Key(t[j], o) != k
    ensures WithKey(t, o, k) == []
    decreases |t|
  {
    if t != [] { NoKeyNone(t[1..], o, k); }
  }

  /** An inserted entry lands after every entry sharing its key. */
  lemma KeyOfOne(x: Entry, o: Order, k: string)
    ensures WithKey([x], o, k) == if Key(x, o) == k then [x] else []
  {
    assert [x][1..] == [];
  }

  /** An entry placed before an ordered list shares its key with none of it. */
  lemma InsertFront(x: Entry, t: seq<Entry>, o: Order, k: string)
    requires Ordered(t, o) && t != [] && Ahead(x, t[0], o)
    ensures WithKey([x] + t, o, k) == WithKey(t, o, k) + WithKey([x], o, k)
  {
    WithKeyAppend([x], t, o, k);
    KeyOfOne(x, o, k);
    if Key(x, o) == k {
      forall j | 0 <= j < |t| ensures Key(t[j], o) != k {
        NoneAheadOfFirst(t, o, j);
      }
      NoKeyNone(t, o, k);
    }
  }

  lemma InsertSkip(t: seq<Entry>, rest: seq<Entry>, o: Order, k: string, wx: seq<Entry>)
    requires t != [] && WithKey(rest, o, k) == WithKey(t[1..], o, k) + wx
    ensures WithKey([t[0]] + rest, o, k) == WithKey(t, o, k) + wx
  {
    WithKeyAppend([t[0]], rest, o, k);
    WithKeyAppend([t[0]], t[1..], o, k);
    assert [t[0]] + t[1..] == t;
  }

  /** An inserted entry lands after every entry sharing its key. */
  lemma {:induction false} InsertStable(x: Entry, t: seq<Entry>, o: Order, k: string)
    requires Ordered(t, o)
    ensures WithKey(Insert(x, t, o), o, k) == WithKey(t, o, k) + WithKey([x], o, k)
    decreases |t|
  {
    if t == [] {
      assert Insert(x, t, o) == [x] && t + [x] == [x];
    } else if Ahead(x, t[0], o) {
      assert Insert(x, t, o) == [x] + t;
      InsertFront(x, t, o, k);
    } else {
      assert Ordered(t[1..], o);
      InsertStable(x, t[1..], o, k);
      assert Insert(x, t, o) == [t[0]] + Insert(x, t[1..], o);
      InsertSkip(t, Insert(x, t[1..], o), o, k, WithKey([x], o, k));
    }
  }

  lemma AppendLast(init: seq<Entry>, last: Entry, sorted: seq<Entry>, r: seq<Entry>, o: Order, k: string)
    requires WithKey(sorted, o, k) == WithKey(init, o, k)
    requires WithKey(r, o, k) == WithKey(sorted, o, k) + WithKey([last], o, k)
    ensures WithKey(r, o, k) == WithKey(init + [last], o, k)
  {
    WithKeyAppend(init, [last], o, k);
  }

  /** `Sort` is stable: the entries sharing a key come out in their input order,
      as Python's `list.sort` keeps them (also with `reverse=True`). */
  lemma {:induction false} SortStable(s: seq<Entry>, o: Order, k: string)
    ensures WithKey(Sort(s, o), o, k) == WithKey(s, o, k)
    decreases |s|
  {
    if s != [] {
      var init, last := s[..|s| - 1], s[|s| - 1];
      assert s == init + [last];
      SortStable(init, o, k);
      InsertStable(last, Sort(init, o), o, k);
      AppendLast(init, last, Sort(init, o), Sort(s, o), o, k);
    }
  }

  lemma {:induction false} InsertKeepsUnique(x: Entry, s: seq<Entry>, o: Order)
    requires Ordered(s, o) && UniqueTickers(s) && x.ticker !in Tickers(s)
    ensures UniqueTickers(Insert(x, s, o))
    decreases |s|
  {
    if s != [] && !Ahead(x, s[0], o) {
      var tail := Insert(x, s[1..], o);
      assert Tickers(s[1..]) == Tickers(s)[1..];
      assert UniqueTickers(s[1..]);
      InsertKeepsUnique(x, s[1..], o);
      forall y | y in tail ensures y.ticker != s[0].ticker {
        assert y in multiset(tail);
        if y != x {
          assert y in s[1..];
          var j :| 0 <= j < |s[1..]| && s[1..][j] == y;
          assert s[j + 1] == y;
        }
      }
      assert Insert(x, s, o) == [s[0]] + tail;
    } else if s != [] {
      assert Insert(x, s, o) == [x] + s;
    }
  }

  /** Sorting keeps one entry per ticker. */
  lemma {:induction false} SortKeepsUnique(s: seq<Entry>, o: Order)
    requires UniqueTickers(s)
    ensures UniqueTickers(Sort(s, o))
    decreases |s|
  {
    if s != [] {
      var init, last := s[..|s| - 1], s[|s| - 1];
      SortKeepsUnique(init, o);
      var sorted := Sort(init, o);
      forall k | 0 <= k < |sorted| ensures Tickers(sorted)[k] != last.ticker {
        assert sorted[k] in multiset(init);
        var j :| 0 <= j < |init| && init[j] == sorted[k];
        assert s[j] == sorted[k];
      }
      InsertKeepsUnique(last, sorted, o);
    }
  }

  // ---------------------------------------------------------------------------
  // The update
  // ---------------------------------------------------------------------------

  /** The entry list after the loop: the first entry with the ticker replaced, or
      the new entry appended. */
  function ReplaceFirst(s: seq<Entry>, e: Entry): (r: seq<Entry>)
    ensures |r| == |s| + (if e.ticker in Tickers(s) then 0 else 1)
    ensures e in r
  {
    if s == [] then [e]
    else if s[0].ticker == e.ticker then [e] + s[1..]
    else
      assert Tickers(s) == [s[0].ticker] + Tickers(s[1..]);
      [s[0]] + ReplaceFirst(s[1..], e)
  }

  lemma {:induction false} ReplaceFirstMembers(s: seq<Entry>, e: Entry)
    ensures forall y :: y in ReplaceFirst(s, e) ==> y == e || y in s
    decreases |s|
  {
    if s != [] && s[0].ticker != e.ticker {
      ReplaceFirstMembers(s[1..], e);
    }
  }

  /** The index list update_cross_ticker_index writes. */
  function Upserted(s: seq<Entry>, e: Entry): seq<Entry>
  {
    Sort(ReplaceFirst(s, e), ByTicker)
  }

  lemma {:induction false} ReplaceFirstKeepsUnique(s: seq<Entry>, e: Entry)
    requires UniqueTickers(s)
    ensures UniqueTickers(ReplaceFirst(s, e))
    decreases |s|
  {
    if s != [] && s[0].ticker != e.ticker {
      var tail := ReplaceFirst(s[1..], e);
      assert UniqueTickers(s[1..]);
      ReplaceFirstKeepsUnique(s[1..], e);
      ReplaceFirstMembers(s[1..], e);
      forall y | y in tail ensures y.ticker != s[0].ticker {
        if y != e {
          var j :| 0 <= j < |s[1..]| && s[1..][j] == y;
          assert s[j + 1] == y;
        }
      }
    } else if s != [] {
      forall i, j | 0 <= i < j < |s| ensures ReplaceFirst(s, e)[i].ticker != ReplaceFirst(s, e)[j].ticker {
        assert ReplaceFirst(s, e)[j] == s[j];
        if i > 0 { assert ReplaceFirst(s, e)[i] == s[i]; }
      }
    }
  }

  /** The upsert: the new entry is in the list, the list grows by one exactly when
      the ticker is new, it is sorted by ticker, and one entry per ticker stays one
      entry per ticker. */
  lemma UpsertedProperties(s: seq<Entry>, e: Entry)
    ensures var r := Upserted(s, e);
      e in r && |r| == |s| + (if e.ticker in Tickers(s) then 0 else 1) && Ordered(r, ByTicker) &&
      (UniqueTickers(s) ==> UniqueTickers(r))
  {
    var m := ReplaceFirst(s, e);
    assert e in multiset(m);
    if UniqueTickers(s) {
      ReplaceFirstKeepsUnique(s, e);
      SortKeepsUnique(m, ByTicker);
    }
  }

  /** Every other ticker's entry survives the upsert unchanged. */
  lemma UpsertKeepsOthers(s: seq<Entry>, e: Entry, x: Entry)
    requires x in s && x.ticker != e.ticker
    ensures x in Upserted(s, e)
  {
    var m := ReplaceFirstOthers(s, e, x);
    assert x in multiset(ReplaceFirst(s, e));
  }

  lemma {:induction false} ReplaceFirstOthers(s: seq<Entry>, e: Entry, x: Entry) returns (m: seq<Entry>)
    requires x in s && x.ticker != e.ticker
    ensures m == ReplaceFirst(s, e) && x in m
    decreases |s|
  {
    m := ReplaceFirst(s, e);
    if s[0] != x {
      var rest := ReplaceFirstOthers(s[1..], e, x);
      if s[0].ticker == e.ticker {
        assert m == [e] + s[1..];
      }
    }
  }

  /** The index object: its metadata and its entry list. */
  class Index {
    var schemaVersion: string
    var generatedAtUtc: Option<string>
    var timezone: Option<string>
    var latest: seq<Entry>

    /** The index created when no file exists yet. */
    constructor ()
      ensures schemaVersion == IndexSchemaVersion && generatedAtUtc.None? && timezone.None? && latest == []
    {
      schemaVersion := IndexSchemaVersion;
      generatedAtUtc := None;
      timezone := None;
      latest := [];
    }

    /** update_cross_ticker_index on the loaded index; `nowUtc` and `tz` are the
        clock reading and the local time zone's name. */
    method Update(e: Entry, nowUtc: string, tz: string) returns (entriesCount: nat, updatedExisting: bool)
      modifies this
      ensures latest == Upserted(old(latest), e)
      ensures updatedExisting <==> e.ticker in Tickers(old(latest))
      ensures entriesCount == |latest|
      ensures schemaVersion == old(schemaVersion)
      ensures generatedAtUtc == Some(nowUtc) && timezone == Some(tz)
    {
      var entries;
      entries, updatedExisting := ReplaceOrAppend(latest, e);
      var sorted := Sort(entries, ByTicker);
      latest, generatedAtUtc, timezone := sorted, Some(nowUtc), Some(tz);
      entriesCount := |sorted|;
    }
  }

  /** The first entry with the entry's ticker replaced, or the entry appended; and
      whether one was replaced. */
  method ReplaceOrAppend(entries: seq<Entry>, e: Entry) returns (r: seq<Entry>, replaced: bool)
    ensures r == ReplaceFirst(entries, e)
    ensures replaced <==> e.ticker in Tickers(entries)
  {
    var i := FindTicker(entries, e.ticker);
    replaced := i < |entries|;
    if replaced {
      ReplaceFirstFound(entries, e, i);
      r := entries[i := e];
    } else {
      ReplaceFirstMissing(entries, e);
      r := entries + [e];
    }
  }

  /** The loop of the update: the index of the first entry with the ticker, or the
      length when there is none. */
  method FindTicker(entries: seq<Entry>, ticker: string) returns (i: nat)
    ensures i <= |entries| && forall k :: 0 <= k < i ==> entries[k].ticker != ticker
    ensures i < |entries| ==> entries[i].ticker == ticker
    ensures i < |entries| <==> ticker in Tickers(entries)
  {
    i := 0;
    while i < |entries| && entries[i].ticker != ticker
      invariant 0 <= i <= |entries|
      invariant forall k :: 0 <= k < i ==> entries[k].ticker != ticker
    {
      i := i + 1;
    }
  }

  /** What the loop computes when it finds the ticker: that entry replaced. */
  lemma {:induction false} ReplaceFirstFound(s: seq<Entry>, e: Entry, i: nat)
    requires i < |s| && s[i].ticker == e.ticker && forall k :: 0 <= k < i ==> s[k].ticker != e.ticker
    ensures ReplaceFirst(s, e) == s[i := e]
    decreases i
  {
    if i > 0 {
      var t := s[1..];
      assert s[0].ticker != e.ticker;
      assert forall k :: 0 <= k < i - 1 ==> t[k] == s[k + 1];
      ReplaceFirstFound(t, e, i - 1);
      UpdateAfterHead(s, i, e);
    } else {
      assert s[i := e] == [e] + s[1..];
    }
  }

  lemma UpdateAfterHead(s: seq<Entry>, i: nat, e: Entry)
    requires 0 < i < |s|
    ensures s[i := e] == [s[0]] + s[1..][i - 1 := e]
  {
  }

  /** What the loop computes when the ticker is new: the entry appended. */
  lemma {:induction false} ReplaceFirstMissing(s: seq<Entry>, e: Entry)
    requires forall k :: 0 <= k < |s| ==> s[k].ticker != e.ticker
    ensures ReplaceFirst(s, e) == s + [e]
    decreases |s|
  {
    if s != [] {
      ReplaceFirstMissing(s[1..], e);
      assert s + [e] == [s[0]] + (s[1..] + [e]);
    }
  }

  // ---------------------------------------------------------------------------
  // The query
  // ---------------------------------------------------------------------------

  /** The text handed to `datetime.fromisoformat`: a `Z` suffix spelled `+00:00`
      when the timestamp has a time part. */
  function IsoText(ts: string): string
  {
    if 'T' in ts then ReplaceAll(ts, "Z", "+00:00") else ts
  }

  /** The entry was generated on `target` (by the date of its own local time);
      an empty or unparsable timestamp never matches. */
  predicate OnDate(e: Entry, target: Date, parseIso: string -> Option<DateTime>)
  {
    e.generatedAtLocal != "" &&
    var t := parseIso(IsoText(e.generatedAtLocal));
    t.Some? && t.value.date == target
  }

  /** The entries generated on `target`, in index order. */
  function Matching(entries: seq<Entry>, target: Date, parseIso: string -> Option<DateTime>): (r: seq<Entry>)
    ensures forall x :: x in r <==> x in entries && OnDate(x, target, parseIso)
    ensures multiset(r) <= multiset(entries)
  {
    if entries == [] then []
    else
      var init, last := entries[..|entries| - 1], entries[|entries| - 1];
      assert entries == init + [last];
      Matching(init, target, parseIso) + (if OnDate(last, target, parseIso) then [last] else [])
  }

  /** query_today_reports on the loaded entries; `parseIso` is
      `datetime.fromisoformat`, `None` where it raises. The matches, newest first,
      with entries of equal timestamps in index order. */
  method QueryTodayReports(entries: seq<Entry>, target: Date, parseIso: string -> Option<DateTime>)
    returns (today: seq<Entry>)
    ensures forall x :: x in today <==> x in entries && OnDate(x, target, parseIso)
    ensures multiset(today) == multiset(Matching(entries, target, parseIso))
    ensures Ordered(today, NewestFirst)
    ensures forall k :: WithKey(today, NewestFirst, k) == WithKey(Matching(entries, target, parseIso), NewestFirst, k)
  {
    var found: seq<Entry> := [];
    var i := 0;
    while i < |entries|
      invariant 0 <= i <= |entries|
      invariant found == Matching(entries[..i], target, parseIso)
    {
      assert entries[..i + 1][..i] == entries[..i];
      if OnDate(entries[i], target, parseIso) {
        found := found + [entries[i]];
      }
      i := i + 1;
    }
    assert entries[..i] == entries;
    today := Sort(found, NewestFirst);
    assert forall x :: x in today <==> x in multiset(found);
    forall k ensures WithKey(today, NewestFirst, k) == WithKey(found, NewestFirst, k) {
      SortStable(found, NewestFirst, k);
    }
  }
}
