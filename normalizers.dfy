// Provider rows to canonical rows (ingestion/transforms/normalizers.py). Each
// normaliser walks the raw rows once, builds a canonical row, and stores it in an
// insertion-ordered dictionary under its primary key, so a later row with the same
// key overwrites the earlier one in place. The dictionary is modelled by the
// sequence of its keys in first-insertion order and a map from key to row.
module Normalizers {
  import opened Wrappers
  import opened Text
  import opened Dates

  // ---------------------------------------------------------------------------
  // Insertion-ordered dictionary semantics: `d[k] = v` for each pair in turn

  /** The dictionary's keys, in the order they were first inserted. */
  function KeyOrder<K(==), V>(ps: seq<(K, V)>): (ks: seq<K>)
    ensures |ks| <= |ps|
  {
    if ps == [] then []
    else
      var ks0 := KeyOrder(ps[..|ps| - 1]);
      if ps[|ps| - 1].0 in ks0 then ks0 else ks0 + [ps[|ps| - 1].0]
  }

  /** The dictionary's contents: the value last stored under each key. */
  function Table<K(==), V>(ps: seq<(K, V)>): map<K, V>
  {
    if ps == [] then map[] else Table(ps[..|ps| - 1])[ps[|ps| - 1].0 := ps[|ps| - 1].1]
  }

  lemma {:induction false} KeyOrderIsTable<K, V>(ps: seq<(K, V)>)
    ensures forall k :: k in KeyOrder(ps) <==> k in Table(ps)
    ensures forall i :: 0 <= i < |KeyOrder(ps)| ==> KeyOrder(ps)[i] in Table(ps)
    decreases |ps|
  {
    if ps != [] {
      KeyOrderIsTable(ps[..|ps| - 1]);
    }
  }

  /** `list(d.values())`. */
  function Values<K(==), V>(ps: seq<(K, V)>): (vs: seq<V>)
  {
    KeyOrderIsTable(ps);
    var ks := KeyOrder(ps);
    var t := Table(ps);
    seq(|ks|, i requires 0 <= i < |ks| => t[ks[i]])
  }

  predicate DistinctKeys<K(==), V>(ps: seq<(K, V)>)
  {
    forall i, j :: 0 <= i < j < |ps| ==> ps[i].0 != ps[j].0
  }

  predicate Distinct<K(==)>(ks: seq<K>)
  {
    forall i, j :: 0 <= i < j < |ks| ==> ks[i] != ks[j]
  }

  /** Each key is listed once, and exactly the keys of the input are listed. */
  lemma {:induction false} KeyOrderDistinct<K, V>(ps: seq<(K, V)>)
    ensures Distinct(KeyOrder(ps))
    ensures forall k :: k in KeyOrder(ps) <==> exists i :: 0 <= i < |ps| && ps[i].0 == k
    decreases |ps|
  {
    if ps != [] {
      var init := ps[..|ps| - 1];
      KeyOrderDistinct(init);
      assert forall i :: 0 <= i < |init| ==> init[i] == ps[i];
      forall k | exists i :: 0 <= i < |ps| && ps[i].0 == k
        ensures k in KeyOrder(ps)
      {
        var i :| 0 <= i < |ps| && ps[i].0 == k;
        if i < |init| {
          assert init[i].0 == k;
        }
      }
    }
  }

  /** The value kept under a key is the one of its last occurrence. */
  lemma {:induction false} TableKeepsLast<K, V>(ps: seq<(K, V)>, i: nat)
    requires i < |ps|
    requires forall j :: i < j < |ps| ==> ps[j].0 != ps[i].0
    ensures ps[i].0 in Table(ps) && Table(ps)[ps[i].0] == ps[i].1
    decreases |ps|
  {
    if i < |ps| - 1 {
      var init := ps[..|ps| - 1];
      assert forall j :: i < j < |init| ==> init[j] == ps[j];
      TableKeepsLast(init, i);
    }
  }

  /** A later pair with a key already present leaves the key order alone: an overwrite keeps its first position. */
  lemma OverwriteKeepsPosition<K, V>(ps: seq<(K, V)>, p: (K, V))
    requires exists i :: 0 <= i < |ps| && ps[i].0 == p.0
    ensures KeyOrder(ps + [p]) == KeyOrder(ps)
    ensures Table(ps + [p]) == Table(ps)[p.0 := p.1]
  {
    KeyOrderDistinct(ps);
    assert (ps + [p])[..|ps|] == ps;
  }

  /** Storing a new key appends its value. */
  lemma ValuesSnoc<K, V>(ps: seq<(K, V)>, p: (K, V))
    requires forall i :: 0 <= i < |ps| ==> ps[i].0 != p.0
    ensures Values(ps + [p]) == Values(ps) + [p.1]
  {
    var qs := ps + [p];
    assert qs[..|ps|] == ps;
    KeyOrderDistinct(ps);
    assert p.0 !in KeyOrder(ps);
    var ks0 := KeyOrder(ps);
    assert KeyOrder(qs) == ks0 + [p.0];
    KeyOrderIsTable(ps);
    forall i | 0 <= i < |ks0| ensures Values(qs)[i] == Values(ps)[i] {
      assert ks0[i] != p.0;
    }
  }

  /** Without repeated keys nothing is dropped and the order is kept. */
  lemma {:induction false} ValuesOfDistinct<K, V>(ps: seq<(K, V)>)
    requires DistinctKeys(ps)
    ensures Values(ps) == seq(|ps|, i requires 0 <= i < |ps| => ps[i].1)
    decreases |ps|
  {
    if ps != [] {
      var init := ps[..|ps| - 1];
      assert DistinctKeys(init);
      ValuesOfDistinct(init);
      assert ps == init + [ps[|ps| - 1]];
      ValuesSnoc(init, ps[|ps| - 1]);
    }
  }

  /** The deduplicated rows are at most as many as the input and have distinct keys. */
  lemma ValuesBound<K, V>(ps: seq<(K, V)>)
    ensures |Values(ps)| == |KeyOrder(ps)| <= |ps|
    ensures Distinct(KeyOrder(ps))
  {
    KeyOrderDistinct(ps);
  }

  /** One step of the loop: store `p` into the dictionary (`keys`, `table`). */
  method Store<K(==), V>(keys: seq<K>, table: map<K, V>, p: (K, V)) returns (keys': seq<K>, table': map<K, V>)
    ensures table' == table[p.0 := p.1]
    ensures keys' == if p.0 in keys then keys else keys + [p.0]
  {
    keys' := keys;
    if p.0 !in keys {
      keys' := keys + [p.0];
    }
    table' := table[p.0 := p.1];
  }

  // ---------------------------------------------------------------------------
  // normalize_prices

  /** The provider's `Date` cell: a string to parse, a date already, or absent (read as `''`). */
  datatype DateCell = DateText(text: string) | DateValue(d: Date) | NoDate

  /** A yfinance row; absent numeric cells read as 0, an absent `Adj Close` as `None`. */
  datatype RawPrice = RawPrice(date: DateCell, open: Option<real>, high: Option<real>, low: Option<real>,
                               close: Option<real>, adjClose: Option<real>, volume: Option<real>)

  datatype CanonicalPrice = CanonicalPrice(ticker: string, date: Date, open: real, high: real, low: real,
                                           close: real, adjClose: Option<real>, volume: int, source: string,
                                           asOf: Date, ingestedAt: DateTime)

  /** `raw.get(key, 0)` for a numeric cell. */
  function OrZero(x: Option<real>): real { if x.Some? then x.value else 0.0 }

  /** Python's `int(x)` on a float: truncation toward zero. */
  function TruncToInt(x: real): (n: int)
    ensures -1.0 < x - n as real < 1.0 && (x >= 0.0 ==> n >= 0) && (x <= 0.0 ==> n <= 0)
    ensures x >= 0.0 ==> n as real <= x
    ensures x <= 0.0 ==> x <= n as real
  {
    if x >= 0.0 then x.Floor else -((-x).Floor)
  }

  /** The row's date: a string goes through `date.fromisoformat`, which raises on `''`. */
  function RowDate(c: DateCell): (r: Option<Date>)
    ensures c.NoDate? ==> r.None?
    ensures c.DateValue? ==> r == Some(c.d)
  {
    match c
    case DateText(s) => ParseIsoDate(s)
    case DateValue(d) => Some(d)
    case NoDate => ParseIsoDate("")
  }

  function CanonicalOf(raw: RawPrice, d: Date, ticker: string, source: string, ingestedAt: DateTime): (c: CanonicalPrice)
    ensures c.ticker == ticker && c.date == d && c.asOf == d && c.source == source
    ensures c.adjClose.None? <==> raw.adjClose.None?
    ensures c.adjClose == raw.adjClose && c.ingestedAt == ingestedAt
    ensures (raw.open.Some? ==> c.open == raw.open.value) && (raw.open.None? ==> c.open == 0.0)
    ensures (raw.high.Some? ==> c.high == raw.high.value) && (raw.high.None? ==> c.high == 0.0)
    ensures (raw.low.Some? ==> c.low == raw.low.value) && (raw.low.None? ==> c.low == 0.0)
    ensures (raw.close.Some? ==> c.close == raw.close.value) && (raw.close.None? ==> c.close == 0.0)
    ensures raw.volume.Some? ==> c.volume == TruncToInt(raw.volume.value)
    ensures raw.volume.None? ==> c.volume == 0
  {
    CanonicalPrice(ticker, d, OrZero(raw.open), OrZero(raw.high), OrZero(raw.low), OrZero(raw.close),
                   raw.adjClose, TruncToInt(OrZero(raw.volume)), source, d, ingestedAt)
  }

  predicate AllDated(raws: seq<RawPrice>)
  {
    forall i :: 0 <= i < |raws| ==> RowDate(raws[i].date).Some?
  }

  /** The (primary key, canonical row) pairs stored into the dictionary, in row order. */
  function PriceEntries(raws: seq<RawPrice>, ticker: string, source: string, ingestedAt: DateTime): (ps: seq<((string, Date), CanonicalPrice)>)
    requires AllDated(raws)
    ensures |ps| == |raws|
  {
    seq(|raws|, i requires 0 <= i < |raws| =>
      var d := RowDate(raws[i].date).value;
      ((ticker, d), CanonicalOf(raws[i], d, ticker, source, ingestedAt)))
  }

  /** One more dated row adds its pair at the end. */
  lemma PriceEntriesSnoc(raws: seq<RawPrice>, n: nat, ticker: string, source: string, ingestedAt: DateTime)
    requires n < |raws| && AllDated(raws[..n]) && RowDate(raws[n].date).Some?
    ensures AllDated(raws[..n + 1])
    ensures var d := RowDate(raws[n].date).value;
      PriceEntries(raws[..n + 1], ticker, source, ingestedAt)
      == PriceEntries(raws[..n], ticker, source, ingestedAt) + [((ticker, d), CanonicalOf(raws[n], d, ticker, source, ingestedAt))]
  {
    assert forall i :: 0 <= i < n ==> raws[..n + 1][i] == raws[..n][i];
    assert raws[..n + 1][n] == raws[n];
  }

  /** `normalize_prices`; `as_of` is accepted and unused, as in the source. */
  method NormalizePrices(raws: seq<RawPrice>, ticker: string, source: string, asOf: Date, ingestedAt: DateTime)
    returns (r: Result<seq<CanonicalPrice>>)
    ensures raws == [] ==> r == Ok([])
    ensures r.Ok? <==> AllDated(raws)
    ensures r.Ok? ==> r.value == Values(PriceEntries(raws, ticker, source, ingestedAt))
  {
    if raws == [] {
      return Ok([]);
    }
    var keys: seq<(string, Date)> := [];
    var table: map<(string, Date), CanonicalPrice> := map[];
    var n := 0;
    while n < |raws|
      invariant n <= |raws| && AllDated(raws[..n])
      invariant keys == KeyOrder(PriceEntries(raws[..n], ticker, source, ingestedAt))
      invariant table == Table(PriceEntries(raws[..n], ticker, source, ingestedAt))
    {
      var d := RowDate(raws[n].date);
      if d.None? {
        return Err("invalid isoformat string");
      }
      var canonical := CanonicalOf(raws[n], d.value, ticker, source, ingestedAt);
      PriceEntriesSnoc(raws, n, ticker, source, ingestedAt);
      keys, table := Store(keys, table, ((ticker, d.value), canonical));
      n := n + 1;
    }
    assert raws[..n] == raws;
    KeyOrderIsTable(PriceEntries(raws, ticker, source, ingestedAt));
    return Ok(seq(|keys|, i requires 0 <= i < |keys| => table[keys[i]]));
  }

  /** The normalised rows are keyed by distinct dates, no more than the input, and each is the last row of its date. */
  lemma PricesDeduplicated(raws: seq<RawPrice>, ticker: string, source: string, ingestedAt: DateTime, i: nat)
    requires AllDated(raws) && i < |raws|
    requires forall j :: i < j < |raws| ==> RowDate(raws[j].date) != RowDate(raws[i].date)
    ensures var ps := PriceEntries(raws, ticker, source, ingestedAt);
      |Values(ps)| <= |raws| && Distinct(KeyOrder(ps))
      && CanonicalOf(raws[i], RowDate(raws[i].date).value, ticker, source, ingestedAt) in Values(ps)
  {
    var ps := PriceEntries(raws, ticker, source, ingestedAt);
    ValuesBound(ps);
    TableKeepsLast(ps, i);
    KeyOrderIsTable(ps);
    var ks := KeyOrder(ps);
    var k :| 0 <= k < |ks| && ks[k] == ps[i].0;
    assert Values(ps)[k] == ps[i].1;
  }

  // ---------------------------------------------------------------------------
  // _infer_ticker

  /** The name table, in its source order. */
  const TickerMap: seq<(string, string)> := [
    ("APPLE INC", "AAPL"), ("MICROSOFT CORP", "MSFT"), ("AMAZON COM INC", "AMZN"),
    ("ALPHABET INC", "GOOGL"), ("BANK OF AMERICA CORP", "BAC"), ("BERKSHIRE HATHAWAY INC", "BRK.B"),
    ("JPMORGAN CHASE & CO", "JPM"), ("JOHNSON & JOHNSON", "JNJ"), ("VISA INC", "V"),
    ("PROCTER & GAMBLE CO", "PG")]

  const Unknown := "UNKNOWN"

  function CleanIssuer(name: string): string { Strip(Upper(name)) }

  /** `ticker_map[clean]` when present. */
  function Lookup(table: seq<(string, string)>, key: string): (r: Option<string>)
    ensures r.Some? <==> exists i :: 0 <= i < |table| && table[i].0 == key
    ensures r.Some? ==> exists i :: 0 <= i < |table| && table[i] == (key, r.value)
  {
    if table == [] then None
    else if table[0].0 == key then Some(table[0].1)
    else
      var r := Lookup(table[1..], key);
      assert forall i :: 0 < i < |table| ==> table[i] == table[1..][i - 1];
      r
  }

  /** The partial-match loop: the first entry whose key holds, or is held by, the name. */
  function PartialMatch(table: seq<(string, string)>, clean: string): (r: Option<string>)
    ensures r.Some? <==> exists i :: 0 <= i < |table| && (Contains(clean, table[i].0) || Contains(table[i].0, clean))
    ensures r.Some? ==> exists i :: 0 <= i < |table| && table[i].1 == r.value
                                   && (Contains(clean, table[i].0) || Contains(table[i].0, clean))
  {
    if table == [] then None
    else if Contains(clean, table[0].0) || Contains(table[0].0, clean) then Some(table[0].1)
    else
      var r := PartialMatch(table[1..], clean);
      assert forall i :: 0 < i < |table| ==> table[i] == table[1..][i - 1];
      r
  }

  /** `_infer_ticker` as written, over a name table: with an empty name, `'' in key` holds for the first key. */
  function InferAsWritten(table: seq<(string, string)>, issuer: string): (r: string)
  {
    InferCleanAsWritten(table, CleanIssuer(issuer))
  }

  /** The lookups of `_infer_ticker` on the cleaned name, without the blank-name guard. */
  function InferCleanAsWritten(table: seq<(string, string)>, clean: string): (r: string)
  {
    var exact := Lookup(table, clean);
    if exact.Some? then exact.value
    else
      var partial := PartialMatch(table, clean);
      if partial.Some? then partial.value else Unknown
  }

  function InferTickerAsWritten(issuer: string): string { InferAsWritten(TickerMap, issuer) }

  /** The empty string is in every string. */
  lemma ContainsEmpty(s: string)
    ensures Contains(s, "")
  {
  }

  /** As written, a blank name takes the ticker of the table's first key. */
  lemma BlankIssuerTakesFirstAsWritten(table: seq<(string, string)>, issuer: string)
    requires table != [] && forall i :: 0 <= i < |table| ==> table[i].0 != ""
    requires CleanIssuer(issuer) == ""
    ensures InferAsWritten(table, issuer) == table[0].1
  {
    BlankTakesFirstAsWritten(table);
  }

  lemma BlankTakesFirstAsWritten(table: seq<(string, string)>)
    requires table != [] && forall i :: 0 <= i < |table| ==> table[i].0 != ""
    ensures InferCleanAsWritten(table, "") == table[0].1
  {
    ContainsEmpty(table[0].0);
  }

  /** A holding without an issuer name is attributed to Apple. */
  lemma EmptyIssuerIsAppleAsWritten()
    ensures InferTickerAsWritten("") == "AAPL"
  {
    assert CleanIssuer("") == "";
    TickerMapKeysNonBlank();
    BlankIssuerTakesFirstAsWritten(TickerMap, "");
  }

  lemma TickerMapKeysNonBlank()
    ensures TickerMap != [] && TickerMap[0].1 == "AAPL"
    ensures forall i :: 0 <= i < |TickerMap| ==> TickerMap[i].0 != ""
  {
    forall i | 0 <= i < |TickerMap| ensures TickerMap[i].0 != "" {
      assert |TickerMap[i].0| >= 4;
    }
  }

  /** `_infer_ticker` over a name table, with a blank name giving `'UNKNOWN'` as documented. */
  function Infer(table: seq<(string, string)>, issuer: string): (r: string)
    ensures CleanIssuer(issuer) == "" ==> r == Unknown
    ensures r == Unknown || exists i :: 0 <= i < |table| && table[i].1 == r
  {
    var clean := CleanIssuer(issuer);
    if clean == "" then Unknown
    else
      var exact := Lookup(table, clean);
      if exact.Some? then exact.value
      else
        var partial := PartialMatch(table, clean);
        if partial.Some? then partial.value else Unknown
  }

  function InferTicker(issuer: string): string { Infer(TickerMap, issuer) }

  /** The guard is the only difference: on a name that is not blank both agree. */
  lemma InferAgreesOnNames(table: seq<(string, string)>, issuer: string)
    requires CleanIssuer(issuer) != ""
    ensures InferAsWritten(table, issuer) == Infer(table, issuer)
  {
  }

  /** A name that is a table key maps to that key's ticker (the first such key); otherwise a ticker
      comes only from a key related to the name by containment, and `'UNKNOWN'` means no key is. */
  lemma InferMeaning(table: seq<(string, string)>, issuer: string)
    requires forall i :: 0 <= i < |table| ==> table[i].1 != Unknown
    requires forall i, j :: 0 <= i < j < |table| ==> table[i].0 != table[j].0
    ensures var clean := CleanIssuer(issuer); var r := Infer(table, issuer);
      && (clean != "" ==> forall i :: 0 <= i < |table| && table[i].0 == clean ==> r == table[i].1)
      && (r == Unknown <==> clean == "" || forall i :: 0 <= i < |table| ==> !Contains(clean, table[i].0) && !Contains(table[i].0, clean))
  {
    var clean := CleanIssuer(issuer);
    if clean != "" {
      var e := Lookup(table, clean);
      if e.Some? {
        var j :| 0 <= j < |table| && table[j] == (clean, e.value);
        forall i | 0 <= i < |table| && table[i].0 == clean ensures e.value == table[i].1 {
          assert i == j;
        }
        assert Contains(clean, clean) by { assert StartsWith(clean, clean); }
      }
    }
  }

  // ---------------------------------------------------------------------------
  // normalize_13f

  /** A 13F information-table row; absent text cells read as `''`, absent numbers as 0. */
  datatype RawHolding = RawHolding(cik: Option<string>, companyName: Option<string>, nameOfIssuer: Option<string>,
                                   cusip: Option<string>, value: Option<real>, shares: Option<real>)

  datatype CanonicalHolding = CanonicalHolding(cik: string, filer: string, ticker: string, name: string, cusip: string,
                                               valueUsd: real, shares: real, asOf: Date, source: string,
                                               ingestedAt: DateTime)

  function OrEmpty(x: Option<string>): string { if x.Some? then x.value else "" }

  /** `str.zfill(w)`: left-pad with zeros to width `w`, after a leading sign if there is one. */
  function ZFill(s: string, w: nat): (r: string)
    ensures |r| == if |s| >= w then |s| else w
    ensures |s| >= w ==> r == s
    ensures EndsWith(r, if s != [] && (s[0] == '+' || s[0] == '-') then s[1..] else s)
    ensures |s| < w && s != [] && (s[0] == '+' || s[0] == '-') ==>
      r[0] == s[0] && forall k :: 1 <= k <= w - |s| ==> r[k] == '0'
    ensures |s| < w && !(s != [] && (s[0] == '+' || s[0] == '-')) ==>
      forall k :: 0 <= k < w - |s| ==> r[k] == '0'
  {
    if |s| >= w then s
    else if s != [] && (s[0] == '+' || s[0] == '-') then [s[0]] + Repeat('0', w - |s|) + s[1..]
    else Repeat('0', w - |s|) + s
  }

  /** Values under a million are read as thousands of dollars. */
  function ValueInDollars(v: real): (usd: real)
    ensures v < 1000000.0 ==> usd == v * 1000.0
    ensures v >= 1000000.0 ==> usd == v
  {
    if v < 1000000.0 then v * 1000.0 else v
  }

  /** One canonical holding: the CIK zero-padded to ten digits, the ticker inferred from the issuer
      name by `infer`, the value in dollars, and the filing's date and source. */
  function HoldingOf(raw: RawHolding, infer: string -> string, asOf: Date, source: string, ingestedAt: DateTime)
    : (c: CanonicalHolding)
    ensures c.asOf == asOf && c.source == source
  {
    var cik := ZFill(OrEmpty(raw.cik), 10);
    var issuer := OrEmpty(raw.nameOfIssuer);
    CanonicalHolding(cik, OrEmpty(raw.companyName), infer(issuer), issuer, OrEmpty(raw.cusip),
                     ValueInDollars(OrZero(raw.value)), OrZero(raw.shares), asOf, source, ingestedAt)
  }

  /** The primary key `(cik, cusip, as_of)` with its canonical row. */
  function HoldingEntry(raw: RawHolding, infer: string -> string, asOf: Date, source: string, ingestedAt: DateTime)
    : (e: ((string, string, Date), CanonicalHolding))
  {
    var c := HoldingOf(raw, infer, asOf, source, ingestedAt);
    ((c.cik, c.cusip, asOf), c)
  }

  /** `HoldingEntry` for one filing, as a function of the row, with the ticker inferred as written. */
  function EntryOf(asOf: Date, source: string, ingestedAt: DateTime): RawHolding -> ((string, string, Date), CanonicalHolding)
  {
    raw => HoldingEntry(raw, InferTickerAsWritten, asOf, source, ingestedAt)
  }

  /** Each row with its key, in order. */
  function Entries<K, V>(raws: seq<RawHolding>, entry: RawHolding -> (K, V)): (ps: seq<(K, V)>)
    ensures |ps| == |raws| && forall i :: 0 <= i < |raws| ==> ps[i] == entry(raws[i])
  {
    seq(|raws|, i requires 0 <= i < |raws| => entry(raws[i]))
  }

  lemma EntriesSnoc<K, V>(raws: seq<RawHolding>, n: nat, entry: RawHolding -> (K, V))
    requires n < |raws|
    ensures Entries(raws[..n + 1], entry) == Entries(raws[..n], entry) + [entry(raws[n])]
  {
    var a, b := Entries(raws[..n + 1], entry), Entries(raws[..n], entry);
    forall i | 0 <= i < n ensures a[i] == b[i] {
      assert raws[..n + 1][i] == raws[..n][i];
    }
    assert a[n] == entry(raws[n]) by {
      assert raws[..n + 1][n] == raws[n];
    }
  }

  /** `normalize_13f`: the rows keyed by (cik, cusip, as_of), the last row of each key kept,
      in the order the keys first appear. */
  method Normalize13F(raws: seq<RawHolding>, source: string, asOf: Date, ingestedAt: DateTime)
    returns (rows: seq<CanonicalHolding>)
    ensures rows == Values(Entries(raws, EntryOf(asOf, source, ingestedAt)))
  {
    if raws == [] {
      return [];
    }
    rows := KeepLast(raws, EntryOf(asOf, source, ingestedAt));
  }

  /** The loop of `normalize_13f` over the rows, storing each row under its key. */
  method KeepLast<K(==), V>(raws: seq<RawHolding>, entry: RawHolding -> (K, V)) returns (vs: seq<V>)
    ensures vs == Values(Entries(raws, entry))
  {
    var keys: seq<K> := [];
    var table: map<K, V> := map[];
    var n := 0;
    while n < |raws|
      invariant n <= |raws|
      invariant keys == KeyOrder(Entries(raws[..n], entry))
      invariant table == Table(Entries(raws[..n], entry))
    {
      var e := entry(raws[n]);
      EntriesSnoc(raws, n, entry);
      keys, table := Store(keys, table, e);
      n := n + 1;
    }
    assert raws[..n] == raws;
    KeyOrderIsTable(Entries(raws, entry));
    return seq(|keys|, i requires 0 <= i < |keys| => table[keys[i]]);
  }

  /** A row without an issuer name is attributed to Apple by `normalize_13f`, and to
      `'UNKNOWN'` with the guard in place. */
  lemma BlankIssuerRowIsApple(raw: RawHolding, asOf: Date, source: string, ingestedAt: DateTime)
    requires CleanIssuer(OrEmpty(raw.nameOfIssuer)) == ""
    ensures HoldingOf(raw, InferTickerAsWritten, asOf, source, ingestedAt).ticker == "AAPL"
    ensures HoldingOf(raw, InferTicker, asOf, source, ingestedAt).ticker == Unknown
  {
    TickerMapKeysNonBlank();
    BlankIssuerTakesFirstAsWritten(TickerMap, OrEmpty(raw.nameOfIssuer));
  }

  /** Rows are deduplicated by key, keeping the last row of each key. */
  lemma EntriesDeduplicated<K, V>(raws: seq<RawHolding>, entry: RawHolding -> (K, V), i: nat)
    requires i < |raws|
    requires forall j :: i < j < |raws| ==> entry(raws[j]).0 != entry(raws[i]).0
    ensures var ps := Entries(raws, entry);
      |Values(ps)| <= |raws| && Distinct(KeyOrder(ps)) && entry(raws[i]).1 in Values(ps)
  {
    var ps := Entries(raws, entry);
    ValuesBound(ps);
    TableKeepsLast(ps, i);
    KeyOrderIsTable(ps);
    var ks := KeyOrder(ps);
    var k :| 0 <= k < |ks| && ks[k] == ps[i].0;
    assert Values(ps)[k] == ps[i].1;
  }

  /** Holdings are deduplicated by (cik, cusip, as_of), keeping the last row of each key. */
  lemma HoldingsDeduplicated(raws: seq<RawHolding>, asOf: Date, source: string, ingestedAt: DateTime, i: nat)
    requires i < |raws|
    requires forall j :: i < j < |raws| ==>
      HoldingEntry(raws[j], InferTickerAsWritten, asOf, source, ingestedAt).0 != HoldingEntry(raws[i], InferTickerAsWritten, asOf, source, ingestedAt).0
    ensures var ps := Entries(raws, EntryOf(asOf, source, ingestedAt));
      |Values(ps)| <= |raws| && Distinct(KeyOrder(ps)) && HoldingOf(raws[i], InferTickerAsWritten, asOf, source, ingestedAt) in Values(ps)
  {
    EntriesDeduplicated(raws, EntryOf(asOf, source, ingestedAt), i);
  }
}
