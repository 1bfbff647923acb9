// Insider-trading signals (sentiment/insider_trading.py): the net buying sentiment
// over a recent window, the clustering / large-transaction / consensus patterns, the
// abnormality of current activity against a baseline, and the record validator.
// `date.today()` is a parameter and numpy/scipy are the uninterpreted `MathOps`.
module InsiderTrading {
  import opened Wrappers
  import opened Dates
  import opened Numerics
  import opened Abnormality

  datatype Transaction = Transaction(transactionDate: CalendarDate, transactionType: string,
                                     totalValue: Option<real>, shares: real, insiderName: string)

  const Buy := "buy"
  const Sell := "sell"

  /** `tx['total_value'] or 0.0`. */
  function ValueOf(tx: Transaction): real
  {
    if tx.totalValue.Some? then tx.totalValue.value else 0.0
  }

  /** `tx['transaction_date'] >= date.today() - timedelta(days=days)`, on day numbers. */
  predicate InWindow(tx: Transaction, today: CalendarDate, days: int)
  {
    Ordinal(tx.transactionDate) >= Ordinal(today) - days
  }

  /** `[tx for tx in txs if p(tx)]`: the transactions satisfying `p`, each as often as it
      occurs (`KeepCounts`), in their order (`KeepAppend`). */
  function Keep(txs: seq<Transaction>, p: Transaction -> bool): (r: seq<Transaction>)
    ensures |r| <= |txs|
    decreases |txs|
  {
    if txs == [] then []
    else
      var init := txs[..|txs| - 1];
      var tx := txs[|txs| - 1];
      Keep(init, p) + (if p(tx) then [tx] else [])
  }

  /** Every transaction satisfying the test is kept as often as it occurs, and no other. */
  lemma {:induction false} KeepCounts(txs: seq<Transaction>, p: Transaction -> bool)
    ensures forall k :: 0 <= k < |Keep(txs, p)| ==> p(Keep(txs, p)[k])
    ensures forall tx :: multiset(Keep(txs, p))[tx] == if p(tx) then multiset(txs)[tx] else 0
    ensures forall tx :: tx in txs && p(tx) ==> tx in Keep(txs, p)
    ensures forall tx :: tx in Keep(txs, p) ==> tx in txs
    decreases |txs|
  {
    if txs != [] {
      var init := txs[..|txs| - 1];
      assert txs == init + [txs[|txs| - 1]];
      KeepCounts(init, p);
    }
  }

  /** Filtering keeps the order: it filters each part of a concatenation in turn. */
  lemma {:induction false} KeepAppend(a: seq<Transaction>, b: seq<Transaction>, p: Transaction -> bool)
    ensures Keep(a + b, p) == Keep(a, p) + Keep(b, p)
    decreases |b|
  {
    if b == [] {
      assert a + b == a;
    } else {
      var init := b[..|b| - 1];
      var last := b[|b| - 1];
      var ab := a + b;
      assert ab[..|ab| - 1] == a + init;
      assert ab[|ab| - 1] == last;
      KeepAppend(a, init, p);
      var tail := if p(last) then [last] else [];
      calc {
        Keep(ab, p);
        Keep(a + init, p) + tail;
        Keep(a, p) + Keep(init, p) + tail;
        Keep(a, p) + (Keep(init, p) + tail);
      }
    }
  }

  /** A single transaction is kept exactly when it satisfies the test. */
  lemma KeepSingle(tx: Transaction, p: Transaction -> bool)
    ensures Keep([tx], p) == if p(tx) then [tx] else []
  {
    assert [tx][..0] == [];
  }

  /** The transactions inside the window: `[tx for tx in txs if tx['transaction_date'] >= cutoff]`. */
  function Windowed(txs: seq<Transaction>, today: CalendarDate, days: int): (r: seq<Transaction>)
    ensures |r| <= |txs|
    ensures forall k :: 0 <= k < |r| ==> r[k] in txs && InWindow(r[k], today, days)
    ensures forall tx :: tx in txs && InWindow(tx, today, days) ==> tx in r
  {
    var inWindow := (tx: Transaction) => InWindow(tx, today, days);
    KeepCounts(txs, inWindow);
    Keep(txs, inWindow)
  }

  /** How many transactions have the given type. */
  function KindCount(txs: seq<Transaction>, kind: string): (n: nat)
    ensures n <= |txs|
  {
    if txs == [] then 0
    else KindCount(txs[..|txs| - 1], kind) + (if txs[|txs| - 1].transactionType == kind then 1 else 0)
  }

  /** The summed value of the transactions of the given type. */
  function KindValue(txs: seq<Transaction>, kind: string): real
  {
    if txs == [] then 0.0
    else KindValue(txs[..|txs| - 1], kind) + (if txs[|txs| - 1].transactionType == kind then ValueOf(txs[|txs| - 1]) else 0.0)
  }

  predicate NonNegativeValues(txs: seq<Transaction>)
  {
    forall k :: 0 <= k < |txs| ==> ValueOf(txs[k]) >= 0.0
  }

  lemma {:induction false} KindValueNonNegative(txs: seq<Transaction>, kind: string)
    requires NonNegativeValues(txs)
    ensures KindValue(txs, kind) >= 0.0
    decreases |txs|
  {
    if txs != [] {
      KindValueNonNegative(txs[..|txs| - 1], kind);
    }
  }

  /** No transaction of a kind contributes nothing of that kind. */
  lemma {:induction false} KindValueAbsent(txs: seq<Transaction>, kind: string)
    requires forall k :: 0 <= k < |txs| ==> txs[k].transactionType != kind
    ensures KindValue(txs, kind) == 0.0 && KindCount(txs, kind) == 0
    decreases |txs|
  {
    if txs != [] {
      KindValueAbsent(txs[..|txs| - 1], kind);
    }
  }

  /** Only transactions of a kind, each worth something: their total is positive. */
  lemma {:induction false} KindValuePositive(txs: seq<Transaction>, kind: string)
    requires txs != []
    requires forall k :: 0 <= k < |txs| ==> txs[k].transactionType == kind && ValueOf(txs[k]) > 0.0
    ensures KindValue(txs, kind) > 0.0
    decreases |txs|
  {
    if |txs| > 1 {
      KindValuePositive(txs[..|txs| - 1], kind);
    }
  }

  // ---------------------------------------------------------------------------
  // calculate_insider_sentiment

  datatype Sentiment =
    | NoData
    | NoRecentData(windowDays: int)
    | Sentiment(windowDays: int, transactionCount: nat, buyCount: nat, sellCount: nat,
                buyValue: real, sellValue: real, netValue: real, totalValue: real,
                score: real, sentimentClass: string, direction: string, intensity: real, confidence: real)

  const DivisionByZero := "division by zero"
  const Neutral := "neutral"
  const Moderate := "moderate"
  const Strong := "strong"
  const Bullish := "bullish"
  const Bearish := "bearish"

  /** `net / total`, or 0 when nothing positive changed hands. */
  function Score(buyValue: real, sellValue: real): (s: real)
    ensures buyValue >= 0.0 && sellValue >= 0.0 ==> -1.0 <= s <= 1.0
    ensures s > 0.0 ==> buyValue > sellValue
    ensures s < 0.0 ==> sellValue > buyValue
  {
    var total := buyValue + sellValue;
    if total > 0.0 then
      RatioSign(buyValue - sellValue, total);
      RatioWithinOne(buyValue - sellValue, total);
      (buyValue - sellValue) / total
    else 0.0
  }

  lemma RatioSign(n: real, t: real)
    requires t > 0.0
    ensures n / t > 0.0 ==> n > 0.0
    ensures n / t < 0.0 ==> n < 0.0
  {
    assert n / t * t == n;
  }

  lemma RatioWithinOne(n: real, t: real)
    requires t > 0.0
    ensures -t <= n <= t ==> -1.0 <= n / t <= 1.0
  {
    var q := n / t;
    assert q * t == n;
    if q > 1.0 {
      assert q * t > t;
    }
    if q < -1.0 {
      assert q * t < -t;
    }
  }

  /** `|s| <= 0.2` neutral, `<= 0.6` moderate, else strong. */
  function SentimentClass(score: real): string
  {
    var a := Abs(score);
    if a <= 0.2 then Neutral else if a <= 0.6 then Moderate else Strong
  }

  /** Above 0.1 bullish, below -0.1 bearish, else neutral. */
  function Direction(score: real): string
  {
    if score > 0.1 then Bullish else if score < -0.1 then Bearish else Neutral
  }

  /** A moderate or strong sentiment always has a direction, and the direction follows the sign. */
  lemma ClassImpliesDirection(score: real)
    ensures SentimentClass(score) != Neutral ==> Direction(score) != Neutral
    ensures Direction(score) == Bullish ==> score > 0.0
    ensures Direction(score) == Bearish ==> score < 0.0
    ensures Direction(-score) == (if Direction(score) == Bullish then Bearish
                                 else if Direction(score) == Bearish then Bullish else Neutral)
  {
  }

  /** `calculate_insider_sentiment` at `today`. */
  function InsiderSentiment(txs: seq<Transaction>, windowDays: int, today: CalendarDate): (r: Result<Sentiment>)
    ensures r == Ok(NoData) <==> txs == []
    ensures r.Ok? && r.value.NoRecentData? <==> txs != [] && Windowed(txs, today, windowDays) == []
    ensures r.Ok? && r.value.NoRecentData? ==> r.value.windowDays == windowDays
    ensures r.Err? <==> windowDays == 0 && Windowed(txs, today, windowDays) != []
    ensures r.Ok? && r.value.Sentiment? ==>
      var s := r.value;
      && s.transactionCount == |Windowed(txs, today, windowDays)| > 0
      && s.buyValue == KindValue(Windowed(txs, today, windowDays), Buy)
      && s.sellValue == KindValue(Windowed(txs, today, windowDays), Sell)
      && s.windowDays == windowDays
      && s.buyCount == KindCount(Windowed(txs, today, windowDays), Buy)
      && s.sellCount == KindCount(Windowed(txs, today, windowDays), Sell)
      && s.buyCount + s.sellCount <= s.transactionCount
      && s.intensity == s.transactionCount as real / windowDays as real
      && s.totalValue == s.buyValue + s.sellValue && s.netValue == s.buyValue - s.sellValue
      && s.score == Score(s.buyValue, s.sellValue)
      && s.sentimentClass == SentimentClass(s.score) && s.direction == Direction(s.score)
      && s.confidence == Confidence(s.transactionCount, 5.0)
  {
    if txs == [] then Ok(NoData)
    else
      var w := Windowed(txs, today, windowDays);
      if w == [] then Ok(NoRecentData(windowDays))
      else if windowDays == 0 then Err(DivisionByZero)
      else
        var b := KindValue(w, Buy);
        var s := KindValue(w, Sell);
        KindCountsDisjoint(w);
        var score := Score(b, s);
        Ok(Sentiment(windowDays, |w|, KindCount(w, Buy), KindCount(w, Sell), b, s, b - s, b + s,
                     score, SentimentClass(score), Direction(score),
                     |w| as real / windowDays as real, Confidence(|w|, 5.0)))
  }

  lemma {:induction false} KindCountsDisjoint(txs: seq<Transaction>)
    ensures KindCount(txs, Buy) + KindCount(txs, Sell) <= |txs|
    decreases |txs|
  {
    if txs != [] {
      KindCountsDisjoint(txs[..|txs| - 1]);
    }
  }

  /** The buy/sell tally loop of `calculate_insider_sentiment`. */
  method Tally(w: seq<Transaction>) returns (buyValue: real, sellValue: real, buyCount: nat, sellCount: nat)
    ensures buyValue == KindValue(w, Buy) && sellValue == KindValue(w, Sell)
    ensures buyCount == KindCount(w, Buy) && sellCount == KindCount(w, Sell)
  {
    buyValue, sellValue, buyCount, sellCount := 0.0, 0.0, 0, 0;
    var i := 0;
    while i < |w|
      invariant i <= |w|
      invariant buyValue == KindValue(w[..i], Buy) && sellValue == KindValue(w[..i], Sell)
      invariant buyCount == KindCount(w[..i], Buy) && sellCount == KindCount(w[..i], Sell)
    {
      assert w[..i + 1][..i] == w[..i];
      var tx := w[i];
      if tx.transactionType == Buy {
        buyValue := buyValue + ValueOf(tx);
        buyCount := buyCount + 1;
      } else if tx.transactionType == Sell {
        sellValue := sellValue + ValueOf(tx);
        sellCount := sellCount + 1;
      }
      i := i + 1;
    }
    assert w[..i] == w;
  }

  /** `calculate_insider_sentiment`. */
  method CalculateInsiderSentiment(txs: seq<Transaction>, windowDays: int, today: CalendarDate)
    returns (r: Result<Sentiment>)
    ensures r == InsiderSentiment(txs, windowDays, today)
  {
    if txs == [] {
      return Ok(NoData);
    }
    var w := Windowed(txs, today, windowDays);
    if w == [] {
      return Ok(NoRecentData(windowDays));
    }
    var buyValue, sellValue, buyCount, sellCount := Tally(w);
    var total := buyValue + sellValue;
    var net := buyValue - sellValue;
    var score := if total > 0.0 then net / total else 0.0;
    if windowDays == 0 {
      return Err(DivisionByZero);
    }
    var intensity := |w| as real / windowDays as real;
    r := Ok(Sentiment(windowDays, |w|, buyCount, sellCount, buyValue, sellValue, net, total,
                      score, SentimentClass(score), Direction(score), intensity, Min(1.0, |w| as real / 5.0)));
  }

  /** With non-negative values the score is within [-1, 1], and a bullish reading means more
      was bought than sold. */
  lemma SentimentScoreBounded(txs: seq<Transaction>, windowDays: int, today: CalendarDate)
    requires NonNegativeValues(txs)
    requires InsiderSentiment(txs, windowDays, today).Ok?
    requires InsiderSentiment(txs, windowDays, today).value.Sentiment?
    ensures var s := InsiderSentiment(txs, windowDays, today).value;
      -1.0 <= s.score <= 1.0
      && (s.direction == Bullish ==> s.buyValue > s.sellValue)
      && (s.direction == Bearish ==> s.sellValue > s.buyValue)
  {
    var w := Windowed(txs, today, windowDays);
    assert NonNegativeValues(w);
    KindValueNonNegative(w, Buy);
    KindValueNonNegative(w, Sell);
    var s := InsiderSentiment(txs, windowDays, today).value;
    ClassImpliesDirection(s.score);
  }

  lemma OneSidedScore(b: real)
    requires b > 0.0
    ensures Score(b, 0.0) == 1.0 && SentimentClass(1.0) == Strong && Direction(1.0) == Bullish
  {
    assert (b - 0.0) / (b + 0.0) == b / b == 1.0;
  }

  /** A window holding only purchases with a value reads as a strong bullish score of 1. */
  lemma UnanimousBuyingIsStrongBullish(txs: seq<Transaction>, windowDays: int, today: CalendarDate)
    requires windowDays != 0
    requires Windowed(txs, today, windowDays) != []
    requires var w := Windowed(txs, today, windowDays);
      forall k :: 0 <= k < |w| ==> w[k].transactionType == Buy && ValueOf(w[k]) > 0.0
    ensures var r := InsiderSentiment(txs, windowDays, today);
      r.Ok? && r.value.Sentiment? && r.value.score == 1.0
      && r.value.sentimentClass == Strong && r.value.direction == Bullish
  {
    var w := Windowed(txs, today, windowDays);
    KindValueAbsent(w, Sell);
    KindValuePositive(w, Buy);
    OneSidedScore(KindValue(w, Buy));
  }

  // ---------------------------------------------------------------------------
  // detect_insider_patterns

  datatype Pattern =
    | Clustering(transactionCount: nat, totalValue: real, startDate: Date, endDate: Date, abnormality: real)
    | LargeTransaction(transactionValue: Option<real>, transactionDate: Date, insiderName: string, abnormality: real)
    | Consensus(direction: string, consensusRatio: real, abnormality: real)

  datatype PatternReport =
    | NoPatternData
    | PatternReport(lookbackDays: int, totalTransactions: nat, patterns: seq<Pattern>)

  const ClusteringThreshold := 3
  const ClusteringWindow := 5

  /** `abs((a - b).days) <= 5`. */
  predicate Near(a: CalendarDate, b: CalendarDate)
  {
    -ClusteringWindow <= Ordinal(a) - Ordinal(b) <= ClusteringWindow
  }

  /** The later transactions within the clustering window of `anchor`: the order-preserving
      filter `Keep`, so each is kept as often as it occurs and in order (`ClusterComplete`). */
  function NearOnes(rest: seq<Transaction>, anchor: CalendarDate): (r: seq<Transaction>)
    ensures |r| <= |rest|
  {
    Keep(rest, (t: Transaction) => Near(t.transactionDate, anchor))
  }

  /** `cluster_transactions` for the i-th transaction: the anchor, then the later transactions
      within five days of it. */
  function ClusterAt(recent: seq<Transaction>, i: nat): (c: seq<Transaction>)
    requires i < |recent|
    ensures c != [] && c[0] == recent[i] && |c| <= |recent| - i
  {
    [recent[i]] + NearOnes(recent[i + 1..], recent[i].transactionDate)
  }

  /** Every member of a cluster lies within five days of its anchor. */
  lemma ClusterNear(recent: seq<Transaction>, i: nat)
    requires i < |recent|
    ensures var c := ClusterAt(recent, i);
      forall k :: 0 <= k < |c| ==> Near(c[k].transactionDate, recent[i].transactionDate)
  {
    var anchor := recent[i].transactionDate;
    KeepCounts(recent[i + 1..], (t: Transaction) => Near(t.transactionDate, anchor));
  }

  /** After its anchor, a cluster holds every later transaction within five days of the anchor,
      each as often as it occurs among the later ones, and no other. */
  lemma ClusterComplete(recent: seq<Transaction>, i: nat)
    requires i < |recent|
    ensures var c := ClusterAt(recent, i);
      forall t :: multiset(c[1..])[t]
                  == (if Near(t.transactionDate, recent[i].transactionDate) then multiset(recent[i + 1..])[t] else 0)
    ensures forall k :: i < k < |recent| && Near(recent[k].transactionDate, recent[i].transactionDate) ==>
      recent[k] in ClusterAt(recent, i)
  {
    var anchor := recent[i].transactionDate;
    var rest := recent[i + 1..];
    var near := (t: Transaction) => Near(t.transactionDate, anchor);
    KeepCounts(rest, near);
    var c := ClusterAt(recent, i);
    assert c[1..] == Keep(rest, near);
    forall k | i < k < |recent| && Near(recent[k].transactionDate, anchor)
      ensures recent[k] in c
    {
      assert recent[k] == rest[k - i - 1];
      assert recent[k] in c[1..];
    }
  }

  function DatesOf(c: seq<Transaction>): (ds: seq<Date>)
    ensures |ds| == |c| && forall k :: 0 <= k < |c| ==> ds[k] == c[k].transactionDate
  {
    seq(|c|, k requires 0 <= k < |c| => c[k].transactionDate)
  }

  function ValuesOf(c: seq<Transaction>): (vs: seq<real>)
    ensures |vs| == |c| && forall k :: 0 <= k < |c| ==> vs[k] == ValueOf(c[k])
  {
    seq(|c|, k requires 0 <= k < |c| => ValueOf(c[k]))
  }

  function ClusterPattern(c: seq<Transaction>): Pattern
    requires c != []
  {
    Clustering(|c|, Sum(ValuesOf(c)), Earliest(DatesOf(c)), Latest(DatesOf(c)), Min(3.0, |c| as real / 2.0))
  }

  /** `len(cluster_transactions)` for each anchor in turn. */
  function ClusterSizes(recent: seq<Transaction>): (sizes: seq<nat>)
    ensures |sizes| == |recent|
    ensures forall i :: 0 <= i < |recent| ==> sizes[i] == |ClusterAt(recent, i)|
  {
    seq(|recent|, i requires 0 <= i < |recent| => |ClusterAt(recent, i)|)
  }

  /** The positions among the first `n` whose size reaches the clustering threshold, in
      increasing order. */
  function Anchors(sizes: seq<nat>, n: nat): (a: seq<nat>)
    requires n <= |sizes|
    ensures forall k :: 0 <= k < |a| ==> a[k] < n && sizes[a[k]] >= ClusteringThreshold
    ensures forall k, l :: 0 <= k < l < |a| ==> a[k] < a[l]
  {
    if n == 0 then []
    else if sizes[n - 1] >= ClusteringThreshold then Anchors(sizes, n - 1) + [n - 1]
    else Anchors(sizes, n - 1)
  }

  /** No position that reaches the threshold is missed. */
  lemma {:induction false} AnchorsComplete(sizes: seq<nat>, n: nat, i: nat)
    requires i < n <= |sizes| && sizes[i] >= ClusteringThreshold
    ensures i in Anchors(sizes, n)
  {
    if i < n - 1 {
      AnchorsComplete(sizes, n - 1, i);
    }
  }

  /** The clustering patterns anchored at the first `n` recent transactions: the k-th is the
      pattern of the k-th anchor whose cluster holds at least three transactions. */
  function ClusterPatterns(recent: seq<Transaction>, n: nat): (ps: seq<Pattern>)
    requires n <= |recent|
    ensures var a := Anchors(ClusterSizes(recent), n);
      |ps| == |a| && forall k :: 0 <= k < |ps| ==> ps[k] == ClusterPattern(ClusterAt(recent, a[k]))
  {
    if n == 0 then []
    else
      var c := ClusterAt(recent, n - 1);
      var earlier := ClusterPatterns(recent, n - 1);
      assert ClusterSizes(recent)[n - 1] == |c|;
      earlier + (if |c| >= ClusteringThreshold then [ClusterPattern(c)] else [])
  }

  /** Every anchor whose cluster holds at least three transactions yields its pattern. */
  lemma ClusterPatternsComplete(recent: seq<Transaction>, i: nat)
    requires i < |recent| && |ClusterAt(recent, i)| >= ClusteringThreshold
    ensures ClusterPattern(ClusterAt(recent, i)) in ClusterPatterns(recent, |recent|)
  {
    var sizes := ClusterSizes(recent);
    AnchorsComplete(sizes, |recent|, i);
    var a := Anchors(sizes, |recent|);
    var k :| 0 <= k < |a| && a[k] == i;
    assert ClusterPatterns(recent, |recent|)[k] == ClusterPattern(ClusterAt(recent, i));
  }

  /** The inner loop of the clustering pass. */
  method GatherCluster(recent: seq<Transaction>, i: nat) returns (cluster: seq<Transaction>)
    requires i < |recent|
    ensures cluster == ClusterAt(recent, i)
  {
    var anchor := recent[i].transactionDate;
    var rest := recent[i + 1..];
    var near := [];
    var j := 0;
    while j < |rest|
      invariant j <= |rest|
      invariant near == NearOnes(rest[..j], anchor)
    {
      assert rest[..j + 1][..j] == rest[..j];
      var other := rest[j];
      if -ClusteringWindow <= Ordinal(other.transactionDate) - Ordinal(anchor) <= ClusteringWindow {
        near := near + [other];
      }
      j := j + 1;
    }
    assert rest[..j] == rest;
    cluster := [recent[i]] + near;
  }

  /** The clustering pass of `detect_insider_patterns`. */
  method DetectClusters(recent: seq<Transaction>) returns (patterns: seq<Pattern>)
    ensures patterns == ClusterPatterns(recent, |recent|)
  {
    patterns := [];
    var i := 0;
    while i < |recent|
      invariant i <= |recent|
      invariant patterns == ClusterPatterns(recent, i)
    {
      var cluster := GatherCluster(recent, i);
      if |cluster| >= ClusteringThreshold {
        patterns := patterns + [ClusterPattern(cluster)];
      }
      i := i + 1;
    }
  }

  /** A clustering pattern groups at least three transactions, spans at most ten days (each lies
      within five days of the anchor), starts no later than it ends, and scores in [1.5, 3]. */
  lemma ClusterPatternMeaning(recent: seq<Transaction>, i: nat)
    requires i < |recent| && |ClusterAt(recent, i)| >= ClusteringThreshold
    ensures var p := ClusterPattern(ClusterAt(recent, i));
      && p.transactionCount >= 3
      && Valid(p.startDate) && Valid(p.endDate)
      && NotAfter(p.startDate, p.endDate)
      && 0 <= Ordinal(p.endDate) - Ordinal(p.startDate) <= 2 * ClusteringWindow
      && 1.5 <= p.abnormality <= 3.0
  {
    var c := ClusterAt(recent, i);
    var ds := DatesOf(c);
    var first := Earliest(ds);
    var last := Latest(ds);
    var a :| 0 <= a < |ds| && ds[a] == first;
    var b :| 0 <= b < |ds| && ds[b] == last;
    ClusterNear(recent, i);
    assert Near(c[a].transactionDate, recent[i].transactionDate);
    assert Near(c[b].transactionDate, recent[i].transactionDate);
    assert NotAfter(first, ds[b]);
    OrdinalOrder(first, last);
  }

  predicate HasValue(tx: Transaction)
  {
    ValueOf(tx) != 0.0
  }

  /** `[tx['total_value'] or 0 for tx in recent if tx['total_value']]`: the values of the
      transactions that have one, in order. */
  function NonZeroValues(recent: seq<Transaction>): (vs: seq<real>)
    ensures forall k :: 0 <= k < |vs| ==> vs[k] != 0.0
    ensures vs == ValuesOf(Keep(recent, HasValue))
  {
    if recent == [] then []
    else
      var tx := recent[|recent| - 1];
      var init := recent[..|recent| - 1];
      ValuesAppend(Keep(init, HasValue), if HasValue(tx) then [tx] else []);
      NonZeroValues(init) + (if ValueOf(tx) != 0.0 then [ValueOf(tx)] else [])
  }

  lemma ValuesAppend(a: seq<Transaction>, b: seq<Transaction>)
    ensures ValuesOf(a + b) == ValuesOf(a) + ValuesOf(b)
  {
    assert forall k :: 0 <= k < |a + b| ==> ValuesOf(a + b)[k] == (ValuesOf(a) + ValuesOf(b))[k];
  }

  /** `min(3.0, value / p90)`; numpy's division by a zero threshold gives infinity, capped to 3. */
  function LargeScore(value: real, p90: real): (s: real)
    ensures s <= 3.0
    ensures p90 > 0.0 && value > p90 ==> s > 1.0
  {
    if p90 == 0.0 then 3.0
    else
      QuotientAboveOne(value, p90);
      Min(3.0, value / p90)
  }

  lemma QuotientAboveOne(value: real, p90: real)
    requires p90 != 0.0
    ensures p90 > 0.0 && value > p90 ==> value / p90 > 1.0
  {
    assert value / p90 * p90 == value;
  }

  /** The large-transaction pattern of one transaction. */
  function LargeOf(tx: Transaction, p90: real): Pattern
  {
    LargeTransaction(tx.totalValue, tx.transactionDate, tx.insiderName, LargeScore(ValueOf(tx), p90))
  }

  /** The transactions above the threshold, in order, as large-transaction patterns: the k-th
      pattern is that of the k-th transaction whose value exceeds the threshold. */
  function LargePatterns(recent: seq<Transaction>, p90: real): (ps: seq<Pattern>)
    ensures |ps| <= |recent|
    ensures forall k :: 0 <= k < |ps| ==>
      ps[k].LargeTransaction? && ps[k].abnormality <= 3.0 && (if ps[k].transactionValue.Some? then ps[k].transactionValue.value else 0.0) > p90
    ensures var above := Keep(recent, (tx: Transaction) => ValueOf(tx) > p90);
      |ps| == |above| && forall k :: 0 <= k < |ps| ==> ps[k] == LargeOf(above[k], p90)
    ensures forall tx :: tx in recent && ValueOf(tx) > p90 ==> LargeOf(tx, p90) in ps
  {
    if recent == [] then []
    else
      var tx := recent[|recent| - 1];
      var init := recent[..|recent| - 1];
      assert recent == init + [tx];
      LargePatterns(init, p90) + (if ValueOf(tx) > p90 then [LargeOf(tx, p90)] else [])
  }

  /** The large-transaction pass: only with five or more recent transactions and some non-zero
      value, against their 90th percentile. */
  function LargeTransactionPatterns(recent: seq<Transaction>, ops: MathOps): seq<Pattern>
  {
    if |recent| < 5 then []
    else
      var values := NonZeroValues(recent);
      if values == [] then [] else LargePatterns(recent, ops.percentile(values, 90.0))
  }

  /** The consensus pass: a pattern exactly when at least three transactions are purchases or
      sales and at least 80% of them are purchases (bullish, ratio b/t) or at most 20% are
      (bearish, ratio 1 - b/t), scored (ratio - 0.5) * 4. */
  function ConsensusPatterns(recent: seq<Transaction>): (ps: seq<Pattern>)
    ensures |ps| <= 1
    ensures var b, s := KindCount(recent, Buy), KindCount(recent, Sell);
      && (ps != [] <==> b + s >= 3 && (5 * b >= 4 * (b + s) || 5 * b <= b + s))
      && (ps != [] && 5 * b >= 4 * (b + s) ==>
            ps[0].Consensus? && ps[0].direction == Bullish && ps[0].consensusRatio == b as real / (b + s) as real)
      && (ps != [] && 5 * b < 4 * (b + s) ==>
            ps[0].Consensus? && ps[0].direction == Bearish && ps[0].consensusRatio == 1.0 - b as real / (b + s) as real)
      && (ps != [] ==> ps[0].Consensus? && ps[0].abnormality == (ps[0].consensusRatio - 0.5) * 4.0)
  {
    KindCountsDisjoint(recent);
    if |recent| < 3 then []
    else
      var b := KindCount(recent, Buy);
      var s := KindCount(recent, Sell);
      var total := b + s;
      if total < 3 then []
      else
        var ratio := b as real / total as real;
        RatioThresholds(b, s);
        if ratio >= 0.8 then [Consensus(Bullish, ratio, (ratio - 0.5) * 4.0)]
        else if ratio <= 0.2 then [Consensus(Bearish, 1.0 - ratio, (0.5 - ratio) * 4.0)]
        else []
  }

  /** A bullish consensus means at least four purchases per sale, a bearish one at least four
      sales per purchase; the ratio is at least 0.8 and the score between 1.2 and 2. */
  lemma ConsensusMeaning(recent: seq<Transaction>)
    requires ConsensusPatterns(recent) != []
    ensures var p := ConsensusPatterns(recent)[0];
      var b := KindCount(recent, Buy);
      var s := KindCount(recent, Sell);
      && b + s >= 3
      && 0.8 <= p.consensusRatio <= 1.0 && 1.2 <= p.abnormality <= 2.0
      && (p.direction == Bullish ==> b >= 4 * s)
      && (p.direction == Bearish ==> s >= 4 * b)
      && (p.direction == Bullish || p.direction == Bearish)
  {
    ConsensusRatio(KindCount(recent, Buy), KindCount(recent, Sell));
  }

  /** For a positive t, a quotient q = n / t is at least (at most) c exactly when n is at least
      (at most) c * t. */
  lemma QuotientVersus(n: real, t: real, q: real, c: real)
    requires t > 0.0 && q * t == n
    ensures q >= c <==> n >= c * t
    ensures q <= c <==> n <= c * t
  {
    assert (q - c) * t == q * t - c * t;
    if q > c {
      PositiveProduct(q - c, t);
    } else if q < c {
      PositiveProduct(c - q, t);
    }
  }

  /** The ratio thresholds on counts: b/t >= 0.8 exactly when 5b >= 4t, and b/t <= 0.2 exactly
      when 5b <= t. */
  lemma RatioThresholds(b: nat, s: nat)
    requires b + s >= 3
    ensures var t := (b + s) as real;
      && (b as real / t >= 0.8 <==> 5 * b >= 4 * (b + s))
      && (b as real / t <= 0.2 <==> 5 * b <= b + s)
  {
    var br := b as real;
    var t := (b + s) as real;
    QuotientVersus(br, t, br / t, 0.8);
    QuotientVersus(br, t, br / t, 0.2);
  }

  lemma PositiveProduct(x: real, y: real)
    requires x > 0.0 && y > 0.0
    ensures x * y > 0.0
  {
  }

  lemma NonNegativeProduct(x: real, y: real)
    requires x >= 0.0 && y >= 0.0
    ensures x * y >= 0.0
  {
  }

  lemma ConsensusRatio(b: nat, s: nat)
    requires b + s >= 3
    ensures var ratio := b as real / (b + s) as real;
      && 0.0 <= ratio <= 1.0
      && (ratio >= 0.8 ==> b >= 4 * s)
      && (ratio <= 0.2 ==> s >= 4 * b)
  {
    var br, sr := b as real, s as real;
    var t := br + sr;
    assert (b + s) as real == t;
    var ratio := br / t;
    assert ratio * t == br;
    if ratio > 1.0 {
      NonNegativeProduct(ratio - 1.0, t);
    }
    if ratio >= 0.8 {
      NonNegativeProduct(ratio - 0.8, t);
      assert br >= 4.0 * sr;
    }
    if ratio <= 0.2 {
      NonNegativeProduct(0.2 - ratio, t);
      assert sr >= 4.0 * br;
    }
  }

  /** `detect_insider_patterns` at `today`. */
  function InsiderPatterns(txs: seq<Transaction>, lookbackDays: int, today: CalendarDate, ops: MathOps): (r: PatternReport)
    ensures r.NoPatternData? <==> txs == []
    ensures r.PatternReport? ==>
      var recent := Windowed(txs, today, lookbackDays);
      && r.lookbackDays == lookbackDays
      && r.totalTransactions == |recent|
      && r.patterns == ClusterPatterns(recent, |recent|) + LargeTransactionPatterns(recent, ops)
                       + ConsensusPatterns(recent)
  {
    if txs == [] then NoPatternData
    else
      var recent := Windowed(txs, today, lookbackDays);
      PatternReport(lookbackDays, |recent|,
                    ClusterPatterns(recent, |recent|) + LargeTransactionPatterns(recent, ops) + ConsensusPatterns(recent))
  }

  /** The report holds the pattern of every cluster of at least three recent transactions. */
  lemma InsiderPatternsHoldClusters(txs: seq<Transaction>, lookbackDays: int, today: CalendarDate, ops: MathOps, i: nat)
    requires txs != []
    requires var recent := Windowed(txs, today, lookbackDays);
      i < |recent| && |ClusterAt(recent, i)| >= ClusteringThreshold
    ensures var recent := Windowed(txs, today, lookbackDays);
      ClusterPattern(ClusterAt(recent, i)) in InsiderPatterns(txs, lookbackDays, today, ops).patterns
  {
    ClusterPatternsComplete(Windowed(txs, today, lookbackDays), i);
  }

  /** `detect_insider_patterns`. */
  method DetectInsiderPatterns(txs: seq<Transaction>, lookbackDays: int, today: CalendarDate, ops: MathOps)
    returns (r: PatternReport)
    ensures r == InsiderPatterns(txs, lookbackDays, today, ops)
  {
    if txs == [] {
      return NoPatternData;
    }
    var recent := Windowed(txs, today, lookbackDays);
    var patterns := DetectClusters(recent);
    patterns := patterns + LargeTransactionPatterns(recent, ops);
    patterns := patterns + ConsensusPatterns(recent);
    r := PatternReport(lookbackDays, |recent|, patterns);
  }

  // ---------------------------------------------------------------------------
  // detect_insider_abnormality

  datatype Stat = Stat(mean: real, std: real)

  /** The baseline statistics; `NotReady` is any status other than `success`. */
  datatype Baseline =
    | NotReady
    | Ready(dataPoints: nat, transactionCount: Stat, transactionValue: Stat, netShares: Stat)

  /** The current period's metrics; a missing one reads as 0. */
  datatype CurrentMetrics = CurrentMetrics(transactionCount: Option<real>, transactionValue: Option<real>,
                                           netShares: Option<real>)

  datatype MetricResult = MetricResult(currentValue: real, baselineMean: real, baselineStd: real,
                                       zScore: real, percentile: real, classification: string)

  datatype AbnormalityReport =
    | NoBaseline
    | AbnormalityReport(metrics: seq<MetricResult>, composite: real, overallClassification: string,
                        confidence: real, baselineDataPoints: nat)

  function OrZero(x: Option<real>): real { if x.Some? then x.value else 0.0 }

  /** The three metrics, in the source's order, paired with their baseline statistics. */
  function MetricInputs(current: CurrentMetrics, baseline: Baseline): seq<(real, Stat)>
    requires baseline.Ready?
  {
    [(OrZero(current.transactionCount), baseline.transactionCount),
     (OrZero(current.transactionValue), baseline.transactionValue),
     (OrZero(current.netShares), baseline.netShares)]
  }

  /** One metric of `detect_insider_abnormality`: its capped z-score against the baseline, the
      normal percentile of that score, and the class of its magnitude. */
  function MetricOf(value: real, stat: Stat, cap: real, ops: MathOps): (m: MetricResult)
    ensures m.currentValue == value && m.baselineMean == stat.mean && m.baselineStd == stat.std
    ensures m.zScore == CappedZScore(value, stat.mean, stat.std, cap)
    ensures Abs(m.zScore) <= Abs(cap)
    ensures m.percentile == ops.normCdf(m.zScore)
    ensures m.classification == ZClass(Abs(m.zScore))
  {
    var z := CappedZScore(value, stat.mean, stat.std, cap);
    MetricResult(value, stat.mean, stat.std, z, ops.normCdf(z), ZClass(Abs(z)))
  }

  function AbsZSum(ms: seq<MetricResult>): real
  {
    if ms == [] then 0.0 else AbsZSum(ms[..|ms| - 1]) + Abs(ms[|ms| - 1].zScore)
  }

  /** `detect_insider_abnormality`: capped z-scores per metric, and their mean magnitude. */
  function InsiderAbnormality(current: CurrentMetrics, baseline: Baseline, cap: real, ops: MathOps): (r: AbnormalityReport)
    ensures r.NoBaseline? <==> baseline.NotReady?
    ensures r.AbnormalityReport? ==>
      && |r.metrics| == 3
      && r.metrics[0] == MetricOf(OrZero(current.transactionCount), baseline.transactionCount, cap, ops)
      && r.metrics[1] == MetricOf(OrZero(current.transactionValue), baseline.transactionValue, cap, ops)
      && r.metrics[2] == MetricOf(OrZero(current.netShares), baseline.netShares, cap, ops)
      && (forall k :: 0 <= k < 3 ==> Abs(r.metrics[k].zScore) <= Abs(cap))
      && r.composite == (Abs(r.metrics[0].zScore) + Abs(r.metrics[1].zScore) + Abs(r.metrics[2].zScore)) / 3.0
      && 0.0 <= r.composite <= Abs(cap)
      && r.overallClassification == ZClass(r.composite)
      && r.confidence == Confidence(baseline.dataPoints, 20.0) && 0.0 <= r.confidence <= 1.0
      && r.baselineDataPoints == baseline.dataPoints
  {
    if baseline.NotReady? then NoBaseline
    else
      var ms := [MetricOf(OrZero(current.transactionCount), baseline.transactionCount, cap, ops),
                 MetricOf(OrZero(current.transactionValue), baseline.transactionValue, cap, ops),
                 MetricOf(OrZero(current.netShares), baseline.netShares, cap, ops)];
      AbsZSumBounded(ms, cap);
      AbsZSumThree(ms);
      var composite := AbsZSum(ms) / 3.0;
      AbnormalityReport(ms, composite, ZClass(composite), Confidence(baseline.dataPoints, 20.0), baseline.dataPoints)
  }

  lemma AbsZSumThree(ms: seq<MetricResult>)
    requires |ms| == 3
    ensures AbsZSum(ms) == Abs(ms[0].zScore) + Abs(ms[1].zScore) + Abs(ms[2].zScore)
  {
    var two := ms[..2];
    var one := two[..1];
    assert one[..0] == [];
    assert AbsZSum(one) == Abs(ms[0].zScore);
    assert AbsZSum(two) == AbsZSum(one) + Abs(ms[1].zScore);
  }

  lemma {:induction false} AbsZSumBounded(ms: seq<MetricResult>, cap: real)
    requires forall k :: 0 <= k < |ms| ==> Abs(ms[k].zScore) <= Abs(cap)
    ensures 0.0 <= AbsZSum(ms) <= |ms| as real * Abs(cap)
    decreases |ms|
  {
    if ms != [] {
      AbsZSumBounded(ms[..|ms| - 1], cap);
    }
  }

  /** `detect_insider_abnormality`, with its loop over the three metrics. */
  method DetectInsiderAbnormality(current: CurrentMetrics, baseline: Baseline, cap: real, ops: MathOps)
    returns (r: AbnormalityReport)
    ensures r == InsiderAbnormality(current, baseline, cap, ops)
  {
    if baseline.NotReady? {
      return NoBaseline;
    }
    var ins := MetricInputs(current, baseline);
    var results: seq<MetricResult> := [];
    var i := 0;
    while i < 3
      invariant i <= 3
      invariant |results| == i
      invariant forall k :: 0 <= k < i ==> results[k] == MetricOf(ins[k].0, ins[k].1, cap, ops)
    {
      results := results + [MetricOf(ins[i].0, ins[i].1, cap, ops)];
      i := i + 1;
    }
    assert results == [MetricOf(ins[0].0, ins[0].1, cap, ops), MetricOf(ins[1].0, ins[1].1, cap, ops),
                       MetricOf(ins[2].0, ins[2].1, cap, ops)];
    var composite := AbsZSum(results) / 3.0;
    r := AbnormalityReport(results, composite, ZClass(composite), Min(1.0, baseline.dataPoints as real / 20.0),
                           baseline.dataPoints);
  }

  // ---------------------------------------------------------------------------
  // validate_insider_record

  /** The fields the validator reads; `None` stands for a missing key or a `None` value. */
  datatype InsiderRecord = InsiderRecord(formId: Option<string>, ticker: Option<string>, companyName: Option<string>,
                                         insiderName: Option<string>, transactionDate: Option<CalendarDate>,
                                         transactionType: Option<string>, shares: Option<real>,
                                         filingDate: Option<CalendarDate>, fetchedAt: Option<DateTime>)

  const ValidTypes: seq<string> := ["buy", "sell", "grant", "exercise", "option"]
  const MaxFilingDelay := 10

  predicate Complete(r: InsiderRecord)
  {
    r.formId.Some? && r.ticker.Some? && r.companyName.Some? && r.insiderName.Some?
    && r.transactionDate.Some? && r.transactionType.Some? && r.shares.Some?
    && r.filingDate.Some? && r.fetchedAt.Some?
  }

  /** `validate_insider_record`: required fields, a known type, a positive share count, and a
      filing made on or after the transaction and at most ten days later. */
  function ValidateInsiderRecord(r: InsiderRecord): (ok: bool)
    ensures ok ==> Complete(r) && r.transactionType.value in ValidTypes && r.shares.value > 0.0
    ensures ok ==> NotAfter(r.transactionDate.value, r.filingDate.value)
    ensures ok ==> DaysBetween(r.filingDate.value, r.transactionDate.value) <= MaxFilingDelay
  {
    if !Complete(r) then false
    else if r.transactionType.value !in ValidTypes then false
    else if r.shares.value <= 0.0 then false
    else
      var delay := Ordinal(r.filingDate.value) - Ordinal(r.transactionDate.value);
      OrdinalOrder(r.transactionDate.value, r.filingDate.value);
      if delay < 0 then false
      else if delay > MaxFilingDelay then false
      else true
  }

  /** A complete record of a known type with shares is rejected exactly when it was filed before
      the transaction or more than ten days after it. */
  lemma FilingWindowDecides(r: InsiderRecord)
    requires Complete(r) && r.transactionType.value in ValidTypes && r.shares.value > 0.0
    ensures ValidateInsiderRecord(r) <==>
      NotAfter(r.transactionDate.value, r.filingDate.value)
      && DaysBetween(r.filingDate.value, r.transactionDate.value) <= MaxFilingDelay
  {
    OrdinalOrder(r.transactionDate.value, r.filingDate.value);
  }
}
