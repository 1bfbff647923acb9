// Company-name to ticker lookup (ingestion/transforms/ticker_mapper.py). The
// mapper holds the name-to-symbol dictionary loaded from the exchange listings;
// the loading itself reads files and is replaced by constructor parameters. A
// lookup tries the upper-cased name, then the cleaned name, then the first known
// name (in dictionary order) that shares most of its words with the cleaned name.
module TickerMapper {
  import opened Wrappers
  import opened Text

  /** Suffixes removed by the cleaner, tried in this order. */
  const Suffixes: seq<string> := [
    "CLASS A ORDINARY SHARES", "CLASS A COMMON STOCK", "CLASS B COMMON STOCK", "COMMON STOCK",
    "ORDINARY SHARES", "CORPORATION", "CLASS A", "CLASS B", "INC.", "INC", "CORP.", "CORP",
    "LTD.", "LTD", "LLC", "LP", "CO.", "CO", "THE"]

  /** One step of the suffix loop: `cleaned[:-len(suffix)].strip()` when `cleaned` ends with it. */
  function StripSuffix(cleaned: string, suffix: string): (r: string)
    ensures |r| <= |cleaned|
    ensures !EndsWith(cleaned, suffix) ==> r == cleaned
  {
    if EndsWith(cleaned, suffix) then Strip(cleaned[..|cleaned| - |suffix|]) else cleaned
  }

  /** The suffix loop over `suffixes`, each tried once, in order. */
  function StripSuffixes(cleaned: string, suffixes: seq<string>): (r: string)
    ensures |r| <= |cleaned|
    decreases |suffixes|
  {
    if suffixes == [] then cleaned
    else StripSuffix(StripSuffixes(cleaned, suffixes[..|suffixes| - 1]), suffixes[|suffixes| - 1])
  }

  /** `_clean_company_name`, as a value. */
  function CleanName(name: string): (r: string)
  {
    CollapseSpaces(ReplaceAll(StripSuffixes(Strip(Upper(name)), Suffixes), ".COM", " COM"))
  }

  /** The suffix loop of `_clean_company_name`, over a given suffix list. */
  method StripEach(name: string, suffixes: seq<string>) returns (cleaned: string)
    ensures cleaned == StripSuffixes(name, suffixes)
  {
    cleaned := name;
    var i := 0;
    while i < |suffixes|
      invariant i <= |suffixes|
      invariant cleaned == StripSuffixes(name, suffixes[..i])
    {
      SuffixStep(name, suffixes, i);
      if EndsWith(cleaned, suffixes[i]) {
        cleaned := Strip(cleaned[..|cleaned| - |suffixes[i]|]);
      }
      i := i + 1;
    }
    assert suffixes[..i] == suffixes;
  }

  lemma SuffixStep(name: string, suffixes: seq<string>, i: nat)
    requires i < |suffixes|
    ensures StripSuffixes(name, suffixes[..i + 1]) == StripSuffix(StripSuffixes(name, suffixes[..i]), suffixes[i])
  {
    assert suffixes[..i + 1][..i] == suffixes[..i];
  }

  /** `_clean_company_name`. */
  method CleanCompanyName(name: string) returns (cleaned: string)
    ensures cleaned == CleanName(name)
    ensures WellSpaced(cleaned)
  {
    cleaned := StripEach(Strip(Upper(name)), Suffixes);
    cleaned := ReplaceAll(cleaned, ".COM", " COM");
    cleaned := CollapseSpaces(cleaned);
  }

  /** `name.upper().strip()`. */
  function NameKey(name: string): string { Strip(Upper(name)) }

  /** `set(name.split())`. */
  function WordSet(name: string): set<string>
  {
    set w | w in Words(name)
  }

  /** `_names_match`: both names have at least two distinct words and at least 70% of the
      smaller word set is shared. */
  function NamesMatch(name1: string, name2: string): (r: bool)
    ensures r ==> |WordSet(name1)| >= 2 && |WordSet(name2)| >= 2
  {
    var w1 := WordSet(name1);
    var w2 := WordSet(name2);
    if |w1| < 2 || |w2| < 2 then false
    else
      var common := w1 * w2;
      var minWords := if |w1| < |w2| then |w1| else |w2|;
      // |common| / minWords >= 0.7, cross-multiplied (minWords >= 2)
      10 * |common| >= 7 * minWords
  }

  lemma NamesMatchSymmetric(name1: string, name2: string)
    ensures NamesMatch(name1, name2) == NamesMatch(name2, name1)
  {
    assert WordSet(name1) * WordSet(name2) == WordSet(name2) * WordSet(name1);
  }

  /** A name with at least two distinct words matches itself. */
  lemma NamesMatchReflexive(name: string)
    requires |WordSet(name)| >= 2
    ensures NamesMatch(name, name)
  {
    assert WordSet(name) * WordSet(name) == WordSet(name);
  }

  /** A one-word name matches nothing. */
  lemma SingleWordNeverMatches(name1: string, name2: string)
    requires |WordSet(name1)| < 2
    ensures !NamesMatch(name1, name2) && !NamesMatch(name2, name1)
  {
  }

  /** The index of the first element that `p` accepts, or `|xs|`. */
  method FirstIndex<T>(xs: seq<T>, p: T -> bool) returns (i: nat)
    ensures i <= |xs| && (i < |xs| ==> p(xs[i]))
    ensures forall j :: 0 <= j < i ==> !p(xs[j])
  {
    i := 0;
    while i < |xs|
      invariant i <= |xs|
      invariant forall j :: 0 <= j < i ==> !p(xs[j])
    {
      if p(xs[i]) {
        return;
      }
      i := i + 1;
    }
  }

  class Mapper {
    /** The keys of `_name_to_symbol`, in insertion order. */
    var names: seq<string>
    var nameToSymbol: map<string, string>
    var symbolToName: map<string, string>

    ghost predicate Valid()
      reads this
    {
      (forall i, j :: 0 <= i < j < |names| ==> names[i] != names[j])
      && (forall n :: n in nameToSymbol <==> n in names)
    }

    /** A mapper over already loaded dictionaries. */
    constructor(names: seq<string>, nameToSymbol: map<string, string>, symbolToName: map<string, string>)
      requires forall i, j :: 0 <= i < j < |names| ==> names[i] != names[j]
      requires forall n :: n in nameToSymbol <==> n in names
      ensures Valid()
      ensures this.names == names && this.nameToSymbol == nameToSymbol && this.symbolToName == symbolToName
    {
      this.names := names;
      this.nameToSymbol := nameToSymbol;
      this.symbolToName := symbolToName;
    }

    /** `symbol` is that of the first known name, in insertion order, that fuzzily matches. */
    ghost predicate IsFirstMatch(cleaned: string, symbol: string)
      reads this
    {
      exists i :: 0 <= i < |names| && names[i] in nameToSymbol && nameToSymbol[names[i]] == symbol
        && NamesMatch(cleaned, names[i]) && forall j :: 0 <= j < i ==> !NamesMatch(cleaned, names[j])
    }

    /** The partial-match loop of `get_ticker`: the first known name, in dictionary order, that matches. */
    method FirstMatch(cleaned: string) returns (r: Option<string>)
      requires Valid()
      ensures r.Some? ==> exists n :: n in nameToSymbol && nameToSymbol[n] == r.value && NamesMatch(cleaned, n)
      ensures r.Some? ==> IsFirstMatch(cleaned, r.value)
      ensures r.None? <==> forall n :: n in nameToSymbol ==> !NamesMatch(cleaned, n)
    {
      var i := FirstIndex(names, n => NamesMatch(cleaned, n));
      if i == |names| {
        forall n | n in nameToSymbol ensures !NamesMatch(cleaned, n) {
          var j :| 0 <= j < |names| && names[j] == n;
        }
        return None;
      }
      assert names[i] in nameToSymbol;
      return Some(nameToSymbol[names[i]]);
    }

    /** `get_ticker`: exact upper-cased name, then cleaned name, then the first fuzzy match. */
    method GetTicker(companyName: string) returns (r: Option<string>)
      requires Valid()
      ensures companyName == "" ==> r.None?
      ensures companyName != "" && NameKey(companyName) in nameToSymbol ==> r == Some(nameToSymbol[NameKey(companyName)])
      ensures companyName != "" && NameKey(companyName) !in nameToSymbol && CleanName(NameKey(companyName)) in nameToSymbol
        ==> r == Some(nameToSymbol[CleanName(NameKey(companyName))])
      ensures r.Some? ==> exists n :: n in nameToSymbol && nameToSymbol[n] == r.value
      ensures (companyName != "" && NameKey(companyName) !in nameToSymbol
               && CleanName(NameKey(companyName)) !in nameToSymbol && r.Some?)
        ==> IsFirstMatch(CleanName(NameKey(companyName)), r.value)
      ensures r.None? <==> (companyName == "" || (NameKey(companyName) !in nameToSymbol && Unmatched(CleanName(NameKey(companyName)))))
    {
      if companyName == "" {
        return None;
      }
      var nameUpper := NameKey(companyName);
      if nameUpper in nameToSymbol {
        return Some(nameToSymbol[nameUpper]);
      }
      var cleaned := CleanCompanyName(nameUpper);
      if cleaned in nameToSymbol {
        return Some(nameToSymbol[cleaned]);
      }
      r := FirstMatch(cleaned);
    }

    /** No known name equals or fuzzily matches the cleaned name. */
    ghost predicate Unmatched(cleaned: string)
      reads this
    {
      cleaned !in nameToSymbol && forall n :: n in nameToSymbol ==> !NamesMatch(cleaned, n)
    }

    /** `infer_ticker_from_name`: a missing (or empty) symbol becomes `"UNKNOWN"`. */
    method InferTickerFromName(companyName: string) returns (ticker: string)
      requires Valid()
      ensures ticker == "UNKNOWN" || exists n :: n in nameToSymbol && nameToSymbol[n] == ticker
      ensures companyName == "" ==> ticker == "UNKNOWN"
    {
      var r := GetTicker(companyName);
      ticker := if r.Some? && r.value != "" then r.value else "UNKNOWN";
    }
  }
}
