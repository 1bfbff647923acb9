// JSON-shaped Python values: the dictionaries the report layer passes around
// (the v1 and v2 metrics documents, the audit index). An object is the list of its
// items in insertion order; `dict.get` and Python truthiness are spelled out, and
// calling `.get` on something that is not a dictionary is `Err`.
module Json {
  import opened Wrappers
  import Text

  datatype Json =
    | JNull
    | JBool(b: bool)
    | JNum(n: real)
    | JStr(s: string)
    | JArr(items: seq<Json>)
    | JObj(fields: seq<(string, Json)>)

  const EmptyObj := JObj([])

  function Keys(fields: seq<(string, Json)>): (ks: seq<string>)
    ensures |ks| == |fields| && forall i :: 0 <= i < |fields| ==> ks[i] == fields[i].0
  {
    seq(|fields|, i requires 0 <= i < |fields| => fields[i].0)
  }

  function Values(fields: seq<(string, Json)>): (vs: seq<Json>)
    ensures |vs| == |fields| && forall i :: 0 <= i < |fields| ==> vs[i] == fields[i].1
  {
    seq(|fields|, i requires 0 <= i < |fields| => fields[i].1)
  }

  lemma KeysConcat(a: seq<(string, Json)>, b: seq<(string, Json)>)
    ensures Keys(a + b) == Keys(a) + Keys(b)
  {
    assert forall i :: 0 <= i < |a + b| ==> Keys(a + b)[i] == (Keys(a) + Keys(b))[i];
  }

  /** The value under `key` in an item list, if the key occurs. */
  function Lookup(fields: seq<(string, Json)>, key: string): (r: Option<Json>)
    ensures r.None? <==> key !in Keys(fields)
    ensures r.Some? ==> exists i :: 0 <= i < |fields| && fields[i] == (key, r.value)
  {
    if fields == [] then None
    else if fields[0].0 == key then Some(fields[0].1)
    else
      var r := Lookup(fields[1..], key);
      assert Keys(fields) == [fields[0].0] + Keys(fields[1..]);
      if r.Some? then
        var i :| 0 <= i < |fields[1..]| && fields[1..][i] == (key, r.value);
        assert fields[i + 1] == (key, r.value);
        r
      else r
  }

  /** The first entry with the key is the one found. */
  lemma {:induction false} LookupFirst(fields: seq<(string, Json)>, i: nat)
    requires i < |fields| && forall k :: 0 <= k < i ==> fields[k].0 != fields[i].0
    ensures Lookup(fields, fields[i].0) == Some(fields[i].1)
  {
    if i > 0 {
      LookupFirst(fields[1..], i - 1);
    }
  }

  lemma LookupSecond(fields: seq<(string, Json)>, key: string)
    requires |fields| >= 2 && fields[0].0 != key && fields[1].0 == key
    ensures Lookup(fields, key) == Some(fields[1].1)
  {
    LookupFirst(fields, 1);
  }

  lemma LookupThird(fields: seq<(string, Json)>, key: string)
    requires |fields| >= 3 && fields[0].0 != key && fields[1].0 != key && fields[2].0 == key
    ensures Lookup(fields, key) == Some(fields[2].1)
  {
    LookupFirst(fields, 2);
  }

  lemma LookupFourth(fields: seq<(string, Json)>, key: string)
    requires |fields| >= 4 && fields[0].0 != key && fields[1].0 != key && fields[2].0 != key && fields[3].0 == key
    ensures Lookup(fields, key) == Some(fields[3].1)
  {
    LookupFirst(fields, 3);
  }

  /** `obj[key]` when `obj` is a dictionary holding the key. */
  function Member(j: Json, key: string): (r: Option<Json>)
    ensures r.Some? <==> j.JObj? && key in Keys(j.fields)
  {
    if j.JObj? then Lookup(j.fields, key) else None
  }

  /** `key in obj` for a dictionary. */
  predicate Has(j: Json, key: string) { j.JObj? && key in Keys(j.fields) }

  /** `obj[key]`: raises on a missing key or a value that is not a dictionary;
      the message is that of the `KeyError`, the quoted key. */
  function At(j: Json, key: string): (r: Result<Json>)
    ensures r.Ok? <==> Has(j, key)
  {
    var v := Member(j, key);
    if v.Some? then Ok(v.value) else Err("'" + key + "'")
  }

  /** `obj.get(key, default)`. */
  function GetOr(j: Json, key: string, default: Json): (r: Result<Json>)
    ensures r.Err? <==> !j.JObj?
    ensures r.Ok? && !Has(j, key) ==> r.value == default
  {
    if !j.JObj? then Err("'" + key + "' looked up in a value that is not a dictionary")
    else
      var v := Lookup(j.fields, key);
      if v.Some? then Ok(v.value) else Ok(default)
  }

  /** `obj.get(key)`: a missing key reads as `None`. */
  function Get(j: Json, key: string): (r: Result<Json>)
    ensures r.Err? <==> !j.JObj?
  {
    GetOr(j, key, JNull)
  }

  /** Python's `bool(value)`. */
  predicate Truthy(j: Json)
  {
    match j
      case JNull => false
      case JBool(b) => b
      case JNum(n) => n != 0.0
      case JStr(s) => s != []
      case JArr(items) => items != []
      case JObj(fields) => fields != []
  }

  /** A value used where a number is expected: `None` stays `None`, a bool counts as
      0 or 1, and anything else makes the arithmetic or the format raise. */
  function Num(j: Json): (r: Result<Option<real>>)
    ensures r.Ok? <==> j.JNull? || j.JNum? || j.JBool?
    ensures r.Ok? ==> (r.value.None? <==> j.JNull?)
  {
    match j
      case JNull => Ok(None)
      case JNum(n) => Ok(Some(n))
      case JBool(b) => Ok(Some(if b then 1.0 else 0.0))
      case _ => Err("value must be numeric")
  }

  /** Python's `key in value`: a dictionary's keys, a list's items, a string's
      substrings; any other value raises TypeError. */
  function InOp(j: Json, key: string): (r: Result<bool>)
    ensures r.Err? <==> !(j.JObj? || j.JArr? || j.JStr?)
    ensures j.JObj? ==> r == Ok(key in Keys(j.fields))
  {
    match j
      case JObj(fields) => Ok(key in Keys(fields))
      case JArr(items) => Ok(JStr(key) in items)
      case JStr(s) => Ok(Text.Contains(s, key))
      case _ => Err("argument of type is not iterable")
  }

  /** Lists and dictionaries cannot go into a set: adding one raises TypeError. */
  predicate Hashable(j: Json) { !j.JArr? && !j.JObj? }

  /** `str(value)` inside an f-string, for a string, `None` or a bool; a number or a
      container, whose text is Python's float or container repr, is shown by its kind. */
  function Shown(j: Json): string
  {
    match j
      case JStr(s) => s
      case JNull => "None"
      case JBool(b) => if b then "True" else "False"
      case JNum(_) => "<number>"
      case JArr(_) => "<list>"
      case JObj(_) => "<dict>"
  }

  function Str(j: Json): Option<string>
  {
    if j.JStr? then Some(j.s) else None
  }

  function OptNum(x: Option<real>): Json
  {
    if x.Some? then JNum(x.value) else JNull
  }

  function Strs(xs: seq<string>): (r: seq<Json>)
    ensures |r| == |xs| && forall i :: 0 <= i < |xs| ==> r[i] == JStr(xs[i])
  {
    seq(|xs|, i requires 0 <= i < |xs| => JStr(xs[i]))
  }

  /** The string items of a JSON list; other items are skipped. */
  function StringItems(items: seq<Json>): (r: seq<string>)
    ensures forall s :: s in r <==> JStr(s) in items
  {
    if items == [] then []
    else
      var init := items[..|items| - 1];
      var last := items[|items| - 1];
      assert items == init + [last];
      StringItems(init) + (if last.JStr? then [last.s] else [])
  }
  /** `for x in value`: a list yields its items, a string its one-character strings,
      a dictionary its keys; any other value raises TypeError. */
  function Iterate(j: Json): (r: Result<seq<Json>>)
    ensures r.Ok? <==> j.JArr? || j.JStr? || j.JObj?
    ensures j.JArr? ==> r == Ok(j.items)
    ensures j.JStr? ==> r.Ok? && |r.value| == |j.s| && forall i :: 0 <= i < |j.s| ==> r.value[i] == JStr([j.s[i]])
  {
    match j
      case JArr(items) => Ok(items)
      case JStr(s) => Ok(seq(|s|, i requires 0 <= i < |s| => JStr([s[i]])))
      case JObj(fields) => Ok(Strs(Keys(fields)))
      case _ => Err("object is not iterable")
  }

  /** `d[key] = v`: an existing entry keeps its place and takes the new value, a new
      key goes last. */
  function Assign(fields: seq<(string, Json)>, key: string, v: Json): (r: seq<(string, Json)>)
    ensures key in Keys(fields) ==> Keys(r) == Keys(fields)
    ensures key !in Keys(fields) ==> Keys(r) == Keys(fields) + [key]
  {
    if fields == [] then [(key, v)]
    else if fields[0].0 == key then
      var r := [(key, v)] + fields[1..];
      KeysCons(fields[0], fields[1..]);
      assert [fields[0]] + fields[1..] == fields;
      KeysCons((key, v), fields[1..]);
      r
    else
      var rest := Assign(fields[1..], key, v);
      var r := [fields[0]] + rest;
      KeysCons(fields[0], fields[1..]);
      assert [fields[0]] + fields[1..] == fields;
      KeysCons(fields[0], rest);
      r
  }

  lemma KeysCons(f: (string, Json), rest: seq<(string, Json)>)
    ensures Keys([f] + rest) == [f.0] + Keys(rest)
  {
    KeysConcat([f], rest);
  }

  /** After the assignment the key reads the new value and every other key reads
      what it read before. */
  lemma {:induction false} AssignLookup(fields: seq<(string, Json)>, key: string, v: Json, k: string)
    ensures Lookup(Assign(fields, key, v), k) == if k == key then Some(v) else Lookup(fields, k)
  {
    var r := Assign(fields, key, v);
    if fields != [] {
      assert r[1..] == (if fields[0].0 == key then fields[1..] else Assign(fields[1..], key, v));
      if fields[0].0 != key {
        AssignLookup(fields[1..], key, v, k);
      }
    }
  }
}
