// `sorted(set(xs))` for lists of strings: the distinct strings in Python's string
// order. A strictly ascending list is the one canonical listing of its elements,
// which is what makes the audit-index categories deterministic and idempotent.
module StringSets {
  import opened Text

  predicate StrictlySorted(xs: seq<string>)
  {
    forall i :: 0 <= i < |xs| - 1 ==> LexLess(xs[i], xs[i + 1])
  }

  lemma {:induction false} StrictlySortedHeadLeast(xs: seq<string>, j: nat)
    requires StrictlySorted(xs) && 0 < j < |xs|
    ensures LexLess(xs[0], xs[j])
  {
    if j > 1 {
      StrictlySortedHeadLeast(xs, j - 1);
      LexLessTransitive(xs[0], xs[j - 1], xs[j]);
    }
  }

  /** Adds `x` to a strictly ascending list unless it is already there. */
  function InsertUnique(x: string, xs: seq<string>): (r: seq<string>)
    requires StrictlySorted(xs)
    ensures StrictlySorted(r)
    ensures forall s :: s in r <==> s == x || s in xs
    ensures r != [] && (r[0] == x || (xs != [] && r[0] == xs[0]))
  {
    if xs == [] then [x]
    else if x == xs[0] then xs
    else if LexLess(x, xs[0]) then [x] + xs
    else
      LexLessTotal(x, xs[0]);
      assert xs == [xs[0]] + xs[1..];
      [xs[0]] + InsertUnique(x, xs[1..])
  }

  /** `sorted(set(xs))`. */
  function SortedUnique(xs: seq<string>): (r: seq<string>)
    ensures StrictlySorted(r)
    ensures forall s :: s in r <==> s in xs
    ensures |r| <= |xs|
  {
    if xs == [] then []
    else
      var init := xs[..|xs| - 1];
      assert xs == init + [xs[|xs| - 1]];
      var r := InsertUnique(xs[|xs| - 1], SortedUnique(init));
      StrictlySortedDistinctLength(r, xs);
      r
  }

  /** A strictly ascending list has no repeats, so it is no longer than any list
      holding all its elements. */
  lemma StrictlySortedDistinctLength(r: seq<string>, xs: seq<string>)
    requires StrictlySorted(r) && forall s :: s in r ==> s in xs
    ensures |r| <= |xs|
  {
    var rs := set s | s in r;
    var xset := set s | s in xs;
    assert rs <= xset;
    DistinctCard(r);
    SetOfSeqCard(xs);
    SubsetCard(rs, xset);
  }

  lemma SubsetCard(a: set<string>, b: set<string>)
    requires a <= b
    ensures |a| <= |b|
  {
    assert b == a + (b - a);
  }

  lemma {:induction false} SetOfSeqCard(xs: seq<string>)
    ensures |set s | s in xs| <= |xs|
  {
    if xs != [] {
      var init := xs[..|xs| - 1];
      SetOfSeqCard(init);
      assert (set s | s in xs) == (set s | s in init) + {xs[|xs| - 1]};
    }
  }

  lemma {:induction false} DistinctCard(r: seq<string>)
    requires StrictlySorted(r)
    ensures |set s | s in r| == |r|
  {
    if r != [] {
      var tail := r[1..];
      assert StrictlySorted(tail);
      DistinctCard(tail);
      assert r[0] !in tail by {
        if r[0] in tail {
          var j :| 0 <= j < |tail| && tail[j] == r[0];
          StrictlySortedHeadLeast(r, j + 1);
          LexLessIrreflexive(r[0]);
        }
      }
      assert (set s | s in r) == (set s | s in tail) + {r[0]};
    }
  }

  /** Two strictly ascending lists with the same elements are the same list. */
  lemma {:induction false} Canonical(a: seq<string>, b: seq<string>)
    requires StrictlySorted(a) && StrictlySorted(b)
    requires forall s :: s in a <==> s in b
    ensures a == b
  {
    if a != [] {
      assert a[0] in b;
    }
    if b != [] {
      assert b[0] in a;
    }
    if a != [] && b != [] {
      assert a[0] == b[0] by {
        if a[0] != b[0] {
          assert a[0] in a && b[0] in b;
          var i :| 0 <= i < |b| && b[i] == a[0];
          var j :| 0 <= j < |a| && a[j] == b[0];
          StrictlySortedHeadLeast(b, i);
          StrictlySortedHeadLeast(a, j);
          LexLessAsymmetric(b[0], a[0]);
        }
      }
      var ta, tb := a[1..], b[1..];
      assert a == [a[0]] + ta && b == [b[0]] + tb;
      forall s ensures s in ta <==> s in tb {
        if s in ta {
          HeadNotInTail(a, s);
          assert s in a && s in b;
        }
        if s in tb {
          HeadNotInTail(b, s);
          assert s in b && s in a;
        }
      }
      Canonical(ta, tb);
      assert a == [a[0]] + ta && b == [b[0]] + tb;
    }
  }

  lemma HeadNotInTail(a: seq<string>, s: string)
    requires StrictlySorted(a) && a != [] && s in a[1..]
    ensures s != a[0]
  {
    var j :| 0 <= j < |a| - 1 && a[1..][j] == s;
    StrictlySortedHeadLeast(a, j + 1);
    LexLessIrreflexive(a[0]);
  }

  /** Sorting and deduplicating an already sorted distinct list changes nothing. */
  lemma SortedUniqueIdempotent(xs: seq<string>)
    ensures SortedUnique(SortedUnique(xs)) == SortedUnique(xs)
  {
    Canonical(SortedUnique(SortedUnique(xs)), SortedUnique(xs));
  }

  /** The result depends only on which strings occur, not on order or repeats. */
  lemma SortedUniqueBySet(xs: seq<string>, ys: seq<string>)
    requires forall s :: s in xs <==> s in ys
    ensures SortedUnique(xs) == SortedUnique(ys)
  {
    Canonical(SortedUnique(xs), SortedUnique(ys));
  }
}
