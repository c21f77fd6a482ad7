/** Sequence operations behind `Array.prototype.filter` and
    `[...new Set(xs)]`, with the facts the application's lists rely on. */
module Seqs {
  import opened Common

  /** `xs` can be obtained from `ys` by deleting elements (order kept). */
  predicate IsSubsequence<T(==)>(xs: seq<T>, ys: seq<T>)
    decreases |ys|
  {
    if xs == [] then true
    else if ys == [] then false
    else (xs[0] == ys[0] && IsSubsequence(xs[1..], ys[1..])) || IsSubsequence(xs, ys[1..])
  }

  lemma {:induction false} SubsequenceRefl<T>(xs: seq<T>)
    ensures IsSubsequence(xs, xs)
    decreases |xs|
  {
    if xs != [] {
      SubsequenceRefl(xs[1..]);
    }
  }

  /** `xs.filter(p)`. Its properties are stated by `FilterSpec`, so that
      evaluating it on a literal list stays cheap. */
  function Filter<T>(xs: seq<T>, p: T -> bool): seq<T> {
    if xs == [] then []
    else if p(xs[0]) then [xs[0]] + Filter(xs[1..], p)
    else Filter(xs[1..], p)
  }

  /** `filter` keeps every occurrence of an element satisfying `p` and no
      occurrence of any other. */
  lemma {:induction false} FilterCounts<T>(xs: seq<T>, p: T -> bool)
    ensures forall x :: multiset(Filter(xs, p))[x] == if p(x) then multiset(xs)[x] else 0
  {
    if xs != [] {
      FilterCounts(xs[1..], p);
      assert xs == [xs[0]] + xs[1..];
      assert multiset(xs) == multiset{xs[0]} + multiset(xs[1..]);
      if p(xs[0]) {
        assert multiset(Filter(xs, p)) == multiset{xs[0]} + multiset(Filter(xs[1..], p));
      }
    }
  }

  /** `filter` keeps exactly the elements satisfying `p`, in their order. */
  lemma {:induction false} FilterElements<T>(xs: seq<T>, p: T -> bool)
    ensures |Filter(xs, p)| <= |xs|
    ensures forall i :: 0 <= i < |Filter(xs, p)| ==> Filter(xs, p)[i] in xs && p(Filter(xs, p)[i])
    ensures forall i :: 0 <= i < |xs| && p(xs[i]) ==> xs[i] in Filter(xs, p)
    ensures IsSubsequence(Filter(xs, p), xs)
  {
    if xs != [] {
      var rest := Filter(xs[1..], p);
      FilterElements(xs[1..], p);
      assert xs == [xs[0]] + xs[1..];
      if p(xs[0]) {
        assert ([xs[0]] + rest)[1..] == rest;
      }
    }
  }

  /** `filter` keeps exactly the elements satisfying `p`, as often as they
      occur, in their order. */
  lemma FilterSpec<T>(xs: seq<T>, p: T -> bool)
    ensures |Filter(xs, p)| <= |xs|
    ensures forall i :: 0 <= i < |Filter(xs, p)| ==> Filter(xs, p)[i] in xs && p(Filter(xs, p)[i])
    ensures forall i :: 0 <= i < |xs| && p(xs[i]) ==> xs[i] in Filter(xs, p)
    ensures forall x :: multiset(Filter(xs, p))[x] == if p(x) then multiset(xs)[x] else 0
    ensures IsSubsequence(Filter(xs, p), xs)
  {
    FilterElements(xs, p);
    FilterCounts(xs, p);
  }

  /** Filtering twice with the same predicate is filtering once. */
  lemma {:induction false} FilterIdempotent<T>(xs: seq<T>, p: T -> bool)
    ensures Filter(Filter(xs, p), p) == Filter(xs, p)
  {
    if xs != [] {
      FilterIdempotent(xs[1..], p);
      if p(xs[0]) {
        assert ([xs[0]] + Filter(xs[1..], p))[1..] == Filter(xs[1..], p);
      }
    }
  }

  /** A predicate every element satisfies filters nothing out. */
  lemma {:induction false} FilterKeepsAll<T>(xs: seq<T>, p: T -> bool)
    requires forall i :: 0 <= i < |xs| ==> p(xs[i])
    ensures Filter(xs, p) == xs
  {
    if xs != [] {
      FilterKeepsAll(xs[1..], p);
    }
  }

  /** Filtering with predicates that agree on every element gives the same list. */
  lemma {:induction false} FilterCongruent<T>(xs: seq<T>, p: T -> bool, q: T -> bool)
    requires forall i :: 0 <= i < |xs| ==> p(xs[i]) == q(xs[i])
    ensures Filter(xs, p) == Filter(xs, q)
  {
    if xs != [] {
      FilterCongruent(xs[1..], p, q);
    }
  }

  /** No element occurs twice. */
  predicate NoDuplicates<T(==)>(xs: seq<T>) {
    forall i, j :: 0 <= i < j < |xs| ==> xs[i] != xs[j]
  }

  /** Index of the first occurrence of `x` in `xs`. */
  function FirstIndex<T(==)>(xs: seq<T>, x: T): (k: nat)
    requires x in xs
    ensures k < |xs| && xs[k] == x
    ensures forall i :: 0 <= i < k ==> xs[i] != x
  {
    if xs[0] == x then 0 else 1 + FirstIndex(xs[1..], x)
  }

  /** `[...new Set(xs)]`: each distinct element once, in the order of its
      first occurrence (a JavaScript `Set` iterates in insertion order). */
  function Dedup<T(==)>(xs: seq<T>): seq<T> {
    if xs == [] then []
    else
      var d := Dedup(xs[..|xs| - 1]);
      if Last(xs) in d then d else d + [Last(xs)]
  }

  /** `Dedup` keeps every element, adds none, and repeats none. */
  lemma {:induction false} DedupSpec<T>(xs: seq<T>)
    ensures NoDuplicates(Dedup(xs))
    ensures forall i :: 0 <= i < |Dedup(xs)| ==> Dedup(xs)[i] in xs
    ensures forall i :: 0 <= i < |xs| ==> xs[i] in Dedup(xs)
  {
    if xs != [] {
      var p := xs[..|xs| - 1];
      var d := Dedup(p);
      DedupSpec(p);
      assert xs == p + [Last(xs)];
      if Last(xs) !in d {
        var r := d + [Last(xs)];
        assert forall i :: 0 <= i < |d| ==> r[i] == d[i];
        assert forall i :: 0 <= i < |p| ==> xs[i] == p[i];
      }
    }
  }

  /** The first occurrence of an element of a prefix is the same in the
      whole sequence. */
  lemma {:induction false} FirstIndexPrefix<T>(xs: seq<T>, n: nat, x: T)
    requires n <= |xs| && x in xs[..n]
    ensures FirstIndex(xs, x) == FirstIndex(xs[..n], x)
  {
    var k := FirstIndex(xs[..n], x);
    assert xs[k] == x;
  }

  /** The elements of `d` occur in `xs`, ordered by their first occurrence. */
  predicate OrderedByFirstOccurrence<T(==)>(xs: seq<T>, d: seq<T>) {
    && (forall i :: 0 <= i < |d| ==> d[i] in xs)
    && (forall i, j :: 0 <= i < j < |d| ==> FirstIndex(xs, d[i]) < FirstIndex(xs, d[j]))
  }

  /** Extending `xs` at the end keeps the order of elements already there. */
  lemma OrderedByFirstOccurrenceExtend<T>(xs: seq<T>, n: nat, d: seq<T>)
    requires n <= |xs|
    requires OrderedByFirstOccurrence(xs[..n], d)
    ensures OrderedByFirstOccurrence(xs, d)
  {
    forall i | 0 <= i < |d|
      ensures d[i] in xs
    {
      assert d[i] in xs[..n];
    }
    forall i, j | 0 <= i < j < |d|
      ensures FirstIndex(xs, d[i]) < FirstIndex(xs, d[j])
    {
      FirstIndexPrefix(xs, n, d[i]);
      FirstIndexPrefix(xs, n, d[j]);
    }
  }

  /** An element first seen at the end comes after all earlier ones. */
  lemma OrderedByFirstOccurrenceAppend<T>(xs: seq<T>, d: seq<T>)
    requires xs != []
    requires OrderedByFirstOccurrence(xs, d)
    requires forall k :: 0 <= k < |d| ==> d[k] in xs[..|xs| - 1]
    requires Last(xs) !in xs[..|xs| - 1]
    ensures OrderedByFirstOccurrence(xs, d + [Last(xs)])
  {
    var n := |xs| - 1;
    var r := d + [Last(xs)];
    assert FirstIndex(xs, Last(xs)) == n;
    forall i | 0 <= i < |r|
      ensures r[i] in xs
    {
      if i < |d| {
        assert r[i] == d[i];
      }
    }
    forall i, j | 0 <= i < j < |r|
      ensures FirstIndex(xs, r[i]) < FirstIndex(xs, r[j])
    {
      assert r[i] == d[i];
      FirstIndexPrefix(xs, n, d[i]);
      if j < |d| {
        assert r[j] == d[j];
      }
    }
  }

  /** `Dedup` lists elements in increasing order of first occurrence. */
  lemma {:induction false} DedupFirstOccurrenceOrder<T>(xs: seq<T>)
    ensures OrderedByFirstOccurrence(xs, Dedup(xs))
  {
    if xs != [] {
      var n := |xs| - 1;
      var p := xs[..n];
      var d := Dedup(p);
      DedupFirstOccurrenceOrder(p);
      DedupSpec(p);
      OrderedByFirstOccurrenceExtend(xs, n, d);
      if Last(xs) !in d {
        OrderedByFirstOccurrenceAppend(xs, d);
      }
    }
  }
}
