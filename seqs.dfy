/** The optional value JavaScript writes as `undefined`, `null` or NaN. */
module Maybe {
  datatype Option<T> = None | Some(value: T)
}

/**
 * The array operations the views use: `filter` (a subsequence that keeps
 * order) and `reduce` with `+`.
 */
module Seqs {

  /** `r` can be obtained from `s` by deleting elements, keeping order. */
  predicate IsSubsequence<T(==)>(r: seq<T>, s: seq<T>)
    decreases |s|
  {
    if r == [] then true
    else if s == [] then false
    else (r[0] == s[0] && IsSubsequence(r[1..], s[1..])) || IsSubsequence(r, s[1..])
  }

  /** Model of `Array.prototype.filter`: the elements that pass, in order
      (`FilterCount` adds: each with as many copies as `s` has). */
  function Filter<T(==)>(s: seq<T>, p: T -> bool): (r: seq<T>)
    ensures |r| <= |s|
    ensures forall i :: 0 <= i < |r| ==> r[i] in s && p(r[i])
    ensures forall i :: 0 <= i < |s| && p(s[i]) ==> s[i] in r
    ensures IsSubsequence(r, s)
  {
    if s == [] then []
    else if p(s[0]) then [s[0]] + Filter(s[1..], p)
    else Filter(s[1..], p)
  }

  /** A passing element is kept as many times as `s` holds it, a failing
      one not at all. */
  lemma {:induction false} FilterCount<T(!new)>(s: seq<T>, p: T -> bool)
    ensures forall x :: multiset(Filter(s, p))[x] == if p(x) then multiset(s)[x] else 0
  {
    if s != [] {
      assert s == [s[0]] + s[1..];
      FilterCount(s[1..], p);
    }
  }

  /** An element of `s` is kept exactly when it passes, as many times as
      `s` holds it, and every kept element is one of `s`. */
  lemma FilterKeeps<T(!new)>(s: seq<T>, p: T -> bool)
    ensures forall i :: 0 <= i < |s| ==> (s[i] in Filter(s, p) <==> p(s[i]))
    ensures forall x :: multiset(Filter(s, p))[x] == if p(x) then multiset(s)[x] else 0
    ensures forall k :: 0 <= k < |Filter(s, p)| ==> exists i :: 0 <= i < |s| && Filter(s, p)[k] == s[i]
  {
    FilterCount(s, p);
    var r := Filter(s, p);
    forall i | 0 <= i < |s| && s[i] in r
      ensures p(s[i])
    {
      var j :| 0 <= j < |r| && r[j] == s[i];
    }
    forall k | 0 <= k < |r|
      ensures exists i :: 0 <= i < |s| && r[k] == s[i]
    {
      var i :| 0 <= i < |s| && s[i] == r[k];
    }
  }

  /** Filtering a sequence that starts with `a`. */
  lemma FilterCons<T>(a: T, s: seq<T>, p: T -> bool)
    ensures Filter([a] + s, p) == (if p(a) then [a] else []) + Filter(s, p)
  {
    assert ([a] + s)[0] == a;
    assert ([a] + s)[1..] == s;
  }

  /** A filter that every element passes keeps the whole sequence. */
  lemma {:induction false} FilterAll<T>(s: seq<T>, p: T -> bool)
    requires forall i :: 0 <= i < |s| ==> p(s[i])
    ensures Filter(s, p) == s
  {
    if s != [] {
      FilterAll(s[1..], p);
    }
  }

  /** Model of `reduce((acc, cur) => acc + cur, 0)`: a left fold. */
  function Sum(xs: seq<int>): int
  {
    if xs == [] then 0 else Sum(xs[..|xs| - 1]) + xs[|xs| - 1]
  }
}
