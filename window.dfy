/**
 * The page-number strips under each list. A strip is a sequence of page
 * numbers and "..." markers. Four generators appear in the views:
 *
 *  - NearWindow      first, last, and pages within two of the current one;
 *                    every run of hidden pages becomes one "..."
 *                    (warehouse transfers);
 *  - EdgePairWindow  1, 2, ..., current, ..., T-1, T
 *                    (sub-warehouses, inventory, warehouses);
 *  - NeighbourWindow 1, ..., current-1..current+1, ..., T (stock-in);
 *  - BlockWindow     a block of up to five consecutive pages, no "..."
 *                    (inventory table component).
 *
 * The first three produce strips of one shape (WellFormed): they start
 * at 1, end at T, climb by one between neighbouring numbers, and put a
 * single "..." exactly where pages are skipped. WindowUnique shows that
 * such a strip is fixed by the set of pages it shows, so each generator's
 * contract determines its output completely.
 */
module PageWindow {
  import opened Pagination

  datatype PageItem = Num(page: int) | Ellipsis

  /** Page `p` has a button in strip `w`. */
  predicate Shows(w: seq<PageItem>, p: int) { Num(p) in w }

  /** The rule at position i: two neighbouring numbers climb by one, and
      a "..." that follows position i and is not last sits between two
      numbers and stands for at least one skipped page. */
  ghost predicate Link(w: seq<PageItem>, i: int)
    requires 0 <= i && i + 1 < |w|
  {
    && (w[i].Num? && w[i + 1].Num? ==> w[i + 1].page == w[i].page + 1)
    && (w[i + 1].Ellipsis? && i + 2 < |w| ==>
          w[i].Num? && w[i + 2].Num? && w[i].page + 1 < w[i + 2].page)
  }

  /** Every position of the strip obeys the rule. */
  ghost predicate Linked(w: seq<PageItem>)
  {
    forall i :: 0 <= i && i + 1 < |w| ==> Link(w, i)
  }

  /** The strip for `t` pages: empty when there are no pages, otherwise
      from page 1 to page t with the links above. */
  ghost predicate WellFormed(w: seq<PageItem>, t: int)
  {
    && Linked(w)
    && (t <= 0 ==> w == [])
    && (t >= 1 ==> |w| > 0 && w[0] == Num(1) && w[|w| - 1] == Num(t))
  }

  /** Pages lo..hi, each with its own button. */
  function Run(lo: int, hi: int): (w: seq<PageItem>)
    ensures |w| == if hi < lo then 0 else hi - lo + 1
  {
    if hi < lo then [] else seq(hi - lo + 1, k requires 0 <= k <= hi - lo => Num(lo + k))
  }

  lemma RunFacts(lo: int, hi: int)
    ensures Linked(Run(lo, hi))
    ensures forall p :: Shows(Run(lo, hi), p) <==> lo <= p <= hi
    ensures forall k :: 0 <= k < |Run(lo, hi)| ==> Run(lo, hi)[k] == Num(lo + k)
  {
    var w := Run(lo, hi);
    forall p | lo <= p <= hi ensures Shows(w, p) {
      assert w[p - lo] == Num(p);
    }
  }

  lemma RunExtend(lo: int, hi: int)
    requires lo <= hi + 1
    ensures Run(lo, hi + 1) == Run(lo, hi) + [Num(hi + 1)]
  {
  }

  // ---------------------------------------------------------------------
  // What a well-formed strip looks like
  // ---------------------------------------------------------------------

  /** Numbers in a linked strip increase strictly from left to right. */
  lemma {:induction false} LinkedIncreasing(w: seq<PageItem>, i: int, j: int)
    requires Linked(w)
    requires 0 <= i < j < |w| && w[i].Num? && w[j].Num?
    ensures w[i].page < w[j].page
    decreases j
  {
    assert Link(w, j - 1);
    if w[j - 1].Num? {
      if i < j - 1 {
        LinkedIncreasing(w, i, j - 1);
      }
    } else {
      assert 0 < j - 1;
      assert Link(w, j - 2);
      if i < j - 2 {
        LinkedIncreasing(w, i, j - 2);
      }
    }
  }

  /** A well-formed strip for t pages: its numbers strictly increase and
      lie in [1, t], and no two "..." markers are next to each other. */
  lemma WellFormedFacts(w: seq<PageItem>, t: int)
    requires WellFormed(w, t)
    ensures forall i, j :: 0 <= i < j < |w| && w[i].Num? && w[j].Num? ==> w[i].page < w[j].page
    ensures forall k :: 0 <= k < |w| && w[k].Num? ==> 1 <= w[k].page <= t
    ensures forall k :: 0 <= k < |w| - 1 ==> !(w[k].Ellipsis? && w[k + 1].Ellipsis?)
  {
    forall i, j | 0 <= i < j < |w| && w[i].Num? && w[j].Num?
      ensures w[i].page < w[j].page
    {
      LinkedIncreasing(w, i, j);
    }
    forall k | 0 <= k < |w| && w[k].Num?
      ensures 1 <= w[k].page <= t
    {
      if 0 < k { LinkedIncreasing(w, 0, k); }
      if k < |w| - 1 { LinkedIncreasing(w, k, |w| - 1); }
    }
    forall k | 0 <= k < |w| - 1
      ensures !(w[k].Ellipsis? && w[k + 1].Ellipsis?)
    {
      if 0 < k { assert Link(w, k - 1); }
    }
  }

  lemma LinkedTail(w: seq<PageItem>, d: nat)
    requires Linked(w) && d <= |w|
    ensures Linked(w[d..])
  {
    var v := w[d..];
    forall i | 0 <= i && i + 1 < |v|
      ensures Link(v, i)
    {
      assert Link(w, i + d);
      assert v[i] == w[i + d] && v[i + 1] == w[i + d + 1];
      if i + 2 < |v| { assert v[i + 2] == w[i + d + 2]; }
    }
  }

  /** The pages shown after the first element of a linked strip that
      starts with a number: everything shown except that number. */
  lemma ShowsTail(w: seq<PageItem>, d: nat)
    requires Linked(w) && |w| > d >= 1 && w[0].Num?
    requires forall k :: 0 < k < d ==> w[k].Ellipsis?
    ensures forall p :: Shows(w[d..], p) <==> Shows(w, p) && p != w[0].page
  {
    forall p
      ensures Shows(w[d..], p) <==> Shows(w, p) && p != w[0].page
    {
      if Shows(w[d..], p) {
        var k :| 0 <= k < |w| - d && w[d..][k] == Num(p);
        LinkedIncreasing(w, 0, k + d);
      }
      if Shows(w, p) && p != w[0].page {
        var k :| 0 <= k < |w| && w[k] == Num(p);
        assert w[d..][k - d] == w[k];
      }
    }
  }

  /** Two linked strips that start with the same number, end with the same
      number and show the same pages are the same strip. */
  lemma {:induction false} LinkedUnique(u: seq<PageItem>, v: seq<PageItem>)
    requires Linked(u) && Linked(v) && |u| > 0 && |v| > 0
    requires u[0].Num? && u[0] == v[0]
    requires u[|u| - 1].Num? && u[|u| - 1] == v[|v| - 1]
    requires forall p :: Shows(u, p) <==> Shows(v, p)
    ensures u == v
    decreases |u| + |v|
  {
    var a := u[0].page;
    if |u| == 1 {
      if |v| > 1 { LinkedIncreasing(v, 0, |v| - 1); }
    } else if |v| == 1 {
      LinkedIncreasing(u, 0, |u| - 1);
    } else {
      var du := if u[1].Num? then 1 else 2;
      var dv := if v[1].Num? then 1 else 2;
      assert Link(u, 0) && Link(v, 0);
      NextShownAgrees(u, v, du, dv);
      LinkedTail(u, du);
      LinkedTail(v, dv);
      ShowsTail(u, du);
      ShowsTail(v, dv);
      LinkedUnique(u[du..], v[dv..]);
      assert u == u[..du] + u[du..];
      assert v == v[..dv] + v[dv..];
    }
  }

  /** Two linked strips that start alike and show the same pages agree on
      their second number and on where it sits. */
  lemma NextShownAgrees(u: seq<PageItem>, v: seq<PageItem>, du: int, dv: int)
    requires 0 < du < |u| && 0 < dv < |v|
    requires Linked(u) && Linked(v) && u[0].Num? && u[0] == v[0] && u[du].Num? && v[dv].Num?
    requires forall k :: 0 < k < du ==> u[k].Ellipsis?
    requires forall k :: 0 < k < dv ==> v[k].Ellipsis?
    requires if du == 1 then u[du].page == u[0].page + 1 else u[0].page + 1 < u[du].page
    requires if dv == 1 then v[dv].page == v[0].page + 1 else v[0].page + 1 < v[dv].page
    requires du <= 2 && dv <= 2
    requires forall p :: Shows(u, p) <==> Shows(v, p)
    ensures du == dv && u[du] == v[dv]
  {
    // The first number after the start is the smallest page above it that
    // is shown, so both strips agree on it.
    assert Shows(u, u[du].page) && Shows(v, v[dv].page);
    var ku :| 0 <= ku < |u| && u[ku] == Num(v[dv].page);
    var kv :| 0 <= kv < |v| && v[kv] == Num(u[du].page);
    if ku > du { LinkedIncreasing(u, du, ku); }
    if ku == 0 { LinkedIncreasing(v, 0, dv); }
    if kv > dv { LinkedIncreasing(v, dv, kv); }
    if kv == 0 { LinkedIncreasing(u, 0, du); }
    assert u[du] == v[dv];
  }

  /** A well-formed strip is fixed by the pages it shows. */
  lemma WindowUnique(u: seq<PageItem>, v: seq<PageItem>, t: int)
    requires WellFormed(u, t) && WellFormed(v, t)
    requires forall p :: Shows(u, p) <==> Shows(v, p)
    ensures u == v
  {
    if t >= 1 {
      LinkedUnique(u, v);
    }
  }

  /** Joining two linked strips gives a linked strip when the seam obeys
      the same rules. */
  lemma LinkedJoin(a: seq<PageItem>, b: seq<PageItem>)
    requires Linked(a) && Linked(b) && a != [] && b != []
    requires a[|a| - 1].Num? && b[0].Num? ==> b[0].page == a[|a| - 1].page + 1
    requires a[|a| - 1].Ellipsis? ==>
      |a| >= 2 && a[|a| - 2].Num? && b[0].Num? && a[|a| - 2].page + 1 < b[0].page
    requires b[0].Ellipsis? && |b| >= 2 ==>
      a[|a| - 1].Num? && b[1].Num? && a[|a| - 1].page + 1 < b[1].page
    ensures Linked(a + b)
  {
    var w := a + b;
    forall i | 0 <= i && i + 1 < |w|
      ensures Link(w, i)
    {
      if i + 2 < |a| {
        assert Link(a, i);
        assert w[i] == a[i] && w[i + 1] == a[i + 1] && w[i + 2] == a[i + 2];
      } else if i + 2 == |a| {
        assert Link(a, i);
        assert w[i] == a[i] && w[i + 1] == a[i + 1] && w[i + 2] == b[0];
      } else if i + 1 == |a| {
        assert w[i] == a[i] && w[i + 1] == b[0];
        if 1 < |b| { assert w[i + 2] == b[1]; }
      } else {
        var m := i - |a|;
        assert Link(b, m);
        assert w[i] == b[m] && w[i + 1] == b[m + 1];
        if m + 2 < |b| { assert w[i + 2] == b[m + 2]; }
      }
    }
  }

  // ---------------------------------------------------------------------
  // PushRange: `for (let i = lo; i <= hi; i++) pages.push(i)`
  // ---------------------------------------------------------------------

  method PushRange(w0: seq<PageItem>, lo: int, hi: int) returns (w: seq<PageItem>)
    ensures w == w0 + Run(lo, hi)
  {
    w := w0;
    var i := lo;
    while i <= hi
      invariant lo <= i && (i <= hi + 1 || i == lo)
      invariant w == w0 + Run(lo, i - 1)
    {
      RunExtend(lo, i - 1);
      w := w + [Num(i)];
      i := i + 1;
    }
  }

  // ---------------------------------------------------------------------
  // NearWindow (warehouse transfers)
  // ---------------------------------------------------------------------

  /** Pages that get a button in the transfer list: the first, the last,
      and those within two of the current page. */
  predicate NearShown(c: int, t: int, p: int)
  {
    p == 1 || p == t || (c - 2 <= p <= c + 2)
  }

  /** Walk pages 1..t, push each shown page, and push "..." for a hidden
      page unless the strip already ends with one. */
  method NearWindow(c: int, t: nat) returns (w: seq<PageItem>)
    ensures WellFormed(w, t)
    ensures forall p :: Shows(w, p) <==> 1 <= p <= t && NearShown(c, t, p)
  {
    w := [];
    var i := 1;
    while i <= t
      invariant 1 <= i <= t + 1
      invariant Linked(w)
      invariant i == 1 <==> w == []
      invariant i > 1 ==> w[0] == Num(1)
      invariant i > 1 && NearShown(c, t, i - 1) ==> w[|w| - 1] == Num(i - 1)
      invariant i > 1 && !NearShown(c, t, i - 1) ==>
        w[|w| - 1] == Ellipsis && |w| >= 2 && w[|w| - 2].Num? && w[|w| - 2].page + 1 < i
      invariant forall p :: Shows(w, p) <==> 1 <= p < i && NearShown(c, t, p)
    {
      ghost var w0 := w;
      if i == 1 || i == t || (i >= c - 2 && i <= c + 2) {
        w := w + [Num(i)];
        if w0 != [] { LinkedJoin(w0, [Num(i)]); }
      } else if w[|w| - 1] != Ellipsis {
        w := w + [Ellipsis];
        LinkedJoin(w0, [Ellipsis]);
      }
      assert forall p :: Shows(w, p) <==> Shows(w0, p) || (w != w0 && w[|w| - 1] == Num(p));
      i := i + 1;
    }
  }

  // ---------------------------------------------------------------------
  // EdgePairWindow (sub-warehouses, inventory, warehouses)
  // ---------------------------------------------------------------------

  /** Pages with a button: all of them when t <= 5; otherwise 1, 2, t - 1,
      t, and the current page when it lies strictly between 2 and t - 1. */
  predicate EdgePairShown(c: int, t: int, p: int)
  {
    t <= 5 || p == 1 || p == 2 || p == t - 1 || p == t || (p == c && 2 < c < t - 1)
  }

  method EdgePairWindow(c: int, t: nat) returns (w: seq<PageItem>)
    ensures WellFormed(w, t)
    ensures forall p :: Shows(w, p) <==> 1 <= p <= t && EdgePairShown(c, t, p)
    ensures t <= 5 ==> w == Run(1, t)
    ensures t > 5 ==> w[..2] == [Num(1), Num(2)] && w[|w| - 2..] == [Num(t - 1), Num(t)]
  {
    w := [];
    if t <= 5 {
      w := PushRange(w, 1, t);
      assert w == Run(1, t);
      RunFacts(1, t);
    } else {
      w := w + [Num(1), Num(2)];
      if c > 3 { w := w + [Ellipsis]; }
      if c > 2 && c < t - 1 { w := w + [Num(c)]; }
      if c < t - 2 { w := w + [Ellipsis]; }
      w := w + [Num(t - 1), Num(t)];
      EdgePairShape(c, t, w);
    }
  }

  /** The five shapes the straight-line branch can produce. */
  lemma EdgePairShape(c: int, t: nat, w: seq<PageItem>)
    requires t > 5
    requires w == [Num(1), Num(2)]
      + (if c > 3 then [Ellipsis] else [])
      + (if c > 2 && c < t - 1 then [Num(c)] else [])
      + (if c < t - 2 then [Ellipsis] else [])
      + [Num(t - 1), Num(t)]
    ensures Linked(w)
    ensures forall p :: Shows(w, p) <==> 1 <= p <= t && EdgePairShown(c, t, p)
  {
    if c <= 2 || c >= t - 1 {
      assert w == [Num(1), Num(2), Ellipsis, Num(t - 1), Num(t)];
    } else if c == 3 {
      assert w == [Num(1), Num(2), Num(3), Ellipsis, Num(t - 1), Num(t)];
    } else if c < t - 2 {
      assert w == [Num(1), Num(2), Ellipsis, Num(c), Ellipsis, Num(t - 1), Num(t)];
    } else {
      assert w == [Num(1), Num(2), Ellipsis, Num(c), Num(t - 1), Num(t)];
    }
  }

  // ---------------------------------------------------------------------
  // NeighbourWindow (stock-in)
  // ---------------------------------------------------------------------

  /** Pages with a button: all of them when t <= 4; otherwise the first,
      the last, and the current page with its two neighbours. */
  predicate NeighbourShown(c: int, t: int, p: int)
  {
    t <= 4 || p == 1 || p == t || (c - 1 <= p <= c + 1)
  }

  method NeighbourWindow(c: int, t: nat) returns (w: seq<PageItem>)
    ensures WellFormed(w, t)
    ensures forall p :: Shows(w, p) <==> 1 <= p <= t && NeighbourShown(c, t, p)
    ensures t <= 4 ==> w == Run(1, t)
    ensures 1 <= c <= t ==> Shows(w, c)
  {
    w := [];
    if t <= 4 {
      w := PushRange(w, 1, t);
      assert w == Run(1, t);
      SmallShape(c, t);
    } else {
      w := NeighbourStrip(c, t);
    }
  }

  /** The strip for more than four pages: 1, "..." when c > 3, the pages
      c-1..c+1 that lie strictly between 1 and t, "..." when c < t-2, t. */
  method NeighbourStrip(c: int, t: nat) returns (w: seq<PageItem>)
    requires t > 4
    ensures WellFormed(w, t)
    ensures forall p :: Shows(w, p) <==> 1 <= p <= t && NeighbourShown(c, t, p)
  {
    w := [Num(1)];
    if c > 3 { w := w + [Ellipsis]; }
    var start := Max(2, c - 1);
    var end := Min(t - 1, c + 1);
    w := PushRange(w, start, end);
    if c < t - 2 { w := w + [Ellipsis]; }
    w := w + [Num(t)];
    NeighbourShape(c, t, w);
  }

  lemma SmallShape(c: int, t: nat)
    requires t <= 4
    ensures WellFormed(Run(1, t), t)
    ensures forall p :: Shows(Run(1, t), p) <==> 1 <= p <= t && NeighbourShown(c, t, p)
  {
    RunFacts(1, t);
    if t >= 1 {
      assert Run(1, t)[t - 1] == Num(t);
    }
  }

  lemma NeighbourShape(c: int, t: nat, w: seq<PageItem>)
    requires t > 4
    requires w == [Num(1)]
      + (if c > 3 then [Ellipsis] else [])
      + Run(Max(2, c - 1), Min(t - 1, c + 1))
      + (if c < t - 2 then [Ellipsis] else [])
      + [Num(t)]
    ensures WellFormed(w, t)
    ensures forall p :: Shows(w, p) <==> 1 <= p <= t && NeighbourShown(c, t, p)
  {
    var lo, hi := Max(2, c - 1), Min(t - 1, c + 1);
    var head := [Num(1)] + (if c > 3 then [Ellipsis] else []);
    var mid := Run(lo, hi);
    var tail := (if c < t - 2 then [Ellipsis] else []) + [Num(t)];
    assert w == head + mid + tail;
    RunFacts(lo, hi);
    assert Linked(head);
    assert Linked(tail);
    if mid == [] {
      // Only when the current page lies outside [1, t]: 1, ..., t.
      assert head + mid == head;
      LinkedJoin(head, tail);
    } else {
      LinkedJoin(head, mid);
      LinkedJoin(head + mid, tail);
    }
    assert forall p :: Shows(head, p) <==> p == 1;
    assert forall p :: Shows(tail, p) <==> p == t;
    assert forall p :: Shows(w, p) <==> Shows(head, p) || Shows(mid, p) || Shows(tail, p);
  }

  // ---------------------------------------------------------------------
  // BlockWindow (inventory table component)
  // ---------------------------------------------------------------------

  /** Up to five consecutive pages and no "...": all pages when t <= 5,
      otherwise 1..5 near the start, t-4..t near the end, and
      c-2..c+2 in between. */
  method BlockWindow(c: int, t: nat) returns (w: seq<PageItem>)
    ensures |w| == Min(t, 5)
    ensures w != [] ==> w[0].Num? && w == Run(w[0].page, w[0].page + |w| - 1)
    ensures forall k :: 0 <= k < |w| ==> w[k].Num? && 1 <= w[k].page <= t
    ensures 1 <= c <= t ==> Shows(w, c)
    ensures t <= 5 ==> w == Run(1, t)
    ensures t > 5 && c <= 3 ==> w == Run(1, 5)
    ensures t > 5 && c >= t - 2 ==> w == Run(t - 4, t)
    ensures t > 5 && 3 < c < t - 2 ==> w[2] == Num(c)
  {
    w := [];
    if t <= 5 {
      w := PushRange(w, 1, t);
    } else if c <= 3 {
      w := PushRange(w, 1, 5);
    } else if c >= t - 2 {
      w := PushRange(w, t - 4, t);
    } else {
      w := PushRange(w, c - 2, c + 2);
    }
    if w != [] {
      RunFacts(w[0].page, w[0].page + |w| - 1);
    }
  }
}
