/**
 * The pagination arithmetic every list view repeats: the page count
 * `Math.ceil(n / size)`, the visible slice `items.slice((c - 1) * size,
 * c * size)`, and the clamps used by "previous", "next" and "go to page".
 */
module Pagination {

  function Min(a: int, b: int): int { if a <= b then a else b }
  function Max(a: int, b: int): int { if a >= b then a else b }

  /** `Math.ceil(n / size)`: the fewest pages of `size` rows that hold `n`
      rows. */
  function TotalPages(n: nat, size: nat): (t: nat)
    requires size > 0
    ensures n <= t * size
    ensures t > 0 ==> (t - 1) * size < n
    ensures t == 0 <==> n == 0
  {
    var t := (n + size - 1) / size;
    assert t * size <= n + size - 1 < (t + 1) * size;
    t
  }

  /** How `Array.prototype.slice` reads an index: a negative one counts from
      the end, and either kind is clamped to [0, len]. */
  function SliceIndex(i: int, len: nat): (r: nat)
    ensures r <= len
    ensures 0 <= i ==> r == Min(i, len)
    ensures i < 0 ==> r == Max(len + i, 0)
  {
    if i < 0 then (if len + i < 0 then 0 else len + i)
    else if i > len then len
    else i
  }

  /** Model of `s.slice(start, end)`. */
  function JsSlice<T>(s: seq<T>, start: int, end: int): seq<T>
  {
    var b := SliceIndex(start, |s|);
    var e := SliceIndex(end, |s|);
    if e <= b then [] else s[b..e]
  }

  /** The rows shown on page `page`: `items.slice((page - 1) * size, page * size)`.
      A real page (page >= 1) holds the rows from (page - 1) * size up to
      page * size, cut off at the end of the list; page 0 holds nothing. */
  function PageSlice<T>(items: seq<T>, page: int, size: nat): (r: seq<T>)
    requires size > 0
    ensures |r| <= size
    ensures page >= 1 ==> r == items[Min((page - 1) * size, |items|)..Min(page * size, |items|)]
    ensures page == 0 ==> r == []
  {
    assert page >= 1 ==> (page - 1) * size >= 0 && (page - 1) * size <= page * size;
    assert page <= 0 ==> page * size <= 0;
    JsSlice(items, (page - 1) * size, page * size)
  }

  /** The slices of pages 1..k, one after another. */
  function PagesUpTo<T>(items: seq<T>, size: nat, k: nat): seq<T>
    requires size > 0
  {
    if k == 0 then [] else PagesUpTo(items, size, k - 1) + PageSlice(items, k, size)
  }

  /** Pages 1..k together hold exactly the first k * size rows. */
  lemma {:induction false} PagesUpToPrefix<T>(items: seq<T>, size: nat, k: nat)
    requires size > 0
    ensures PagesUpTo(items, size, k) == items[..Min(k * size, |items|)]
  {
    if k > 0 {
      PagesUpToPrefix(items, size, k - 1);
      MulLe(k - 1, k, size);
      JoinSlices(items, Min((k - 1) * size, |items|), Min(k * size, |items|));
    }
  }

  lemma JoinSlices<T>(items: seq<T>, a: nat, b: nat)
    requires a <= b <= |items|
    ensures items[..a] + items[a..b] == items[..b]
  {
  }

  /** Pages 1..TotalPages, one after another, give back the whole list:
      no row is left out and none is shown twice. */
  lemma PagesCoverList<T>(items: seq<T>, size: nat)
    requires size > 0
    ensures PagesUpTo(items, size, TotalPages(|items|, size)) == items
  {
    PagesUpToPrefix(items, size, TotalPages(|items|, size));
  }

  /** Every page from 1 to TotalPages shows at least one row, and every page
      before the last shows exactly `size` rows. */
  lemma PageSizes<T>(items: seq<T>, size: nat, page: int)
    requires size > 0
    requires 1 <= page <= TotalPages(|items|, size)
    ensures 1 <= |PageSlice(items, page, size)|
    ensures page < TotalPages(|items|, size) ==> |PageSlice(items, page, size)| == size
  {
    var t, n := TotalPages(|items|, size), |items|;
    var lo, hi := (page - 1) * size, page * size;
    assert hi == lo + size;
    MulLe(page - 1, t - 1, size);
    assert 0 <= lo < n;
    var r := PageSlice(items, page, size);
    assert r == items[lo..Min(hi, n)];
    if page < t {
      MulLe(page, t - 1, size);
      assert hi < n;
    }
  }

  lemma MulLe(a: int, b: int, c: nat)
    requires a <= b
    ensures a * c <= b * c
  {
    assert b * c - a * c == (b - a) * c;
  }

  /** A page past the last one shows nothing. */
  lemma PagePastEnd<T>(items: seq<T>, size: nat, page: int)
    requires size > 0
    requires page > TotalPages(|items|, size)
    ensures PageSlice(items, page, size) == []
  {
    var t := TotalPages(|items|, size);
    assert (page - 1) * size >= t * size;
  }

  /** `Math.min(Math.max(p, 1), t)`: go-to-page clamping. */
  function Clamp(p: int, t: int): (r: int)
    ensures t >= 1 ==> 1 <= r <= t
    ensures 1 <= p <= t ==> r == p
    ensures p < 1 <= t ==> r == 1
    ensures p > t ==> r == t
  {
    Min(Max(p, 1), t)
  }

  /** `Math.max(prev - 1, 1)`: the "previous" button. */
  function Previous(c: int): (r: int)
    ensures r >= 1
    ensures c > 1 ==> r == c - 1
    ensures c <= 1 ==> r == 1
  {
    Max(c - 1, 1)
  }

  /** `Math.min(prev + 1, t)`: the "next" button. */
  function Next(c: int, t: int): (r: int)
    ensures r <= t
    ensures c < t ==> r == c + 1
    ensures c >= t ==> r == t
  {
    Min(c + 1, t)
  }

  /** From a page in [1, t], "previous" and "next" stay in [1, t]. */
  lemma StepsStayInRange(c: int, t: int)
    requires 1 <= c <= t
    ensures 1 <= Previous(c) <= t
    ensures 1 <= Next(c, t) <= t
  {
  }

  /** The guarded `handlePageChange(p)`: a request outside [1, t] is
      ignored, any other moves to `p`. */
  function ChangePage(c: int, p: int, t: int): (r: int)
    ensures (p < 1 || p > t) ==> r == c
    ensures 1 <= p <= t ==> r == p
  {
    if p < 1 || p > t then c else p
  }

  /** Guarded moves keep the current page in [1, t] once it is there. */
  lemma ChangePageInRange(c: int, p: int, t: int)
    requires 1 <= c <= t
    ensures 1 <= ChangePage(c, p, t) <= t
  {
  }
}
