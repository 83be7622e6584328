/**
 * The warehouse-transfer list: transfers sorted by date (newest or oldest
 * first), narrowed by a search over three names, shown eight to a page,
 * with a form that records a new transfer.
 */
module WarehouseTransfers {
  import opened Seqs
  import opened Text
  import opened Pagination
  import opened PageWindow

  /** A recorded transfer; the date is the timestamp of `transfer_date`. */
  datatype Transfer = Transfer(
    date: int,
    product: string,
    fromWarehouse: string,
    toSubWarehouse: string,
    quantity: int)

  datatype SortOrder = Asc | Desc

  const RowsPerPage: nat := 8

  // ---------------------------------------------------------------------
  // Sorting by date
  // ---------------------------------------------------------------------

  /** `a` may come before `b`: the comparator `dateA - dateB` (ascending)
      or `dateB - dateA` (descending) is not positive. */
  predicate InOrder(order: SortOrder, a: Transfer, b: Transfer)
  {
    if order == Asc then a.date <= b.date else b.date <= a.date
  }

  ghost predicate SortedBy(order: SortOrder, s: seq<Transfer>)
  {
    forall i, j :: 0 <= i < j < |s| ==> InOrder(order, s[i], s[j])
  }

  /** Put `x` in front of the first element it may precede. */
  function Insert(order: SortOrder, x: Transfer, s: seq<Transfer>): (r: seq<Transfer>)
    ensures multiset(r) == multiset(s) + multiset{x}
    ensures |r| == |s| + 1
    ensures forall k :: 0 <= k < |r| ==> r[k] == x || r[k] in s
  {
    if s == [] || InOrder(order, x, s[0]) then
      [x] + s
    else
      assert s == [s[0]] + s[1..];
      [s[0]] + Insert(order, x, s[1..])
  }

  /** Inserting into a sorted list keeps it sorted. */
  lemma {:induction false} InsertSorted(order: SortOrder, x: Transfer, s: seq<Transfer>)
    requires SortedBy(order, s)
    ensures SortedBy(order, Insert(order, x, s))
  {
    if s == [] || InOrder(order, x, s[0]) {
      forall k | 0 <= k < |s|
        ensures InOrder(order, x, s[k])
      {
        if k > 0 { assert InOrder(order, s[0], s[k]); }
      }
      SortedCons(order, x, s);
    } else {
      var a, t := s[0], s[1..];
      assert SortedBy(order, t) by {
        forall i, j | 0 <= i < j < |t|
          ensures InOrder(order, t[i], t[j])
        {
          assert t[i] == s[i + 1] && t[j] == s[j + 1];
        }
      }
      InsertSorted(order, x, t);
      var rest := Insert(order, x, t);
      forall k | 0 <= k < |rest|
        ensures InOrder(order, a, rest[k])
      {
        if rest[k] != x {
          var m :| 0 <= m < |t| && t[m] == rest[k];
          assert s[m + 1] == t[m];
        }
      }
      SortedCons(order, a, rest);
      assert Insert(order, x, s) == [a] + rest;
    }
  }

  /** An element that may precede every element of a sorted list may
      head it. */
  lemma SortedCons(order: SortOrder, a: Transfer, s: seq<Transfer>)
    requires SortedBy(order, s)
    requires forall k :: 0 <= k < |s| ==> InOrder(order, a, s[k])
    ensures SortedBy(order, [a] + s)
  {
    var r := [a] + s;
    forall i, j | 0 <= i < j < |r|
      ensures InOrder(order, r[i], r[j])
    {
      assert r[j] == s[j - 1];
      if i > 0 { assert r[i] == s[i - 1]; }
    }
  }

  /** `[...transfers].sort(...)`: a stable sort, modelled as insertion. */
  function SortTransfers(ts: seq<Transfer>, order: SortOrder): (r: seq<Transfer>)
    ensures multiset(r) == multiset(ts)
    ensures SortedBy(order, r)
  {
    if ts == [] then []
    else
      assert ts == [ts[0]] + ts[1..];
      var rest := SortTransfers(ts[1..], order);
      InsertSorted(order, ts[0], rest);
      Insert(order, ts[0], rest)
  }

  /** The transfers dated `d`. */
  function OnDate(d: int): Transfer -> bool
  {
    (t: Transfer) => t.date == d
  }

  /** Inserting `x` puts it ahead of every element with its date. */
  lemma {:induction false} InsertStable(order: SortOrder, x: Transfer, s: seq<Transfer>, d: int)
    ensures Filter(Insert(order, x, s), OnDate(d))
         == (if x.date == d then [x] else []) + Filter(s, OnDate(d))
  {
    var p := OnDate(d);
    if s == [] || InOrder(order, x, s[0]) {
      FilterCons(x, s, p);
    } else {
      var a, t := s[0], s[1..];
      var it := Insert(order, x, t);
      assert [a] + t == s;
      assert Insert(order, x, s) == [a] + it;
      assert a.date != x.date;
      InsertStable(order, x, t, d);
      FilterCons(a, it, p);
      FilterCons(a, t, p);
      var r := Filter(Insert(order, x, s), p);
      if x.date == d {
        assert !p(a);
        assert Filter(s, p) == Filter(t, p) by {
          assert Filter(s, p) == [] + Filter(t, p);
        }
        assert r == Filter(it, p) by {
          assert r == [] + Filter(it, p);
        }
        assert r == [x] + Filter(s, p);
      } else {
        assert Filter(it, p) == Filter(t, p) by {
          assert Filter(it, p) == [] + Filter(t, p);
        }
        assert r == Filter(s, p);
        assert r == [] + Filter(s, p);
      }
    }
  }

  /** The sort is stable: transfers that share a date keep their order. */
  lemma {:induction false} SortStable(ts: seq<Transfer>, order: SortOrder, d: int)
    ensures Filter(SortTransfers(ts, order), OnDate(d)) == Filter(ts, OnDate(d))
  {
    if ts != [] {
      SortStable(ts[1..], order, d);
      InsertStable(order, ts[0], SortTransfers(ts[1..], order), d);
    }
  }

  // ---------------------------------------------------------------------
  // Searching
  // ---------------------------------------------------------------------

  /** The lower-cased search occurs in the lower-cased product, source
      warehouse or target sub-warehouse name. */
  predicate Matches(search: string, t: Transfer)
  {
    var key := Lower(search);
    Includes(Lower(t.product), key)
      || Includes(Lower(t.fromWarehouse), key)
      || Includes(Lower(t.toSubWarehouse), key)
  }

  function Matcher(search: string): Transfer -> bool
  {
    (t: Transfer) => Matches(search, t)
  }

  /** The matching transfers, each as many times as it is recorded. */
  function Search(ts: seq<Transfer>, search: string): (r: seq<Transfer>)
    ensures forall t :: multiset(r)[t] == if Matches(search, t) then multiset(ts)[t] else 0
  {
    FilterCount(ts, Matcher(search));
    Filter(ts, Matcher(search))
  }

  /** The search keeps, in order, exactly the transfers it matches, each
      as many times as it is recorded. */
  lemma SearchKeeps(ts: seq<Transfer>, search: string)
    ensures IsSubsequence(Search(ts, search), ts)
    ensures forall i :: 0 <= i < |ts| ==> (ts[i] in Search(ts, search) <==> Matches(search, ts[i]))
    ensures forall t :: multiset(Search(ts, search))[t] == if Matches(search, t) then multiset(ts)[t] else 0
  {
    FilterKeeps(ts, Matcher(search));
  }

  /** A match is a substring occurrence in one of the three names. */
  lemma MatchesIff(search: string, t: Transfer)
    ensures Matches(search, t) <==>
      (exists i :: OccursAt(Lower(t.product), Lower(search), i))
      || (exists i :: OccursAt(Lower(t.fromWarehouse), Lower(search), i))
      || (exists i :: OccursAt(Lower(t.toSubWarehouse), Lower(search), i))
  {
    IncludesIff(Lower(t.product), Lower(search));
    IncludesIff(Lower(t.fromWarehouse), Lower(search));
    IncludesIff(Lower(t.toSubWarehouse), Lower(search));
  }

  /** An empty search keeps every transfer. */
  lemma SearchEmpty(ts: seq<Transfer>)
    ensures Search(ts, "") == ts
  {
    assert Lower("") == "";
    forall i | 0 <= i < |ts|
      ensures Matcher("")(ts[i])
    {
      IncludesEmpty(Lower(ts[i].product));
    }
    FilterAll(ts, Matcher(""));
  }

  /** The list the page shows: sorted, then searched. */
  function Listed(ts: seq<Transfer>, order: SortOrder, search: string): (r: seq<Transfer>)
    ensures forall t :: multiset(r)[t] == if Matches(search, t) then multiset(ts)[t] else 0
  {
    Search(SortTransfers(ts, order), search)
  }

  /** The listed transfers are some of the recorded ones, in date order,
      and all of them when the search is empty. */
  lemma ListedFacts(ts: seq<Transfer>, order: SortOrder, search: string)
    ensures SortedBy(order, Listed(ts, order, search))
    ensures multiset(Listed(ts, order, search)) <= multiset(ts)
    ensures search == "" ==> multiset(Listed(ts, order, search)) == multiset(ts)
    ensures forall t :: multiset(Listed(ts, order, search))[t] == if Matches(search, t) then multiset(ts)[t] else 0
  {
    var s := SortTransfers(ts, order);
    var r := Listed(ts, order, search);
    SubsequenceSorted(order, r, s);
    SubsequenceMultiset(r, s);
    if search == "" {
      SearchEmpty(s);
    }
  }

  lemma {:induction false} SubsequenceSorted(order: SortOrder, r: seq<Transfer>, s: seq<Transfer>)
    requires IsSubsequence(r, s) && SortedBy(order, s)
    ensures SortedBy(order, r)
    decreases |s|
  {
    if r != [] {
      assert SortedBy(order, s[1..]) by {
        forall i, j | 0 <= i < j < |s[1..]|
          ensures InOrder(order, s[1..][i], s[1..][j])
        {
          assert s[1..][i] == s[i + 1] && s[1..][j] == s[j + 1];
        }
      }
      if r[0] == s[0] && IsSubsequence(r[1..], s[1..]) {
        SubsequenceSorted(order, r[1..], s[1..]);
        SubsequenceMultiset(r[1..], s[1..]);
        forall j | 0 < j < |r|
          ensures InOrder(order, r[0], r[j])
        {
          assert r[j] == r[1..][j - 1];
          assert r[j] in multiset(s[1..]);
          var k :| 0 <= k < |s[1..]| && s[1..][k] == r[j];
          assert s[k + 1] == r[j];
        }
      } else {
        SubsequenceSorted(order, r, s[1..]);
      }
    }
  }

  lemma {:induction false} SubsequenceMultiset<T>(r: seq<T>, s: seq<T>)
    requires IsSubsequence(r, s)
    ensures multiset(r) <= multiset(s)
    decreases |s|
  {
    if r != [] {
      assert s == [s[0]] + s[1..];
      if r[0] == s[0] && IsSubsequence(r[1..], s[1..]) {
        SubsequenceMultiset(r[1..], s[1..]);
        assert r == [r[0]] + r[1..];
      } else {
        SubsequenceMultiset(r, s[1..]);
      }
    }
  }

  // ---------------------------------------------------------------------
  // The form
  // ---------------------------------------------------------------------

  datatype TransferForm = TransferForm(
    productId: int,
    fromWarehouseId: int,
    toSubWarehouseId: int,
    quantity: int,
    note: string)

  const EmptyForm := TransferForm(0, 0, 0, 0, "")

  /** The form may be sent: all three ids chosen (not 0) and a positive
      quantity. */
  predicate Complete(f: TransferForm)
  {
    f.productId != 0 && f.fromWarehouseId != 0 && f.toSubWarehouseId != 0 && f.quantity > 0
  }

  /** What happened to a submission: refused before sending, refused by
      the server, or recorded. */
  datatype SubmitOutcome = Incomplete | Failed | Created

  // ---------------------------------------------------------------------
  // The page
  // ---------------------------------------------------------------------

  class TransferPage {
    var transfers: seq<Transfer>
    var form: TransferForm
    var showForm: bool
    var currentPage: int
    var search: string
    var sortOrder: SortOrder
    /** The go-to-page value: a state that starts at 1 and has no setter
        wired to any control. */
    const gotoPage: int

    constructor()
      ensures transfers == [] && form == EmptyForm && !showForm
      ensures currentPage == 1 && search == "" && sortOrder == Desc && gotoPage == 1
    {
      transfers := [];
      form := EmptyForm;
      showForm := false;
      currentPage := 1;
      search := "";
      sortOrder := Desc;
      gotoPage := 1;
    }

    function Filtered(): seq<Transfer>
      reads this
    {
      Listed(transfers, sortOrder, search)
    }

    function PageCount(): nat
      reads this
    {
      TotalPages(|Filtered()|, RowsPerPage)
    }

    /** `filteredTransfers.slice((currentPage - 1) * 8, currentPage * 8)`. */
    function CurrentData(): (r: seq<Transfer>)
      reads this
      ensures |r| <= RowsPerPage
      ensures r == JsSlice(Filtered(), (currentPage - 1) * RowsPerPage, currentPage * RowsPerPage)
    {
      PageSlice(Filtered(), currentPage, RowsPerPage)
    }

    /** The pagination bar appears only when there is more than one page. */
    predicate ShowControls()
      reads this
    {
      PageCount() > 1
    }

    method PageNumbers() returns (w: seq<PageItem>)
      ensures WellFormed(w, PageCount())
      ensures forall p :: Shows(w, p) <==> 1 <= p <= PageCount() && NearShown(currentPage, PageCount(), p)
    {
      w := NearWindow(currentPage, PageCount());
    }

    /** The fetched transfers arrive. */
    method Loaded(ts: seq<Transfer>)
      modifies this
      ensures transfers == ts
      ensures form == old(form) && showForm == old(showForm) && currentPage == old(currentPage)
      ensures search == old(search) && sortOrder == old(sortOrder)
    {
      transfers := ts;
    }

    /** Typing in the search box also returns to the first page. */
    method SetSearch(s: string)
      modifies this
      ensures search == s && currentPage == 1
      ensures transfers == old(transfers) && form == old(form) && showForm == old(showForm)
      ensures sortOrder == old(sortOrder)
      ensures CurrentData() == PageSlice(Search(SortTransfers(transfers, sortOrder), s), 1, RowsPerPage)
    {
      search := s;
      currentPage := 1;
    }

    method SetSortOrder(o: SortOrder)
      modifies this
      ensures sortOrder == o
      ensures transfers == old(transfers) && form == old(form) && showForm == old(showForm)
      ensures currentPage == old(currentPage) && search == old(search)
    {
      sortOrder := o;
    }

    /** `handleGotoPage`: the go-to value clamped to [1, PageCount()]. The
        page renders no control that calls it, so this handler is never
        reached from the view. */
    method GotoPage()
      modifies this
      ensures currentPage == Clamp(gotoPage, old(PageCount()))
      ensures old(PageCount()) >= 1 ==> 1 <= currentPage <= old(PageCount())
      ensures transfers == old(transfers) && form == old(form) && showForm == old(showForm)
      ensures search == old(search) && sortOrder == old(sortOrder)
    {
      currentPage := Clamp(gotoPage, PageCount());
    }

    method PreviousPage()
      modifies this
      ensures currentPage == Previous(old(currentPage))
      ensures transfers == old(transfers) && form == old(form) && showForm == old(showForm)
      ensures search == old(search) && sortOrder == old(sortOrder)
    {
      currentPage := Previous(currentPage);
    }

    method NextPage()
      modifies this
      ensures currentPage == Next(old(currentPage), old(PageCount()))
      ensures transfers == old(transfers) && form == old(form) && showForm == old(showForm)
      ensures search == old(search) && sortOrder == old(sortOrder)
    {
      currentPage := Next(currentPage, PageCount());
    }

    /** A click on a page button. */
    method SelectPage(p: int)
      modifies this
      ensures currentPage == p
      ensures transfers == old(transfers) && form == old(form) && showForm == old(showForm)
      ensures search == old(search) && sortOrder == old(sortOrder)
    {
      currentPage := p;
    }

    method OpenForm()
      modifies this
      ensures showForm
      ensures transfers == old(transfers) && form == old(form) && currentPage == old(currentPage)
      ensures search == old(search) && sortOrder == old(sortOrder)
    {
      showForm := true;
    }

    method CloseForm()
      modifies this
      ensures !showForm
      ensures transfers == old(transfers) && form == old(form) && currentPage == old(currentPage)
      ensures search == old(search) && sortOrder == old(sortOrder)
    {
      showForm := false;
    }

    /** Any edit of a field of the form (the field's new value in `f`). */
    method EditForm(f: TransferForm)
      modifies this
      ensures form == f
      ensures transfers == old(transfers) && showForm == old(showForm) && currentPage == old(currentPage)
      ensures search == old(search) && sortOrder == old(sortOrder)
    {
      form := f;
    }

    /** `handleSubmit`: an incomplete form is refused with nothing
        changed; `created` is the outcome of the request. Success hides
        and empties the form; the refetch that follows is `Loaded`. */
    method Submit(created: bool) returns (outcome: SubmitOutcome)
      modifies this
      ensures !Complete(old(form)) ==> outcome == Incomplete
      ensures Complete(old(form)) && !created ==> outcome == Failed
      ensures Complete(old(form)) && created ==> outcome == Created
      ensures outcome == Created ==> form == EmptyForm && !showForm
      ensures outcome != Created ==> form == old(form) && showForm == old(showForm)
      ensures transfers == old(transfers) && currentPage == old(currentPage)
      ensures search == old(search) && sortOrder == old(sortOrder)
    {
      if form.productId == 0 || form.fromWarehouseId == 0 || form.toSubWarehouseId == 0 || form.quantity <= 0 {
        return Incomplete;
      }
      if !created {
        return Failed;
      }
      showForm := false;
      form := EmptyForm;
      outcome := Created;
    }
  }
}
