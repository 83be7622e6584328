/**
 * The stock-in list: ten receipts to a page, the "1, ..., c-1..c+1, ..., T"
 * strip, and check boxes that select receipts for deletion. Searching and
 * sorting happen on the server; the page only reloads.
 */
module StockIn {
  import opened Maybe
  import opened Seqs
  import opened Pagination
  import opened PageWindow

  /** `StockInItem`; the date is the timestamp of `date_in`. */
  datatype StockInRecord = StockInRecord(
    id: int,
    product: string,
    warehouse: Option<string>,
    quantity: int,
    dateIn: int,
    manufacturer: Option<string>,
    note: string)

  datatype SortOrder = Asc | Desc

  const ItemsPerPage: nat := 10

  // ---------------------------------------------------------------------
  // Selection bookkeeping
  // ---------------------------------------------------------------------

  /** `stockIns.filter((s) => s.stock_in_id !== id)`. */
  function WithoutRecord(records: seq<StockInRecord>, id: int): (r: seq<StockInRecord>)
    ensures IsSubsequence(r, records)
    ensures forall i :: 0 <= i < |r| ==> r[i].id != id
    ensures forall i :: 0 <= i < |records| && records[i].id != id ==> records[i] in r
    ensures forall x :: multiset(r)[x] == if x.id != id then multiset(records)[x] else 0
  {
    FilterCount(records, (s: StockInRecord) => s.id != id);
    Filter(records, (s: StockInRecord) => s.id != id)
  }

  /** `selectedIds.filter((sid) => sid !== id)`. */
  function WithoutId(ids: seq<int>, id: int): (r: seq<int>)
    ensures IsSubsequence(r, ids)
    ensures id !in r
    ensures forall y :: y != id ==> (y in r <==> y in ids)
    ensures forall y :: y != id ==> multiset(r)[y] == multiset(ids)[y]
  {
    var r := Filter(ids, (x: int) => x != id);
    FilterCount(ids, (x: int) => x != id);
    assert forall y :: y in r ==> y in ids by {
      forall y | y in r ensures y in ids {
        var i :| 0 <= i < |r| && r[i] == y;
      }
    }
    r
  }

  /** `stockIns.filter((s) => !selectedIds.includes(s.stock_in_id))`. */
  function WithoutSelected(records: seq<StockInRecord>, selected: seq<int>): (r: seq<StockInRecord>)
    ensures IsSubsequence(r, records)
    ensures forall i :: 0 <= i < |r| ==> r[i].id !in selected
    ensures forall i :: 0 <= i < |records| && records[i].id !in selected ==> records[i] in r
    ensures forall x :: multiset(r)[x] == if x.id !in selected then multiset(records)[x] else 0
  {
    FilterCount(records, (s: StockInRecord) => s.id !in selected);
    Filter(records, (s: StockInRecord) => s.id !in selected)
  }

  /** `currentStockIns.map((s) => s.stock_in_id)`. */
  function Ids(records: seq<StockInRecord>): (ids: seq<int>)
    ensures |ids| == |records|
    ensures forall i :: 0 <= i < |records| ==> ids[i] == records[i].id
  {
    seq(|records|, i requires 0 <= i < |records| => records[i].id)
  }

  /** The header check box is ticked when there are as many selected ids
      as rows on the page and the page is not empty. */
  predicate AllSelected(selected: seq<int>, page: seq<StockInRecord>)
  {
    |selected| == |page| && |page| > 0
  }

  /** A row's check box: ticking adds the id at the end, unticking drops
      every copy of it. Afterwards the row's box shows the new state and
      no other row's box changes. */
  function Toggle(selected: seq<int>, id: int, checked: bool): (r: seq<int>)
    ensures (id in r) == checked
    ensures forall y :: y != id ==> (y in r <==> y in selected)
    ensures checked ==> |r| == |selected| + 1 && r[..|selected|] == selected
    ensures !checked ==> IsSubsequence(r, selected)
    ensures !checked ==> forall y :: y != id ==> multiset(r)[y] == multiset(selected)[y]
  {
    if checked then selected + [id] else WithoutId(selected, id)
  }

  // ---------------------------------------------------------------------
  // The page
  // ---------------------------------------------------------------------

  class StockInPage {
    var records: seq<StockInRecord>
    var selectedIds: seq<int>
    var currentPage: int
    var search: string
    var sort: SortOrder
    var failed: bool

    constructor()
      ensures records == [] && selectedIds == [] && currentPage == 1
      ensures search == "" && sort == Desc && !failed
    {
      records := [];
      selectedIds := [];
      currentPage := 1;
      search := "";
      sort := Desc;
      failed := false;
    }

    function PageCount(): nat
      reads this
    {
      TotalPages(|records|, ItemsPerPage)
    }

    function CurrentPageRecords(): (r: seq<StockInRecord>)
      reads this
      ensures |r| <= ItemsPerPage
      ensures r == JsSlice(records, currentPage * ItemsPerPage - ItemsPerPage, currentPage * ItemsPerPage)
    {
      PageSlice(records, currentPage, ItemsPerPage)
    }

    predicate HeaderChecked()
      reads this
    {
      AllSelected(selectedIds, CurrentPageRecords())
    }

    method PageNumbers() returns (w: seq<PageItem>)
      ensures WellFormed(w, PageCount())
      ensures forall p :: Shows(w, p) <==> 1 <= p <= PageCount() && NeighbourShown(currentPage, PageCount(), p)
      ensures PageCount() <= 4 ==> w == Run(1, PageCount())
      ensures 1 <= currentPage <= PageCount() ==> Shows(w, currentPage)
    {
      w := NeighbourWindow(currentPage, PageCount());
    }

    /** `fetchStockIns`: on success the list is replaced, the page goes
        back to 1 and the selection is emptied; on failure only the error
        is set. */
    method Reload(response: Option<seq<StockInRecord>>)
      modifies this
      ensures response.Some? ==>
        records == response.value && currentPage == 1 && selectedIds == [] && failed == old(failed)
      ensures response.None? ==>
        records == old(records) && currentPage == old(currentPage) && selectedIds == old(selectedIds) && failed
      ensures search == old(search) && sort == old(sort)
    {
      if response.Some? {
        records := response.value;
        currentPage := 1;
        selectedIds := [];
      } else {
        failed := true;
      }
    }

    /** Editing the search box or the sort order only changes what the
        next reload asks for. */
    method SetQuery(s: string, o: SortOrder)
      modifies this
      ensures search == s && sort == o
      ensures records == old(records) && selectedIds == old(selectedIds)
      ensures currentPage == old(currentPage) && failed == old(failed)
    {
      search := s;
      sort := o;
    }

    /** `handlePageChange`: a page outside [1, PageCount()] is ignored. */
    method PageChange(p: int)
      modifies this
      ensures currentPage == ChangePage(old(currentPage), p, old(PageCount()))
      ensures (p < 1 || p > old(PageCount())) ==> currentPage == old(currentPage)
      ensures records == old(records) && selectedIds == old(selectedIds)
      ensures search == old(search) && sort == old(sort) && failed == old(failed)
    {
      if p < 1 || p > PageCount() {
        return;
      }
      currentPage := p;
    }

    /** `handleDelete`: `confirmed` is the answer to the dialog and `ok`
        the response's status. Only a confirmed, successful delete drops
        the receipt from the list and from the selection. The result says
        whether a request was sent. */
    method Delete(id: int, confirmed: bool, ok: bool) returns (sent: bool)
      modifies this
      ensures sent == confirmed
      ensures confirmed && ok ==>
        records == WithoutRecord(old(records), id) && selectedIds == WithoutId(old(selectedIds), id)
      ensures !(confirmed && ok) ==> records == old(records) && selectedIds == old(selectedIds)
      ensures currentPage == old(currentPage) && search == old(search) && sort == old(sort)
      ensures failed == old(failed)
    {
      if !confirmed {
        return false;
      }
      sent := true;
      if ok {
        records := WithoutRecord(records, id);
        selectedIds := WithoutId(selectedIds, id);
      }
    }

    /** `handleDeleteSelected`: with nothing selected, or when the dialog
        is refused, no request is sent and nothing changes. Otherwise one
        delete per selected id is sent. `noneRejected` says that no request
        failed at the network level: the code waits on `Promise.all` and
        never reads a response's status, so HTTP error statuses count as
        going through. Then the selected receipts leave the list (the rest
        keep their order) and the selection is emptied. */
    method DeleteSelected(confirmed: bool, noneRejected: bool) returns (requests: seq<int>)
      modifies this
      ensures old(selectedIds) == [] || !confirmed ==> requests == []
      ensures old(selectedIds) != [] && confirmed ==> requests == old(selectedIds)
      ensures requests != [] && noneRejected ==>
        records == WithoutSelected(old(records), old(selectedIds)) && selectedIds == []
      ensures !(requests != [] && noneRejected) ==> records == old(records) && selectedIds == old(selectedIds)
      ensures currentPage == old(currentPage) && search == old(search) && sort == old(sort)
      ensures failed == old(failed)
    {
      if |selectedIds| == 0 {
        return [];
      }
      if !confirmed {
        return [];
      }
      requests := selectedIds;
      if noneRejected {
        records := WithoutSelected(records, selectedIds);
        selectedIds := [];
      }
    }

    /** The header check box: ticking selects exactly the rows on the
        current page, after which the box shows ticked when the page has
        rows; unticking empties the selection. */
    method SelectAll(checked: bool)
      modifies this
      ensures checked ==> selectedIds == Ids(CurrentPageRecords())
      ensures !checked ==> selectedIds == []
      ensures checked ==> (HeaderChecked() <==> CurrentPageRecords() != [])
      ensures !checked ==> !HeaderChecked()
      ensures records == old(records) && currentPage == old(currentPage)
      ensures search == old(search) && sort == old(sort) && failed == old(failed)
    {
      if checked {
        selectedIds := Ids(CurrentPageRecords());
      } else {
        selectedIds := [];
      }
    }

    /** A row's check box. */
    method ToggleRow(id: int, checked: bool)
      modifies this
      ensures selectedIds == Toggle(old(selectedIds), id, checked)
      ensures records == old(records) && currentPage == old(currentPage)
      ensures search == old(search) && sort == old(sort) && failed == old(failed)
    {
      if checked {
        selectedIds := selectedIds + [id];
      } else {
        selectedIds := WithoutId(selectedIds, id);
      }
    }
  }
}
