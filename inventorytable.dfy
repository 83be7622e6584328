/**
 * The reusable inventory table: `rowsPerPage` rows to a page (10 unless
 * the caller says otherwise), a strip of at most five consecutive page
 * buttons, and a jump box read with `parseInt`.
 */
module InventoryTableView {
  import opened Maybe
  import opened Text
  import opened Pagination
  import opened PageWindow

  datatype InventoryItem = InventoryItem(product: string, warehouse: string, quantity: int)

  type Positive = n: nat | n > 0 witness 1

  const DefaultRowsPerPage: Positive := 10

  class InventoryTable {
    /** The `data` prop. */
    var data: seq<InventoryItem>
    const rowsPerPage: Positive
    var currentPage: int
    var jumpPage: string

    constructor(items: seq<InventoryItem>, rows: Option<Positive>)
      ensures data == items && currentPage == 1 && jumpPage == ""
      ensures rowsPerPage == if rows.Some? then rows.value else DefaultRowsPerPage
    {
      data := items;
      rowsPerPage := if rows.Some? then rows.value else DefaultRowsPerPage;
      currentPage := 1;
      jumpPage := "";
    }

    function PageCount(): nat
      reads this
    {
      TotalPages(|data|, rowsPerPage)
    }

    /** `data.slice(startIndex, startIndex + rowsPerPage)` with
        `startIndex = (currentPage - 1) * rowsPerPage`. */
    function CurrentData(): (r: seq<InventoryItem>)
      reads this
      ensures |r| <= rowsPerPage
      ensures r == JsSlice(data, (currentPage - 1) * rowsPerPage, (currentPage - 1) * rowsPerPage + rowsPerPage)
    {
      PageSlice(data, currentPage, rowsPerPage)
    }

    /** The controls appear only when there is more than one page. */
    predicate ShowControls()
      reads this
    {
      PageCount() > 1
    }

    /** The parent passes new rows; the page is kept as it was. */
    method SetData(items: seq<InventoryItem>)
      modifies this
      ensures data == items
      ensures currentPage == old(currentPage) && jumpPage == old(jumpPage)
    {
      data := items;
    }

    method SetJumpPage(s: string)
      modifies this
      ensures jumpPage == s
      ensures data == old(data) && currentPage == old(currentPage)
    {
      jumpPage := s;
    }

    /** `handlePageChange`, used by the page buttons and by "previous"
        (`currentPage - 1`) and "next" (`currentPage + 1`): a page outside
        [1, PageCount()] is ignored. */
    method PageChange(p: int)
      modifies this
      ensures currentPage == ChangePage(old(currentPage), p, old(PageCount()))
      ensures 1 <= old(currentPage) <= old(PageCount()) ==> 1 <= currentPage <= PageCount()
      ensures data == old(data) && jumpPage == old(jumpPage)
    {
      if p >= 1 && p <= PageCount() {
        currentPage := p;
      }
    }

    /** `handleJump`: only when `parseInt` reads a page in
        [1, PageCount()] does the page change and the box empty; otherwise
        both stay as they are. */
    method Jump()
      modifies this
      ensures var n := ParseInt(old(jumpPage));
        if n.Some? && 1 <= n.value <= old(PageCount()) then currentPage == n.value && jumpPage == ""
        else currentPage == old(currentPage) && jumpPage == old(jumpPage)
      ensures data == old(data)
    {
      var page := ParseInt(jumpPage);
      if page.Some? && page.value >= 1 && page.value <= PageCount() {
        currentPage := page.value;
        jumpPage := "";
      }
    }

    /** `renderPageNumbers`: min(PageCount(), 5) consecutive pages, all of
        them real pages, always including the current one. */
    method PageNumbers() returns (w: seq<PageItem>)
      ensures |w| == Min(PageCount(), 5)
      ensures w != [] ==> w[0].Num? && w == Run(w[0].page, w[0].page + |w| - 1)
      ensures forall k :: 0 <= k < |w| ==> w[k].Num? && 1 <= w[k].page <= PageCount()
      ensures 1 <= currentPage <= PageCount() ==> Shows(w, currentPage)
      ensures PageCount() <= 5 ==> w == Run(1, PageCount())
      ensures PageCount() > 5 && currentPage <= 3 ==> w == Run(1, 5)
      ensures PageCount() > 5 && currentPage >= PageCount() - 2 ==> w == Run(PageCount() - 4, PageCount())
      ensures PageCount() > 5 && 3 < currentPage < PageCount() - 2 ==> w[2] == Num(currentPage)
    {
      w := BlockWindow(currentPage, PageCount());
    }
  }
}
