# QLKhoTA front end: list and report logic

This project models the client-side logic of the QLKhoTA warehouse
front end (`fe/src`). That logic lives inline in the React views: each
list page filters and sorts rows, cuts out the current page, draws a
strip of page buttons, and reacts to clicks and key presses. The model
also covers three other parts:

- the grouping of the warehouse summary;
- the join that decides which warehouses can ship a product;
- the twelve-month stock report.

Each view's `useState` fields become the fields of a Dafny class. Each
event handler becomes a method that states the view's whole new state.
The pure parts become functions, and lemmas prove the properties the
views rely on.

Modules:

- `Text` (text.dfy): ASCII `toLowerCase`, `includes` and `trim`. It also
  models two ways of reading a number from an input box:
  - `parseInt(s, 10)`: leading white space and a sign, then a digit prefix;
  - `Number(s)` on integer text: trimmed, `""` reads as 0, anything else
    is NaN.
- `Maybe` and `Seqs` (seqs.dfy): an option type, `filter` as an
  order-keeping subsequence that keeps every copy of a passing element,
  and `reduce` with `+`.
- `Pagination` (pagination.dfy): the shared page arithmetic.
  - `Math.ceil(n / size)`;
  - `Array.prototype.slice`, including how it reads negative and
    out-of-range indices;
  - the clamps of the "previous", "next" and "go to page" controls.
- `PageWindow` (window.dfy): the four page-strip generators, written as
  loops that push onto a sequence.
  - The three strips that can contain "..." share one shape
    (`WellFormed`).
  - `WindowUnique` proves that a strip of that shape is fixed by the set
    of pages it shows. So each generator's contract pins down its output
    completely.
- One module per view:
  - `WarehouseTransfers`
  - `SubWarehouses`
  - `StockIn`
  - `InventoryView`
  - `WarehouseSummary`
  - `StockOutCreate`
  - `InventoryTableView`
  - `MonthlyReport`

Modelling choices:

- Dates are integer timestamps.
- Quantities and ids are unbounded integers.
- HTTP responses arrive as parameters of the handler methods. Each
  response is the data, or `None` for a failed request.
- Dialog answers and response statuses are `bool` parameters.

Four behaviours of the code worth noting:

- An invalid go-to-page input is not always ignored.
  - The sub-warehouse page clamps any number to [1, T]. It reads an
    empty box as 0, which then goes to page 1 when there is at least
    one page (page 0 when there is none).
  - The transfer page defines a go-to handler, but no control on the page
    calls it, so it is dead code. Its go-to value starts at 1 and is never
    set. `TransferPage.GotoPage` models the handler as written: it would
    always go to page 1, or to page 0 when the list is empty.
- The inventory colour shows "low" for every non-zero quantity below 50,
  negative quantities included.
- On the stock-out form, a warehouse left at its empty option is sent as
  `Number("") == 0`, not as NaN.
- "Delete selected" on the stock-in page never reads the responses'
  statuses. When the server refuses every delete with an HTTP error, the
  selected receipts still leave the list and the selection is cleared.
  Only a request rejected at the network level keeps them. In
  `StockInPage.DeleteSelected` the flag `noneRejected` stands for that
  condition. Single `Delete` does check the status.

## Model

| member | source | states |
|---|---|---|
| Text.Lower | fe/src/pages/inventory/inventoryPage.tsx:41-42 | `toLowerCase` keeps the length, maps each upper-case letter to its lower-case letter and leaves every other character alone |
| Text.Includes | fe/src/pages/warehouse-transfer/warehouseTransferPage.tsx:106-108 | `includes` needs a needle no longer than the text, holds for the empty needle and for a needle at the end; IncludesIff gives the full meaning |
| Text.IncludesIff | fe/src/pages/warehouse-transfer/warehouseTransferPage.tsx:106-108 | `includes` holds exactly when the needle occurs at some position of the text |
| Text.IncludesEmpty | fe/src/pages/inventory/inventoryPage.tsx:41-42 | the empty search term is included in every text |
| Text.LowerFacts | fe/src/pages/inventory/inventoryPage.tsx:41-42 | lower-casing keeps the length, leaves no upper-case letter, changes only upper-case letters, and is idempotent |
| Text.TrimStartFacts | fe/src/pages/warehouse/warehousePage.tsx:59 | the front-trimmed text is a suffix, everything cut off is white space, and it starts with a visible character or is empty |
| Text.TrimEndFacts | fe/src/pages/warehouse/warehousePage.tsx:59 | the end-trimmed text is a prefix, everything cut off is white space, and it ends with a visible character or is empty |
| Text.Trim | fe/src/pages/warehouse/warehousePage.tsx:59 | `trim` returns the text with white space removed at both ends only: a middle slice of the input, bounded by visible characters |
| Text.TrimEmptyIff | fe/src/pages/warehouse/warehousePage.tsx:59 | `search.trim() !== ""` fails exactly when the text is all white space |
| Text.ParseInt | fe/src/pages/inventory/inventoryPage.tsx:50 | `parseInt(s, 10)` is NaN exactly when no digit follows the leading white space and sign; text starting with a digit reads as a number ≥ 0, and text starting with `-` as a number ≤ 0 |
| Text.ParseIntSigned | fe/src/pages/inventory/inventoryPage.tsx:50 | white space, an optional sign, a digit run and a non-digit tail read as the signed value of the run: `parseInt(" -12x")` is -12 and `parseInt("+7")` is 7 |
| Text.TrimStartSkips | fe/src/pages/inventory/inventoryPage.tsx:50 | `parseInt` skips exactly the leading white space: it stops at the first visible character |
| Text.ParseIntDigits | fe/src/components/InventoryTable.tsx:33 | a digit run followed by a non-digit reads as the run's value |
| Text.ParseIntDecimal | fe/src/pages/inventory/inventoryPage.tsx:50 | `parseInt` reads the decimal spelling of n back as n, and stops at the first non-digit |
| Text.NumberValue | fe/src/pages/subWarehouse/subWarehousePage.tsx:122 | `Number(s)`: blank text is 0; a number comes out exactly when the trimmed text is blank or optionally signed digits, and then it is the signed value of those digits ("-3" is -3, "x5" is NaN) |
| Text.NumberOne | fe/src/pages/stock-out/create.tsx:89-90 | the initial quantity text "1" reads as 1 and the empty text as 0 |
| Text.NumberDecimal | fe/src/pages/subWarehouse/subWarehousePage.tsx:122 | `Number` reads the decimal spelling of n back as n |
| Text.NumberRejectsTrailing | fe/src/pages/subWarehouse/subWarehousePage.tsx:122-123 | `Number` of digits followed by a letter is NaN, so that go-to-page does nothing |
| Seqs.Filter | fe/src/pages/inventory/inventoryPage.tsx:39-43 | `filter` returns a subsequence of the array: only elements that pass the test, and every element that passes |
| Seqs.FilterCount | fe/src/pages/inventory/inventoryPage.tsx:39-43 | each element that passes is kept as many times as the array holds it, and one that fails is not kept at all |
| Seqs.FilterKeeps | fe/src/pages/inventory/inventoryPage.tsx:39-43 | position by position, an element is kept exactly when it passes, with its full count, and every kept element comes from the array |
| Seqs.FilterAll | fe/src/pages/inventory/inventoryPage.tsx:39-43 | a test every element passes keeps the whole array |
| Pagination.TotalPages | fe/src/pages/warehouse-transfer/warehouseTransferPage.tsx:111 | `Math.ceil(n / size)`: the fewest pages that hold n rows, and 0 exactly when n is 0 |
| Pagination.SliceIndex | fe/src/pages/warehouse-transfer/warehouseTransferPage.tsx:112-115 | how `slice` reads an index: negative counts from the end, and the result is clamped to [0, len] |
| Pagination.PageSlice | fe/src/pages/warehouse-transfer/warehouseTransferPage.tsx:112-115 | page p shows at most `size` rows: the rows from (p-1)·size up to p·size, cut at the end of the list |
| Pagination.PagesUpToPrefix | fe/src/pages/warehouse-transfer/warehouseTransferPage.tsx:111-115 | pages 1..k together are exactly the first k·size rows |
| Pagination.PagesCoverList | fe/src/pages/warehouse-transfer/warehouseTransferPage.tsx:111-115 | pages 1..T concatenated give back the list: no row lost or repeated |
| Pagination.PageSizes | fe/src/pages/warehouse-transfer/warehouseTransferPage.tsx:111-115 | every page in 1..T is non-empty, and every page before the last is full |
| Pagination.PagePastEnd | fe/src/pages/warehouse-transfer/warehouseTransferPage.tsx:111-115 | a page beyond T shows nothing |
| Pagination.Clamp | fe/src/pages/warehouse-transfer/warehouseTransferPage.tsx:133-136 | `min(max(p, 1), T)` lies in [1, T] when T ≥ 1, keeps an in-range p, and sends low p to 1 and high p to T |
| Pagination.Previous | fe/src/pages/warehouse-transfer/warehouseTransferPage.tsx:365 | "previous" gives c-1, but never less than 1 |
| Pagination.Next | fe/src/pages/warehouse-transfer/warehouseTransferPage.tsx:399-401 | "next" gives c+1, but never more than T |
| Pagination.StepsStayInRange | fe/src/pages/subWarehouse/subWarehousePage.tsx:317-353 | from a page in [1, T], "previous" and "next" stay in [1, T] |
| Pagination.ChangePage | fe/src/pages/stock-in/StockInPage.tsx:98-101 | a requested page outside [1, T] leaves the page unchanged; any other page is taken |
| Pagination.ChangePageInRange | fe/src/components/InventoryTable.tsx:26-30 | guarded page changes keep a page that is in [1, T] in [1, T] |
| PageWindow.WellFormedFacts | fe/src/pages/warehouse-transfer/warehouseTransferPage.tsx:117-131 | in a well-formed strip the numbers strictly increase, lie in [1, T], and no two "..." are adjacent |
| PageWindow.WindowUnique | fe/src/pages/subWarehouse/subWarehousePage.tsx:107-119 | two well-formed strips for T pages that show the same pages are equal |
| PageWindow.PushRange | fe/src/pages/stock-in/StockInPage.tsx:118 | the `for` loop appends the buttons lo..hi, in order |
| PageWindow.NearWindow | fe/src/pages/warehouse-transfer/warehouseTransferPage.tsx:117-131 | the strip is well formed and shows exactly 1, T and the pages within two of c; each hidden run becomes one "..." |
| PageWindow.EdgePairWindow | fe/src/pages/subWarehouse/subWarehousePage.tsx:107-119 | 1..T when T ≤ 5; otherwise a well-formed strip starting with 1, 2 and ending with T-1, T that shows c exactly when 2 < c < T-1 |
| PageWindow.EdgePairShape | fe/src/pages/subWarehouse/subWarehousePage.tsx:111-117 | each optional push produces a linked strip, with "..." exactly where pages are skipped |
| PageWindow.NeighbourWindow | fe/src/pages/stock-in/StockInPage.tsx:103-124 | 1..T when T ≤ 4; otherwise a well-formed strip of 1, T and c-1..c+1; it always includes a valid current page |
| PageWindow.NeighbourStrip | fe/src/pages/stock-in/StockInPage.tsx:110-123 | for T > 4: well formed, and shows exactly 1, T and the in-range neighbours of c |
| PageWindow.NeighbourShape | fe/src/pages/stock-in/StockInPage.tsx:111-122 | the optional "..." around the run max(2, c-1)..min(T-1, c+1) give a well-formed strip |
| PageWindow.SmallShape | fe/src/pages/stock-in/StockInPage.tsx:108-109 | for T ≤ 4 the plain run 1..T is well formed and shows every page |
| PageWindow.BlockWindow | fe/src/components/InventoryTable.tsx:40-54 | min(T, 5) consecutive pages in [1, T], with no "...", always including a valid current page: 1..5 near the start, T-4..T near the end, c in the middle otherwise |
| WarehouseTransfers.Insert | fe/src/pages/warehouse-transfer/warehouseTransferPage.tsx:98-102 | inserting adds exactly one copy of x and keeps every other element |
| WarehouseTransfers.InsertSorted | fe/src/pages/warehouse-transfer/warehouseTransferPage.tsx:98-102 | inserting into a date-ordered list keeps it date-ordered |
| WarehouseTransfers.SortTransfers | fe/src/pages/warehouse-transfer/warehouseTransferPage.tsx:98-102 | the sort is a permutation of the transfers, ordered by date ascending or descending |
| WarehouseTransfers.InsertStable | fe/src/pages/warehouse-transfer/warehouseTransferPage.tsx:98-102 | the inserted transfer goes ahead of the transfers that share its date |
| WarehouseTransfers.SortStable | fe/src/pages/warehouse-transfer/warehouseTransferPage.tsx:98-102 | the sort is stable: transfers with the same date keep their original order |
| WarehouseTransfers.Search | fe/src/pages/warehouse-transfer/warehouseTransferPage.tsx:104-109 | each matching transfer is kept as many times as it is recorded, and no other transfer is kept |
| WarehouseTransfers.SearchKeeps | fe/src/pages/warehouse-transfer/warehouseTransferPage.tsx:104-109 | the search keeps, in order, exactly the transfers it matches, each as many times as it is recorded |
| WarehouseTransfers.MatchesIff | fe/src/pages/warehouse-transfer/warehouseTransferPage.tsx:104-109 | a transfer matches iff the lower-cased search occurs in its lower-cased product, source warehouse or target sub-warehouse |
| WarehouseTransfers.SearchEmpty | fe/src/pages/warehouse-transfer/warehouseTransferPage.tsx:104-109 | an empty search keeps every transfer |
| WarehouseTransfers.Listed | fe/src/pages/warehouse-transfer/warehouseTransferPage.tsx:98-109 | the sorted, searched list holds each matching transfer as many times as it is recorded, and nothing else |
| WarehouseTransfers.ListedFacts | fe/src/pages/warehouse-transfer/warehouseTransferPage.tsx:98-109 | the listed transfers are date-ordered and are the matching recorded ones, counted with repeats; with an empty search they are all of them |
| WarehouseTransfers.TransferPage.constructor | fe/src/pages/warehouse-transfer/warehouseTransferPage.tsx:19-40 | the initial state: no transfers, all-zero form hidden, page 1, empty search, newest first, go-to value 1 |
| WarehouseTransfers.TransferPage.CurrentData | fe/src/pages/warehouse-transfer/warehouseTransferPage.tsx:112-115 | the visible rows are the `slice` of the listed transfers, at most 8 |
| WarehouseTransfers.TransferPage.PageNumbers | fe/src/pages/warehouse-transfer/warehouseTransferPage.tsx:117-131 | the page strip is well formed and shows exactly 1, T and the pages within two of the current one |
| WarehouseTransfers.TransferPage.Loaded | fe/src/pages/warehouse-transfer/warehouseTransferPage.tsx:54 | fetched transfers replace the list; nothing else changes |
| WarehouseTransfers.TransferPage.SetSearch | fe/src/pages/warehouse-transfer/warehouseTransferPage.tsx:161-164 | typing sets the search and returns to page 1, which shows the first 8 matches |
| WarehouseTransfers.TransferPage.SetSortOrder | fe/src/pages/warehouse-transfer/warehouseTransferPage.tsx:169 | choosing the order changes only the order |
| WarehouseTransfers.TransferPage.GotoPage | fe/src/pages/warehouse-transfer/warehouseTransferPage.tsx:133-136 | the unused handler, as written: the page becomes the go-to value clamped to [1, T] |
| WarehouseTransfers.TransferPage.PreviousPage | fe/src/pages/warehouse-transfer/warehouseTransferPage.tsx:365 | the page becomes max(c-1, 1) |
| WarehouseTransfers.TransferPage.NextPage | fe/src/pages/warehouse-transfer/warehouseTransferPage.tsx:399-401 | the page becomes min(c+1, T) |
| WarehouseTransfers.TransferPage.SelectPage | fe/src/pages/warehouse-transfer/warehouseTransferPage.tsx:385 | a page button sets that page |
| WarehouseTransfers.TransferPage.OpenForm | fe/src/pages/warehouse-transfer/warehouseTransferPage.tsx:180 | the add button only shows the form |
| WarehouseTransfers.TransferPage.CloseForm | fe/src/pages/warehouse-transfer/warehouseTransferPage.tsx:288 | the cancel button only hides the form |
| WarehouseTransfers.TransferPage.EditForm | fe/src/pages/warehouse-transfer/warehouseTransferPage.tsx:198-274 | a field edit only changes the form |
| WarehouseTransfers.TransferPage.Submit | fe/src/pages/warehouse-transfer/warehouseTransferPage.tsx:63-95 | a missing id or a quantity ≤ 0 is refused with nothing changed; success hides and empties the form; failure changes nothing |
| SubWarehouses.SubWarehousePage.constructor | fe/src/pages/subWarehouse/subWarehousePage.tsx:28-41 | the initial state: empty list, empty form hidden, not editing, page 1, empty go-to box |
| SubWarehouses.SubWarehousePage.CurrentItems | fe/src/pages/subWarehouse/subWarehousePage.tsx:102-105 | the visible rows are `slice(c·10 - 10, c·10)`, at most 10 |
| SubWarehouses.SubWarehousePage.PageNumbers | fe/src/pages/subWarehouse/subWarehousePage.tsx:107-119 | the 1, 2, …, c, …, T-1, T strip, or 1..T when T ≤ 5 |
| SubWarehouses.SubWarehousePage.Loaded | fe/src/pages/subWarehouse/subWarehousePage.tsx:57-64 | fetched sub-warehouses replace the list; nothing else changes |
| SubWarehouses.SubWarehousePage.SetGotoInput | fe/src/pages/subWarehouse/subWarehousePage.tsx:374 | typing changes only the go-to box |
| SubWarehouses.SubWarehousePage.GotoPage | fe/src/pages/subWarehouse/subWarehousePage.tsx:121-129 | NaN changes nothing; any number is clamped to [1, T], taken as the page, and the box is cleared; an empty box goes to page 1 when there is at least one page |
| SubWarehouses.SubWarehousePage.PreviousPage | fe/src/pages/subWarehouse/subWarehousePage.tsx:317 | the page becomes max(c-1, 1) |
| SubWarehouses.SubWarehousePage.NextPage | fe/src/pages/subWarehouse/subWarehousePage.tsx:351-353 | the page becomes min(c+1, T) |
| SubWarehouses.SubWarehousePage.SelectPage | fe/src/pages/subWarehouse/subWarehousePage.tsx:337 | a page button sets that page |
| SubWarehouses.SubWarehousePage.StartCreate | fe/src/pages/subWarehouse/subWarehousePage.tsx:147-152 | the add button shows an empty form that edits nothing |
| SubWarehouses.SubWarehousePage.Edit | fe/src/pages/subWarehouse/subWarehousePage.tsx:66-74 | editing copies the warehouse id and the name, and the address or "" when there is none |
| SubWarehouses.SubWarehousePage.EditForm | fe/src/pages/subWarehouse/subWarehousePage.tsx:172-214 | a field edit only changes the form |
| SubWarehouses.SubWarehousePage.CloseForm | fe/src/pages/subWarehouse/subWarehousePage.tsx:229 | the cancel button only hides the form |
| SubWarehouses.SubWarehousePage.Submit | fe/src/pages/subWarehouse/subWarehousePage.tsx:83-99 | sends an update of the edited item or a creation; success closes and empties the form; failure changes nothing |
| StockIn.WithoutRecord | fe/src/pages/stock-in/StockInPage.tsx:69 | exactly the receipts with another id remain, in order, with all their copies |
| StockIn.WithoutId | fe/src/pages/stock-in/StockInPage.tsx:70 | every copy of the id leaves the selection; every other id keeps its place in the order and its number of copies |
| StockIn.WithoutSelected | fe/src/pages/stock-in/StockInPage.tsx:85 | exactly the receipts whose id is not selected remain, in order, with all their copies |
| StockIn.Ids | fe/src/pages/stock-in/StockInPage.tsx:254 | the ids of the page's receipts, position by position |
| StockIn.Toggle | fe/src/pages/stock-in/StockInPage.tsx:297-305 | ticking appends the id and unticking drops every copy; no other row's box changes, and unticking keeps every other id's count |
| StockIn.StockInPage.constructor | fe/src/pages/stock-in/StockInPage.tsx:18-29 | the initial state: no receipts, nothing selected, page 1, empty search, newest first |
| StockIn.StockInPage.CurrentPageRecords | fe/src/pages/stock-in/StockInPage.tsx:93-96 | the visible receipts are `slice(c·10 - 10, c·10)`, at most 10 |
| StockIn.StockInPage.PageNumbers | fe/src/pages/stock-in/StockInPage.tsx:103-124 | the 1, …, c-1..c+1, …, T strip, or 1..T when T ≤ 4; it includes a valid current page |
| StockIn.StockInPage.Reload | fe/src/pages/stock-in/StockInPage.tsx:38-54 | success replaces the list, returns to page 1 and clears the selection; failure only records the error |
| StockIn.StockInPage.SetQuery | fe/src/pages/stock-in/StockInPage.tsx:200-204 | the search box and the sort choice change only what the next reload asks for |
| StockIn.StockInPage.PageChange | fe/src/pages/stock-in/StockInPage.tsx:98-101 | a page outside [1, T] is ignored, any other page is taken |
| StockIn.StockInPage.Delete | fe/src/pages/stock-in/StockInPage.tsx:60-72 | only a confirmed, successful delete drops the receipt from the list and from the selection |
| StockIn.StockInPage.DeleteSelected | fe/src/pages/stock-in/StockInPage.tsx:74-90 | with nothing selected or the dialog refused, nothing is sent and nothing changes; otherwise one delete per selected id; unless a request is rejected at the network level, the selected receipts are dropped and the selection cleared, whatever statuses the server answers |
| StockIn.StockInPage.SelectAll | fe/src/pages/stock-in/StockInPage.tsx:248-258 | ticking selects exactly the page's ids, after which the header box is ticked iff the page has rows; unticking clears the selection |
| StockIn.StockInPage.ToggleRow | fe/src/pages/stock-in/StockInPage.tsx:296-305 | a row box updates the selection by `Toggle` |
| InventoryView.Search | fe/src/pages/inventory/inventoryPage.tsx:39-43 | each matching row is kept as many times as it is listed, and no other row is kept |
| InventoryView.SearchKeeps | fe/src/pages/inventory/inventoryPage.tsx:39-43 | the search keeps, in order, exactly the rows whose lower-cased product or warehouse contains the lower-cased term, with all their copies |
| InventoryView.SearchEmpty | fe/src/pages/inventory/inventoryPage.tsx:39-43 | an empty term keeps every row |
| InventoryView.Level | fe/src/pages/inventory/inventoryPage.tsx:130-139 | red exactly at 0, amber exactly for other quantities below 50, green exactly from 50 |
| InventoryView.InventoryPage.constructor | fe/src/pages/inventory/inventoryPage.tsx:10-15 | the initial state: no rows, empty search, page 1, empty go-to box |
| InventoryView.InventoryPage.CurrentData | fe/src/pages/inventory/inventoryPage.tsx:45-47 | the visible rows are `slice((c-1)·10, (c-1)·10 + 10)` of the matches, at most 10 |
| InventoryView.InventoryPage.PageNumbers | fe/src/pages/inventory/inventoryPage.tsx:57-69 | the 1, 2, …, c, …, T-1, T strip, or 1..T when T ≤ 5 |
| InventoryView.InventoryPage.Loaded | fe/src/pages/inventory/inventoryPage.tsx:18-30 | fetched rows replace the list; a failed fetch keeps it |
| InventoryView.InventoryPage.SetSearch | fe/src/pages/inventory/inventoryPage.tsx:93-96 | typing sets the term and returns to page 1 |
| InventoryView.InventoryPage.Reset | fe/src/pages/inventory/inventoryPage.tsx:100-103 | reset empties the term and returns to page 1, where every row is listed again |
| InventoryView.InventoryPage.SetGotoInput | fe/src/pages/inventory/inventoryPage.tsx:237 | typing changes only the go-to box |
| InventoryView.InventoryPage.GotoPage | fe/src/pages/inventory/inventoryPage.tsx:49-55 | the page changes only when `parseInt` reads a page in [1, T]; the box is cleared in every case |
| InventoryView.InventoryPage.PreviousPage | fe/src/pages/inventory/inventoryPage.tsx:184 | the page becomes max(c-1, 1) |
| InventoryView.InventoryPage.NextPage | fe/src/pages/inventory/inventoryPage.tsx:215 | the page becomes min(c+1, T) |
| InventoryView.InventoryPage.SelectPage | fe/src/pages/inventory/inventoryPage.tsx:200 | a page button sets that page |
| WarehouseSummary.SubOf | fe/src/pages/warehouse/warehousePage.tsx:52-55 | a row's sub entry is its sub name, or "Không có kho con" when the name is missing or empty, and its sub quantity, or 0 |
| WarehouseSummary.Names | fe/src/pages/warehouse/warehousePage.tsx:43-51 | the group names are distinct and include the name of every row |
| WarehouseSummary.NamesAppear | fe/src/pages/warehouse/warehousePage.tsx:43-58 | every group name is the name of some row |
| WarehouseSummary.AppearsIff | fe/src/pages/warehouse/warehousePage.tsx:44-51 | a name has a group iff some row carries it |
| WarehouseSummary.NamesInFirstAppearanceOrder | fe/src/pages/warehouse/warehousePage.tsx:43-58 | groups come in order of first appearance: every row of a later group comes after some row of each earlier group |
| WarehouseSummary.FirstQuantity | fe/src/pages/warehouse/warehousePage.tsx:45-51 | a group's total is the warehouse quantity of the first row with its name |
| WarehouseSummary.FirstQuantitySnoc | fe/src/pages/warehouse/warehousePage.tsx:45-51 | a later row does not change the total of a name seen before |
| WarehouseSummary.GroupSnoc | fe/src/pages/warehouse/warehousePage.tsx:44-56 | one more row adds its sub entry to its own group only, or creates that group |
| WarehouseSummary.NamesSnoc | fe/src/pages/warehouse/warehousePage.tsx:44-51 | one more row adds its name at the end when it is new |
| WarehouseSummary.GroupsOf | fe/src/pages/warehouse/warehousePage.tsx:58 | the groups read in name order |
| WarehouseSummary.StepAt | fe/src/pages/warehouse/warehousePage.tsx:44-56 | one `forEach` step leaves each entry of the dictionary equal to the group of the longer row list |
| WarehouseSummary.GroupMapSnoc | fe/src/pages/warehouse/warehousePage.tsx:44-56 | one `forEach` step turns the dictionary of the rows so far into that of one more row |
| WarehouseSummary.AddRow | fe/src/pages/warehouse/warehousePage.tsx:45-55 | the loop body keeps the dictionary and its key order equal to the groups and names of the rows so far |
| WarehouseSummary.BuildGroups | fe/src/pages/warehouse/warehousePage.tsx:43-56 | the `forEach` builds one entry per distinct name, equal to that name's group, with keys in first-appearance order |
| WarehouseSummary.GroupRows | fe/src/pages/warehouse/warehousePage.tsx:43-58 | `Object.values(grouped)` gives the groups in first-appearance order |
| WarehouseSummary.TracksValues | fe/src/pages/warehouse/warehousePage.tsx:58 | reading the dictionary in key order gives the groups |
| WarehouseSummary.SubCountIsRowCount | fe/src/pages/warehouse/warehousePage.tsx:52-55 | the groups hold exactly one sub entry per row |
| WarehouseSummary.Grouped | fe/src/pages/warehouse/warehousePage.tsx:43-58 | at most one group per row, no two groups with the same name, and a group for the name of every row |
| WarehouseSummary.GroupedFacts | fe/src/pages/warehouse/warehousePage.tsx:43-58 | each group carries its own name and its rows' sub entries in row order; the first row of each name gives its group's total |
| WarehouseSummary.NarrowAll | fe/src/pages/warehouse/warehousePage.tsx:62-67 | every group is narrowed, in place |
| WarehouseSummary.Narrow | fe/src/pages/warehouse/warehousePage.tsx:62-67 | a narrowed group keeps its name and total and has at most the sub entries it had; NarrowFacts says which |
| WarehouseSummary.KeywordFilter | fe/src/pages/warehouse/warehousePage.tsx:59-73 | the search never shows more groups than there are; KeywordFilterFacts says which |
| WarehouseSummary.NarrowFacts | fe/src/pages/warehouse/warehousePage.tsx:62-67 | narrowing keeps the name and the total, and keeps exactly the matching sub entries, in order, with all their copies |
| WarehouseSummary.KeywordFilterFacts | fe/src/pages/warehouse/warehousePage.tsx:59-73 | a blank search keeps the groups; otherwise it keeps, in order, exactly the narrowed groups whose name matches or that still have a sub entry, each as often as it occurs among the narrowed groups |
| WarehouseSummary.WarehousePage.constructor | fe/src/pages/warehouse/warehousePage.tsx:20-27 | the initial state: no groups, empty search, page 1, no error |
| WarehouseSummary.WarehousePage.CurrentWarehouses | fe/src/pages/warehouse/warehousePage.tsx:90-93 | the visible groups are `slice(c·5 - 5, c·5)`, at most 5 |
| WarehouseSummary.WarehousePage.PageNumbers | fe/src/pages/warehouse/warehousePage.tsx:95-107 | the 1, 2, …, c, …, T-1, T strip, or 1..T when T ≤ 5 |
| WarehouseSummary.WarehousePage.SetSearch | fe/src/pages/warehouse/warehousePage.tsx:145-149 | typing or the clear button changes only the search text |
| WarehouseSummary.WarehousePage.Settle | fe/src/pages/warehouse/warehousePage.tsx:32-35 | when the timer fires, the search text becomes the one the next fetch uses |
| WarehouseSummary.WarehousePage.Fetch | fe/src/pages/warehouse/warehousePage.tsx:37-83 | success shows the grouped, keyword-filtered rows from page 1; failure only records the error |
| WarehouseSummary.WarehousePage.PreviousPage | fe/src/pages/warehouse/warehousePage.tsx:219 | the page becomes max(c-1, 1) |
| WarehouseSummary.WarehousePage.NextPage | fe/src/pages/warehouse/warehousePage.tsx:254 | the page becomes min(c+1, T) |
| WarehouseSummary.WarehousePage.SelectPage | fe/src/pages/warehouse/warehousePage.tsx:239 | a page button sets that page |
| StockOutCreate.StockedIds | fe/src/pages/stock-out/create.tsx:67 | an id is listed iff some inventory row of the product has a positive quantity in that warehouse |
| StockOutCreate.Available | fe/src/pages/stock-out/create.tsx:67-70 | each stocked warehouse is offered as many times as the list holds it, and no other warehouse is offered |
| StockOutCreate.AvailableIff | fe/src/pages/stock-out/create.tsx:67-70 | the offered warehouses keep the list's order, and a warehouse is offered iff it holds a positive quantity of the product |
| StockOutCreate.With | fe/src/pages/stock-out/create.tsx:77-82 | the named field takes the value and every other field keeps its own |
| StockOutCreate.PayloadOf | fe/src/pages/stock-out/create.tsx:87-93 | `to_store` is left out exactly when the store field is empty, and the note is passed unchanged |
| StockOutCreate.PayloadOfChoices | fe/src/pages/stock-out/create.tsx:87-93 | a form filled from the options and the number box posts those numbers unchanged |
| StockOutCreate.InitialPayload | fe/src/pages/stock-out/create.tsx:87-93 | the untouched form posts quantity 1, warehouse 0 and no store |
| StockOutCreate.StockOutForm.constructor | fe/src/pages/stock-out/create.tsx:38-46 | the initial state: the initial form and no warehouse offered |
| StockOutCreate.StockOutForm.ProductChange | fe/src/pages/stock-out/create.tsx:54-75 | the product is taken and the warehouse cleared; an empty choice or a failed lookup offers no warehouse, and otherwise exactly the available ones are offered |
| StockOutCreate.StockOutForm.Change | fe/src/pages/stock-out/create.tsx:77-82 | only the named field changes |
| InventoryTableView.InventoryTable.constructor | fe/src/components/InventoryTable.tsx:15-20 | the initial state: the given rows, rowsPerPage or 10 by default, page 1, empty jump box |
| InventoryTableView.InventoryTable.CurrentData | fe/src/components/InventoryTable.tsx:23-24 | the visible rows are `slice((c-1)·r, (c-1)·r + r)`, at most r |
| InventoryTableView.InventoryTable.SetData | fe/src/components/InventoryTable.tsx:15-18 | new rows from the parent keep the page and the jump box |
| InventoryTableView.InventoryTable.SetJumpPage | fe/src/components/InventoryTable.tsx:155 | typing changes only the jump box |
| InventoryTableView.InventoryTable.PageChange | fe/src/components/InventoryTable.tsx:26-30 | a page outside [1, T] is ignored, any other page is taken, so the page stays in range |
| InventoryTableView.InventoryTable.Jump | fe/src/components/InventoryTable.tsx:32-38 | only a `parseInt` result in [1, T] changes the page and clears the box; otherwise both stay as they are |
| InventoryTableView.InventoryTable.PageNumbers | fe/src/components/InventoryTable.tsx:40-54 | min(T, 5) consecutive pages in [1, T] containing a valid current page: 1..5 when c ≤ 3, T-4..T when c ≥ T-2, and c in the middle otherwise |
| MonthlyReport.MonthQuantity | fe/src/pages/report/monthly.tsx:52-53 | the quantity of the first row for the month, or 0 when there is none |
| MonthlyReport.MonthQuantitySnoc | fe/src/pages/report/monthly.tsx:52-53 | a later row for another month, or for a month already given, changes nothing |
| MonthlyReport.Entry | fe/src/pages/report/monthly.tsx:51-57 | a month's entry carries its month and in minus out, with 0 for a side that has no row for the month |
| MonthlyReport.ChartData | fe/src/pages/report/monthly.tsx:50-60 | twelve entries for months 1..12 in order, each with its caption, in and out quantities, and in minus out |
| MonthlyReport.IgnoredRow | fe/src/pages/report/monthly.tsx:50-60 | a row for a month outside 1..12, or a repeat of a month, leaves the table unchanged |
| MonthlyReport.TotalIn | fe/src/pages/report/monthly.tsx:62 | the year's stock-in total; TotalsAreMonthSums gives its value and TotalDiff ties it to the differences |
| MonthlyReport.TotalOut | fe/src/pages/report/monthly.tsx:63 | the year's stock-out total; TotalsAreMonthSums gives its value and TotalDiff ties it to the differences |
| MonthlyReport.TotalsAreMonthSums | fe/src/pages/report/monthly.tsx:49-63 | the year's in and out totals are the sums of each report's first quantity for months 1..12, with 0 for a month without rows |
| MonthlyReport.TotalDiff | fe/src/pages/report/monthly.tsx:62-64 | total in minus total out equals the sum of the entries' differences whenever each difference is that entry's in minus out |
| MonthlyReport.TotalDiffIsSumOfDifferences | fe/src/pages/report/monthly.tsx:62-64 | total in minus total out equals the sum of the twelve monthly differences |
| MonthlyReport.TrendOf | fe/src/pages/report/monthly.tsx:150-154 | ↗️ exactly for a positive difference, ↘️ exactly for a negative one, ➡️ exactly for 0 |
| MonthlyReport.Magnitude | fe/src/pages/report/monthly.tsx:151-154 | `Math.abs(difference)` |
| MonthlyReport.EntryTrend | fe/src/pages/report/monthly.tsx:150-155 | a month shows ↗️ when more came in than went out, ↘️ when less, ➡️ when equal, next to the size of the gap |

## Left out

- HTTP requests (`fetch`, `axios`, the `api` services, `Promise.all`) and the Excel import: each request becomes the response or success flag passed to a handler method.
- Loading indicators, error messages, `alert`, `confirm` and `console` output. A dialog answer is a parameter. The error text becomes a `failed` flag where a view keeps that state.
- Rendering, CSS classes and icons. Of the rendering logic, the model keeps only the page strips, the colour of an inventory row and the trend arrow.
- Navigation (`router.push`, `window.location.href`).
- The 400 ms debounce timers, because they are time-based. On the warehouse page the timer firing is `Settle`. On the stock-in page the search only feeds the next reload.
- A stale response overwriting a newer one when requests overlap, and a "delete selected" of which only some requests are rejected at the network level. Both are concurrency effects outside a sequential model.
- Searching and sorting on the stock-in page, because the server does both. The model only keeps the query.
- The monthly report's year picker and its fetch. The report rows are parameters of `ChartData`.
- `Number` and `parseInt` on fractions, exponents, hexadecimal and `Infinity`: the model reads decimal integers only.
- Non-ASCII white space (U+00A0, U+FEFF, U+3000 and the like) in `trim`, `Number` and `parseInt`: the model treats only ASCII white space as white space, so such a character counts as visible, for example in the blank-search test.
- Unicode case mapping in `toLowerCase`: only ASCII letters are lower-cased.
- The `Object.values` ordering of integer-like keys, which JavaScript lists before the others: `GroupRows` returns the groups in insertion order.
- Prototype keys such as `"constructor"` in the `grouped` dictionary.
- The summary's quantities as strings: `Number(...)` of the delivered quantities is taken to be the integer itself.
- A report row whose `total_quantity` is missing or `null`, which `|| 0` would turn into 0: report quantities are integers.
- Browser `required` and `type="number"` checks on the forms.
- Deleting a sub-warehouse and the refetch after it: the refetch is `Loaded`, and the delete itself is only a request.
- The stock-out submit request and the redirect after it: `PayloadOf` models the body that is sent.
- InventoryTableView.InventoryTable.constructor: `rowsPerPage` is taken to be a positive integer. A zero, negative or fractional prop is not modelled.
- The "controls appear only when T > 1" rule is the `ShowControls` predicate of `TransferPage`, `SubWarehousePage`, `InventoryPage`, `WarehousePage` and `InventoryTable`, stated as a definition without a separate contract. The stock-in page has no such guard and no such predicate.
