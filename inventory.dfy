/**
 * The stock-level list: inventory rows narrowed by a search over product
 * and warehouse names, ten to a page, a go-to-page box read with
 * `parseInt`, and a colour for each row's quantity.
 */
module InventoryView {
  import opened Maybe
  import opened Seqs
  import opened Text
  import opened Pagination
  import opened PageWindow

  datatype InventoryItem = InventoryItem(product: string, warehouse: string, quantity: int)

  const ItemsPerPage: nat := 10

  // ---------------------------------------------------------------------
  // Searching
  // ---------------------------------------------------------------------

  /** The lower-cased term occurs in the lower-cased product or warehouse. */
  predicate Matches(term: string, item: InventoryItem)
  {
    Includes(Lower(item.product), Lower(term)) || Includes(Lower(item.warehouse), Lower(term))
  }

  /** The matching rows, each as many times as it is listed. */
  function Search(items: seq<InventoryItem>, term: string): (r: seq<InventoryItem>)
    ensures forall item :: multiset(r)[item] == if Matches(term, item) then multiset(items)[item] else 0
  {
    FilterCount(items, (item: InventoryItem) => Matches(term, item));
    Filter(items, (item: InventoryItem) => Matches(term, item))
  }

  /** The search keeps, in order, exactly the rows it matches, each as
      many times as it is listed, and a match is a substring occurrence in
      one of the two names. */
  lemma SearchKeeps(items: seq<InventoryItem>, term: string)
    ensures IsSubsequence(Search(items, term), items)
    ensures forall i :: 0 <= i < |items| ==> (items[i] in Search(items, term) <==> Matches(term, items[i]))
    ensures forall item ::
      multiset(Search(items, term))[item] == if Matches(term, item) then multiset(items)[item] else 0
    ensures forall item :: Matches(term, item) <==>
      (exists k :: OccursAt(Lower(item.product), Lower(term), k))
      || (exists k :: OccursAt(Lower(item.warehouse), Lower(term), k))
  {
    FilterKeeps(items, (item: InventoryItem) => Matches(term, item));
    forall item: InventoryItem
      ensures Matches(term, item) <==>
        (exists k :: OccursAt(Lower(item.product), Lower(term), k))
        || (exists k :: OccursAt(Lower(item.warehouse), Lower(term), k))
    {
      IncludesIff(Lower(item.product), Lower(term));
      IncludesIff(Lower(item.warehouse), Lower(term));
    }
  }

  /** An empty term keeps every row. */
  lemma SearchEmpty(items: seq<InventoryItem>)
    ensures Search(items, "") == items
  {
    assert Lower("") == "";
    forall i | 0 <= i < |items|
      ensures Matches("", items[i])
    {
      IncludesEmpty(Lower(items[i].product));
    }
    FilterAll(items, (item: InventoryItem) => Matches("", item));
  }

  // ---------------------------------------------------------------------
  // Quantity colours
  // ---------------------------------------------------------------------

  datatype StockLevel = OutOfStock | Low | Enough

  /** Red for a quantity of exactly 0, amber for any other quantity below
      50 (negative ones included), green otherwise. */
  function Level(quantity: int): (l: StockLevel)
    ensures l == OutOfStock <==> quantity == 0
    ensures l == Low <==> quantity != 0 && quantity < 50
    ensures l == Enough <==> quantity >= 50
  {
    if quantity == 0 then OutOfStock
    else if quantity < 50 then Low
    else Enough
  }

  // ---------------------------------------------------------------------
  // The page
  // ---------------------------------------------------------------------

  class InventoryPage {
    var inventory: seq<InventoryItem>
    var searchTerm: string
    var currentPage: int
    var gotoInput: string

    constructor()
      ensures inventory == [] && searchTerm == "" && currentPage == 1 && gotoInput == ""
    {
      inventory := [];
      searchTerm := "";
      currentPage := 1;
      gotoInput := "";
    }

    function Filtered(): seq<InventoryItem>
      reads this
    {
      Search(inventory, searchTerm)
    }

    function PageCount(): nat
      reads this
    {
      TotalPages(|Filtered()|, ItemsPerPage)
    }

    /** `filteredData.slice(startIndex, startIndex + itemsPerPage)`. */
    function CurrentData(): (r: seq<InventoryItem>)
      reads this
      ensures |r| <= ItemsPerPage
      ensures r == JsSlice(Filtered(), (currentPage - 1) * ItemsPerPage, (currentPage - 1) * ItemsPerPage + ItemsPerPage)
    {
      PageSlice(Filtered(), currentPage, ItemsPerPage)
    }

    predicate ShowControls()
      reads this
    {
      PageCount() > 1
    }

    method PageNumbers() returns (w: seq<PageItem>)
      ensures WellFormed(w, PageCount())
      ensures forall p :: Shows(w, p) <==> 1 <= p <= PageCount() && EdgePairShown(currentPage, PageCount(), p)
      ensures PageCount() <= 5 ==> w == Run(1, PageCount())
    {
      w := EdgePairWindow(currentPage, PageCount());
    }

    /** The fetched rows arrive; a failed fetch leaves the list as it was. */
    method Loaded(response: Option<seq<InventoryItem>>)
      modifies this
      ensures response.Some? ==> inventory == response.value
      ensures response.None? ==> inventory == old(inventory)
      ensures searchTerm == old(searchTerm) && currentPage == old(currentPage) && gotoInput == old(gotoInput)
    {
      if response.Some? {
        inventory := response.value;
      }
    }

    /** Typing in the search box returns to the first page. */
    method SetSearch(s: string)
      modifies this
      ensures searchTerm == s && currentPage == 1
      ensures inventory == old(inventory) && gotoInput == old(gotoInput)
    {
      searchTerm := s;
      currentPage := 1;
    }

    /** The reset button empties the search and returns to the first page,
        where every row is listed again. */
    method Reset()
      modifies this
      ensures searchTerm == "" && currentPage == 1
      ensures Filtered() == inventory
      ensures inventory == old(inventory) && gotoInput == old(gotoInput)
    {
      searchTerm := "";
      currentPage := 1;
      SearchEmpty(inventory);
    }

    method SetGotoInput(s: string)
      modifies this
      ensures gotoInput == s
      ensures inventory == old(inventory) && searchTerm == old(searchTerm) && currentPage == old(currentPage)
    {
      gotoInput := s;
    }

    /** `handleGotoPage`: the page changes only when `parseInt` reads a
        number in [1, PageCount()]; the box is cleared either way. */
    method GotoPage()
      modifies this
      ensures var n := ParseInt(old(gotoInput));
        if n.Some? && 1 <= n.value <= old(PageCount()) then currentPage == n.value
        else currentPage == old(currentPage)
      ensures gotoInput == ""
      ensures inventory == old(inventory) && searchTerm == old(searchTerm)
    {
      var pageNum := ParseInt(gotoInput);
      if pageNum.Some? && pageNum.value >= 1 && pageNum.value <= PageCount() {
        currentPage := pageNum.value;
      }
      gotoInput := "";
    }

    method PreviousPage()
      modifies this
      ensures currentPage == Previous(old(currentPage))
      ensures inventory == old(inventory) && searchTerm == old(searchTerm) && gotoInput == old(gotoInput)
    {
      currentPage := Previous(currentPage);
    }

    method NextPage()
      modifies this
      ensures currentPage == Next(old(currentPage), old(PageCount()))
      ensures inventory == old(inventory) && searchTerm == old(searchTerm) && gotoInput == old(gotoInput)
    {
      currentPage := Next(currentPage, PageCount());
    }

    method SelectPage(p: int)
      modifies this
      ensures currentPage == p
      ensures inventory == old(inventory) && searchTerm == old(searchTerm) && gotoInput == old(gotoInput)
    {
      currentPage := p;
    }
  }
}
