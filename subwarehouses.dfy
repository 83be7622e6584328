/**
 * The sub-warehouse list: ten sub-warehouses to a page, the
 * "1, 2, ..., c, ..., T-1, T" strip, a go-to-page box read with `Number`,
 * and one form for adding and editing.
 */
module SubWarehouses {
  import opened Maybe
  import opened Text
  import opened Pagination
  import opened PageWindow

  datatype SubWarehouse = SubWarehouse(
    subId: int,
    warehouseId: int,
    name: string,
    address: Option<string>)

  /** The form's fields, `CreateSubWarehouseDto`. */
  datatype SubForm = SubForm(warehouseId: int, name: string, address: string)

  const EmptyForm := SubForm(0, "", "")

  /** The request a submission sends. */
  datatype SubRequest = Create(form: SubForm) | Update(subId: int, form: SubForm)

  const ItemsPerPage: nat := 10

  class SubWarehousePage {
    var subWarehouses: seq<SubWarehouse>
    var showForm: bool
    var editing: Option<SubWarehouse>
    var form: SubForm
    var currentPage: int
    var gotoInput: string

    constructor()
      ensures subWarehouses == [] && !showForm && editing == None && form == EmptyForm
      ensures currentPage == 1 && gotoInput == ""
    {
      subWarehouses := [];
      showForm := false;
      editing := None;
      form := EmptyForm;
      currentPage := 1;
      gotoInput := "";
    }

    function PageCount(): nat
      reads this
    {
      TotalPages(|subWarehouses|, ItemsPerPage)
    }

    /** `subWarehouses.slice(indexOfFirst, indexOfLast)`: the rows from
        c * 10 - 10 up to c * 10. */
    function CurrentItems(): (r: seq<SubWarehouse>)
      reads this
      ensures |r| <= ItemsPerPage
      ensures r == JsSlice(subWarehouses, currentPage * ItemsPerPage - ItemsPerPage, currentPage * ItemsPerPage)
    {
      PageSlice(subWarehouses, currentPage, ItemsPerPage)
    }

    predicate ShowControls()
      reads this
    {
      PageCount() > 1
    }

    method PageNumbers() returns (w: seq<PageItem>)
      ensures WellFormed(w, PageCount())
      ensures forall p :: Shows(w, p) <==> 1 <= p <= PageCount() && EdgePairShown(currentPage, PageCount(), p)
      ensures PageCount() <= 5 ==> w == Run(1, PageCount())
    {
      w := EdgePairWindow(currentPage, PageCount());
    }

    method Loaded(subs: seq<SubWarehouse>)
      modifies this
      ensures subWarehouses == subs
      ensures showForm == old(showForm) && editing == old(editing) && form == old(form)
      ensures currentPage == old(currentPage) && gotoInput == old(gotoInput)
    {
      subWarehouses := subs;
    }

    method SetGotoInput(s: string)
      modifies this
      ensures gotoInput == s
      ensures subWarehouses == old(subWarehouses) && showForm == old(showForm)
      ensures editing == old(editing) && form == old(form) && currentPage == old(currentPage)
    {
      gotoInput := s;
    }

    /** `handleGotoPage`: text that is not a number changes nothing;
        any number is raised to 1, lowered to the page count, taken as the
        page, and the box is cleared. An empty box reads as 0. */
    method GotoPage()
      modifies this
      ensures NumberValue(old(gotoInput)).None? ==>
        currentPage == old(currentPage) && gotoInput == old(gotoInput)
      ensures NumberValue(old(gotoInput)).Some? ==>
        currentPage == Clamp(NumberValue(old(gotoInput)).value, old(PageCount())) && gotoInput == ""
      ensures old(gotoInput) == "" && old(PageCount()) >= 1 ==> currentPage == 1
      ensures subWarehouses == old(subWarehouses) && showForm == old(showForm)
      ensures editing == old(editing) && form == old(form)
    {
      var parsed := NumberValue(gotoInput);
      if parsed.Some? {
        var page := parsed.value;
        if page < 1 { page := 1; }
        if page > PageCount() { page := PageCount(); }
        currentPage := page;
        gotoInput := "";
      }
    }

    method PreviousPage()
      modifies this
      ensures currentPage == Previous(old(currentPage))
      ensures subWarehouses == old(subWarehouses) && showForm == old(showForm)
      ensures editing == old(editing) && form == old(form) && gotoInput == old(gotoInput)
    {
      currentPage := Previous(currentPage);
    }

    method NextPage()
      modifies this
      ensures currentPage == Next(old(currentPage), old(PageCount()))
      ensures subWarehouses == old(subWarehouses) && showForm == old(showForm)
      ensures editing == old(editing) && form == old(form) && gotoInput == old(gotoInput)
    {
      currentPage := Next(currentPage, PageCount());
    }

    method SelectPage(p: int)
      modifies this
      ensures currentPage == p
      ensures subWarehouses == old(subWarehouses) && showForm == old(showForm)
      ensures editing == old(editing) && form == old(form) && gotoInput == old(gotoInput)
    {
      currentPage := p;
    }

    /** The "add" button: an empty form, not editing anything. */
    method StartCreate()
      modifies this
      ensures showForm && editing == None && form == EmptyForm
      ensures subWarehouses == old(subWarehouses) && currentPage == old(currentPage)
      ensures gotoInput == old(gotoInput)
    {
      showForm := true;
      editing := None;
      form := EmptyForm;
    }

    /** `handleEdit`: the form takes the item's warehouse id and name, and
        its address, or "" when it has none. */
    method Edit(item: SubWarehouse)
      modifies this
      ensures editing == Some(item) && showForm
      ensures form.warehouseId == item.warehouseId && form.name == item.name
      ensures item.address.Some? ==> form.address == item.address.value
      ensures item.address.None? ==> form.address == ""
      ensures subWarehouses == old(subWarehouses) && currentPage == old(currentPage)
      ensures gotoInput == old(gotoInput)
    {
      editing := Some(item);
      var address := if item.address.Some? then item.address.value else "";
      form := SubForm(item.warehouseId, item.name, address);
      showForm := true;
    }

    method EditForm(f: SubForm)
      modifies this
      ensures form == f
      ensures subWarehouses == old(subWarehouses) && showForm == old(showForm)
      ensures editing == old(editing) && currentPage == old(currentPage) && gotoInput == old(gotoInput)
    {
      form := f;
    }

    method CloseForm()
      modifies this
      ensures !showForm
      ensures subWarehouses == old(subWarehouses) && editing == old(editing) && form == old(form)
      ensures currentPage == old(currentPage) && gotoInput == old(gotoInput)
    {
      showForm := false;
    }

    /** `handleSubmit`: an update of the item being edited, or a creation;
        `ok` is the request's outcome. Success closes and empties the form
        and forgets the edited item; failure changes nothing. */
    method Submit(ok: bool) returns (request: SubRequest)
      modifies this
      ensures old(editing).Some? ==> request == Update(old(editing).value.subId, old(form))
      ensures old(editing).None? ==> request == Create(old(form))
      ensures ok ==> !showForm && editing == None && form == EmptyForm
      ensures !ok ==> showForm == old(showForm) && editing == old(editing) && form == old(form)
      ensures subWarehouses == old(subWarehouses) && currentPage == old(currentPage)
      ensures gotoInput == old(gotoInput)
    {
      if editing.Some? {
        request := Update(editing.value.subId, form);
      } else {
        request := Create(form);
      }
      if ok {
        showForm := false;
        editing := None;
        form := EmptyForm;
      }
    }
  }
}
