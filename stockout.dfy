/**
 * The stock-out form: picking a product narrows the warehouse choice to
 * the warehouses that still hold some of it, every other input writes
 * its own field, and submitting turns the text fields into a payload.
 */
module StockOutCreate {
  import opened Maybe
  import opened Seqs
  import opened Text

  datatype Warehouse = Warehouse(warehouseId: int, name: string)

  /** One `/inventory?product_id=...` row. */
  datatype InventoryRow = InventoryRow(warehouseId: int, productId: int, quantity: int)

  /** The form's fields as the inputs hold them. The quantity starts as
      the number 1, which `Number` reads like the text "1". */
  datatype FormData = FormData(productId: string, warehouseId: string, quantity: string,
                               toStore: string, note: string)

  const InitialForm := FormData("", "", "1", "", "")

  /** The `name` attribute of the input that changed. */
  datatype Field = ProductField | WarehouseField | QuantityField | StoreField | NoteField

  // ---------------------------------------------------------------------
  // Which warehouses can ship the product
  // ---------------------------------------------------------------------

  ghost predicate Stocked(inventory: seq<InventoryRow>, id: int)
  {
    exists j :: 0 <= j < |inventory| && inventory[j].quantity > 0 && inventory[j].warehouseId == id
  }

  /** `res.data.filter((i) => i.quantity > 0).map((i) => i.warehouse_id)`:
      the ids of the rows with a positive quantity, in row order. */
  function StockedIds(inventory: seq<InventoryRow>): (ids: seq<int>)
    ensures forall id :: id in ids <==> Stocked(inventory, id)
  {
    var rows := Filter(inventory, (i: InventoryRow) => i.quantity > 0);
    var ids := seq(|rows|, k requires 0 <= k < |rows| => rows[k].warehouseId);
    assert forall id :: id in ids ==> Stocked(inventory, id) by {
      forall id | id in ids ensures Stocked(inventory, id) {
        var k :| 0 <= k < |ids| && ids[k] == id;
        assert rows[k] in inventory;
        var j :| 0 <= j < |inventory| && inventory[j] == rows[k];
      }
    }
    assert forall id :: Stocked(inventory, id) ==> id in ids by {
      forall id | Stocked(inventory, id) ensures id in ids {
        var j :| 0 <= j < |inventory| && inventory[j].quantity > 0 && inventory[j].warehouseId == id;
        assert inventory[j] in rows;
        var k :| 0 <= k < |rows| && rows[k] == inventory[j];
        assert ids[k] == id;
      }
    }
    ids
  }

  /** `whRes.data.filter((w) => whIds.includes(w.warehouse_id))`. */
  function Available(inventory: seq<InventoryRow>, warehouses: seq<Warehouse>): (r: seq<Warehouse>)
    ensures forall w :: multiset(r)[w] == if Stocked(inventory, w.warehouseId) then multiset(warehouses)[w] else 0
  {
    var ids := StockedIds(inventory);
    FilterCount(warehouses, (w: Warehouse) => w.warehouseId in ids);
    Filter(warehouses, (w: Warehouse) => w.warehouseId in ids)
  }

  /** The warehouses offered keep the warehouse list's order, and a
      warehouse is offered exactly when some inventory row puts a positive
      quantity of the product in it. */
  lemma AvailableIff(inventory: seq<InventoryRow>, warehouses: seq<Warehouse>)
    ensures IsSubsequence(Available(inventory, warehouses), warehouses)
    ensures forall i :: 0 <= i < |warehouses| ==>
      (warehouses[i] in Available(inventory, warehouses) <==> Stocked(inventory, warehouses[i].warehouseId))
    ensures forall w :: w in Available(inventory, warehouses) ==> Stocked(inventory, w.warehouseId)
  {
    var r := Available(inventory, warehouses);
    forall w | w in r
      ensures Stocked(inventory, w.warehouseId)
    {
      var k :| 0 <= k < |r| && r[k] == w;
    }
  }

  // ---------------------------------------------------------------------
  // Field updates
  // ---------------------------------------------------------------------

  function Get(f: FormData, field: Field): string
  {
    match field
    case ProductField => f.productId
    case WarehouseField => f.warehouseId
    case QuantityField => f.quantity
    case StoreField => f.toStore
    case NoteField => f.note
  }

  /** `{ ...prev, [name]: value }`: the named field takes the value and
      every other field keeps its own. */
  function With(f: FormData, field: Field, value: string): (r: FormData)
    ensures Get(r, field) == value
    ensures forall g :: g != field ==> Get(r, g) == Get(f, g)
  {
    match field
    case ProductField => f.(productId := value)
    case WarehouseField => f.(warehouseId := value)
    case QuantityField => f.(quantity := value)
    case StoreField => f.(toStore := value)
    case NoteField => f.(note := value)
  }

  // ---------------------------------------------------------------------
  // The payload
  // ---------------------------------------------------------------------

  /** `to_store` is either left out of the payload or holds `Number` of
      the chosen store. */
  datatype StoreRef = NoStore | Store(id: Option<int>)

  /** The body of `POST /stock-out`; `None` is NaN. */
  datatype Payload = Payload(productId: Option<int>, warehouseId: Option<int>, quantity: Option<int>,
                             toStore: StoreRef, note: string)

  function PayloadOf(f: FormData): (p: Payload)
    ensures p.toStore.NoStore? <==> f.toStore == ""
    ensures p.note == f.note
  {
    Payload(NumberValue(f.productId), NumberValue(f.warehouseId), NumberValue(f.quantity),
            if f.toStore != "" then Store(NumberValue(f.toStore)) else NoStore,
            f.note)
  }

  /** A form filled from the select options and the number box, whose
      values are decimal spellings, posts those numbers unchanged. */
  lemma PayloadOfChoices(product: nat, warehouse: nat, quantity: nat, store: Option<nat>, note: string)
    ensures var f := FormData(Decimal(product), Decimal(warehouse), Decimal(quantity),
                              if store.Some? then Decimal(store.value) else "", note);
      PayloadOf(f) == Payload(Some(product), Some(warehouse), Some(quantity),
                              if store.Some? then Store(Some(store.value)) else NoStore, note)
  {
    NumberDecimal(product);
    NumberDecimal(warehouse);
    NumberDecimal(quantity);
    if store.Some? {
      NumberDecimal(store.value);
      DecimalValue(store.value);
    }
  }

  /** The untouched quantity posts 1; a warehouse left at
      "-- Chọn kho --" (the empty value) would post 0, not NaN. */
  lemma InitialPayload()
    ensures PayloadOf(InitialForm).quantity == Some(1)
    ensures PayloadOf(InitialForm).warehouseId == Some(0)
    ensures PayloadOf(InitialForm).toStore == NoStore
  {
    NumberOne();
  }

  // ---------------------------------------------------------------------
  // The form
  // ---------------------------------------------------------------------

  class StockOutForm {
    var form: FormData
    var availableWarehouses: seq<Warehouse>

    constructor()
      ensures form == InitialForm && availableWarehouses == []
    {
      form := InitialForm;
      availableWarehouses := [];
    }

    /** `handleProductChange`: the product is taken and the warehouse
        choice cleared in every case. An empty choice offers no warehouse;
        otherwise `lookup` is the inventory of the product and the
        warehouse list, or `None` when either request fails, which also
        offers none. */
    method ProductChange(productId: string, lookup: Option<(seq<InventoryRow>, seq<Warehouse>)>)
      modifies this
      ensures form == old(form).(productId := productId, warehouseId := "")
      ensures productId == "" || lookup.None? ==> availableWarehouses == []
      ensures productId != "" && lookup.Some? ==>
        availableWarehouses == Available(lookup.value.0, lookup.value.1)
    {
      form := form.(productId := productId, warehouseId := "");
      if productId == "" {
        availableWarehouses := [];
        return;
      }
      if lookup.Some? {
        var ids := StockedIds(lookup.value.0);
        availableWarehouses := Filter(lookup.value.1, (w: Warehouse) => w.warehouseId in ids);
      } else {
        availableWarehouses := [];
      }
    }

    /** `handleChange`: only the named field changes. */
    method Change(field: Field, value: string)
      modifies this
      ensures form == With(old(form), field, value)
      ensures availableWarehouses == old(availableWarehouses)
    {
      form := With(form, field, value);
    }

  }
}
