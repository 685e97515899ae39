/** The stock ledger as the application runs it: the three tables as fields
    of one object that the handlers update in place (`item.quantity += q;
    item.save()`, `Item.objects.create(...)`, `get_or_create`, `delete()`).
    Each handler is a method whose effect and answer are those of the
    function that specifies it on the value `State()`; the properties of
    those functions are proved in their own modules. The read-only handlers
    (lookups, dashboard, item list) are those functions applied to `State()`. */
module Ledger {
  import opened Wrappers
  import opened Text
  import opened Models
  import opened Tables
  import opened Forms
  import opened Stock
  import opened Lookup
  import opened Touch
  import opened Import
  import opened ItemViews

  class Ledger {
    var warehouses: map<nat, Warehouse>
    var items: map<nat, Item>
    var orders: map<nat, Order>
    var nextWarehouse: nat
    var nextItem: nat
    var nextOrder: nat

    /** The tables as a value. */
    function State(): Store
      reads this
    {
      Store(warehouses, items, orders, nextWarehouse, nextItem, nextOrder)
    }

    /** The database constraints hold. */
    ghost predicate Valid()
      reads this
    {
      Tables.Valid(State())
    }

    /** A ledger over existing tables (for instance the sample data). */
    constructor(initial: Store)
      requires Tables.Valid(initial)
      ensures Valid() && State() == initial
    {
      warehouses := initial.warehouses;
      items := initial.items;
      orders := initial.orders;
      nextWarehouse := initial.nextWarehouse;
      nextItem := initial.nextItem;
      nextOrder := initial.nextOrder;
    }

    /** `item.quantity += q; item.save()`. */
    method AddQuantity(pk: nat, q: nat)
      requires Valid() && pk in items
      modifies this
      ensures Valid() && State() == Receive(old(State()), pk, q)
    {
      items := items[pk := items[pk].(quantity := items[pk].quantity + q)];
    }

    /** GoodsReceiptAPIView.post and the `goods_receipt` and
        `goods_receipt_touch` views. */
    method GoodsReceipt(item: Option<int>, quantity: Option<int>) returns (r: Result<ItemOut, Error>)
      requires Valid()
      modifies this
      ensures Valid() && Step(State(), r) == Stock.GoodsReceipt(old(State()), item, quantity)
    {
      var c := CleanGoodsReceipt(State(), item, quantity);
      if c.Failure? {
        return Failure(c.error);
      }
      AddQuantity(c.value.item, c.value.quantity);
      r := Success(ItemData(State(), c.value.item));
    }

    /** StockCorrectionAPIView.post: the quantity is read, then overwritten. */
    method StockCorrection(item: Option<int>, newQuantity: Option<int>) returns (r: Result<CorrectionOut, Error>)
      requires Valid()
      modifies this
      ensures Valid() && Step(State(), r) == Stock.StockCorrection(old(State()), item, newQuantity)
    {
      var c := CleanStockCorrection(State(), item, newQuantity);
      if c.Failure? {
        return Failure(c.error);
      }
      var pk := c.value.item;
      var before := items[pk].quantity;
      items := items[pk := items[pk].(quantity := c.value.newQuantity)];
      r := Success(CorrectionOut(ItemData(State(), pk), before, c.value.newQuantity));
    }

    /** The `stock_correction` view: a valid POST overwrites the quantity;
        everything else only reads. */
    method StockCorrectionView(req: CorrectionRequest) returns (r: Result<CorrectionPage, Error>)
      requires Valid()
      modifies this
      ensures Valid() && Step(State(), r) == Stock.StockCorrectionView(old(State()), req)
    {
      match req
      case Post(item, newQuantity) =>
        var c := CleanStockCorrection(State(), item, newQuantity);
        if c.Success? {
          items := items[c.value.item := items[c.value.item].(quantity := c.value.newQuantity)];
          return Success(Corrected);
        }
        var current := if ItemChoice(State(), item) then Some(items[item.value as nat].quantity) else None;
        r := Success(FormPage(c.error.fields, current));
      case Get(param) =>
        if param.None? || param.value == [] {
          return Success(FormPage({}, None));
        }
        var n := ParseInt(param.value);
        if n.None? {
          return Failure(BadValue);
        }
        if n.value >= 0 && n.value as nat in items {
          r := Success(FormPage({}, Some(items[n.value as nat].quantity)));
        } else {
          r := Success(FormPage({}, None));
        }
    }

    /** What both touch handlers do with a valid request: book onto the
        item with SKU `str(n)`, or create one in the first warehouse and
        book onto it. */
    method TouchBook(layout: Layout, n: int, q: nat, d: string, missing: Error) returns (r: Result<ItemOut, Error>)
      requires Valid()
      modifies this
      ensures Valid() && Step(State(), r) == Touch.TouchBook(layout, old(State()), n, q, d, missing)
    {
      var found := FindBySku(State(), IntToString(n));
      if found.Some? {
        AddQuantity(found.value, q);
        return Success(ItemData(State(), found.value));
      }
      var first := FirstWarehouse(State());
      if first.None? {
        return Failure(missing);
      }
      r := CreateAndReceive(NewTouchItem(layout, n, d, first.value), q);
    }

    /** `Item.objects.create(...)` under the next key: the INSERT. */
    method InsertItem(i: Item)
      requires Valid() && i.warehouse in warehouses
      requires forall k | k in items :: items[k].sku != i.sku
      modifies this
      ensures Valid() && State() == Tables.InsertItem(old(State()), i)
    {
      items := items[nextItem := i];
      nextItem := nextItem + 1;
    }

    /** Creating the touch item, then booking the quantity onto it. */
    method CreateAndReceive(i: Item, q: nat) returns (r: Result<ItemOut, Error>)
      requires Valid() && i.warehouse in warehouses && i.quantity == 0
      modifies this
      ensures Valid() && Step(State(), r) == Touch.CreateAndReceive(old(State()), i, q)
    {
      if SkuUsed(State(), i.sku) {
        return Failure(Integrity(UniqueSku));
      }
      var pk := nextItem;
      InsertItem(i);
      AddQuantity(pk, q);
      r := Success(ItemData(State(), pk));
    }

    /** TouchGoodsReceiptAPIView.post. */
    method TouchReceiptApi(layout: Layout, itemName: Option<int>, quantity: Option<int>,
                           json: Fetch<Option<string>>) returns (r: Result<ItemOut, Error>)
      requires Valid()
      modifies this
      ensures Valid() && Step(State(), r) == Touch.TouchReceiptApi(layout, old(State()), itemName, quantity, json)
    {
      var c := CleanTouchReceipt(itemName, quantity);
      if c.Failure? {
        return Failure(c.error);
      }
      r := TouchBook(layout, c.value.number, c.value.quantity, ApiDescription(c.value.number, json), NoWarehouse);
    }

    /** `touch_main` on a POST. */
    method TouchMain(layout: Layout, itemName: Option<int>, quantity: Option<int>,
                     src: Sources) returns (r: Result<ItemOut, Error>)
      requires Valid()
      modifies this
      ensures Valid() && Step(State(), r) == Touch.TouchMain(layout, old(State()), itemName, quantity, src)
    {
      var c := CleanTouchReceipt(itemName, quantity);
      if c.Failure? {
        return Failure(c.error);
      }
      r := TouchBook(layout, c.value.number, c.value.quantity, ViewDescription(c.value.number, src), Integrity(NotNull));
    }

    /** `Warehouse.objects.get_or_create(name=cell)`. */
    method PlaceWarehouse(cell: Cell) returns (r: Result<nat, Error>)
      requires Valid()
      modifies this
      ensures Valid()
      ensures var g := GetOrCreateWarehouse(old(State()), cell);
              && (g.Failure? ==> r == Failure(g.error) && State() == old(State()))
              && (g.Success? ==> r == Success(g.value.warehouse) && State() == g.value.store)
    {
      if cell.Blank? {
        return Failure(Integrity(NotNull));
      }
      var name := CellText(cell);
      var found := WarehousesNamed(State(), name);
      if |found| > 1 {
        return Failure(MultipleWarehouses);
      }
      if |found| == 1 {
        return Success(found[0]);
      }
      r := Success(nextWarehouse);
      InsertWarehouse(Warehouse(name, ""));
    }

    /** `Warehouse.objects.create(...)` under the next key: the INSERT. */
    method InsertWarehouse(w: Warehouse)
      requires Valid()
      modifies this
      ensures Valid() && State() == Tables.InsertWarehouse(old(State()), w)
    {
      warehouses := warehouses[nextWarehouse := w];
      nextWarehouse := nextWarehouse + 1;
    }

    /** `Item.objects.get_or_create(sku=...)`, then overwriting the fields
        of an item that already existed. */
    method UpsertItem(f: Fields, w: nat)
      requires Valid() && w in warehouses
      modifies this
      ensures Valid() && State() == Upsert(old(State()), f, w)
    {
      var item := Item(f.name, f.sku, f.quantity, w);
      var found := FindBySku(State(), f.sku);
      if found.Some? {
        UpdateItem(found.value, item);
      } else {
        InsertItem(item);
      }
    }

    /** An UPDATE of an item row that keeps its SKU. */
    method UpdateItem(pk: nat, i: Item)
      requires Valid() && pk in items && i.sku == items[pk].sku && i.warehouse in warehouses
      modifies this
      ensures Valid() && State() == Tables.UpdateItem(old(State()), pk, i)
    {
      items := items[pk := i];
    }

    /** One row of the import loop. */
    method ImportRow(mode: Mode, row: seq<Cell>) returns (r: Result<RowOutcome, Error>)
      requires Valid()
      modifies this
      ensures Valid() && Step(State(), r) == Import.ImportRow(old(State()), mode, row)
    {
      if |row| != 4 {
        return if mode.ApiImport? && |row| < 4 then Success(Skipped) else Failure(Unpack);
      }
      var w := PlaceWarehouse(row[3]);
      if w.Failure? {
        return Failure(w.error);
      }
      var f := RowFields(row[0], row[1], row[2]);
      if f.Failure? {
        return Failure(f.error);
      }
      UpsertItem(f.value, w.value);
      r := Success(Imported);
    }

    /** ExcelImportAPIView.post and the `import_excel` view: the loop over
        the data rows with its running count, stopping at the first error
        with every earlier row kept. */
    method ImportExcel(mode: Mode, upload: Upload) returns (r: Result<nat, Error>)
      requires Valid()
      modifies this
      ensures Valid() && Step(State(), r) == Import.ImportExcel(old(State()), mode, upload)
    {
      match upload
      case NoUpload =>
        r := Failure(Invalid({FileField}));
      case BadWorkbook =>
        r := Failure(Unreadable);
      case Sheet(rows) =>
        var imported := 0;
        var i := 0;
        while i < |rows|
          invariant 0 <= i <= |rows| && Valid()
          invariant ImportFrom(State(), mode, rows[i..], imported) == ImportFrom(old(State()), mode, rows, 0)
          decreases |rows| - i
        {
          ghost var before := State();
          var outcome := ImportRow(mode, rows[i]);
          LoopStep(before, mode, rows, i, imported);
          if outcome.Failure? {
            return Failure(outcome.error);
          }
          if outcome.value == Imported {
            imported := imported + 1;
          }
          i := i + 1;
        }
        assert rows[i..] == [];
        r := Success(imported);
    }

    /** `item_edit`: a valid POST overwrites the four fields of that item. */
    method ItemEdit(pk: int, req: EditRequest) returns (r: Result<EditPage, Error>)
      requires Valid()
      modifies this
      ensures Valid() && Step(State(), r) == ItemViews.ItemEdit(old(State()), pk, req)
    {
      if pk < 0 || pk as nat !in items {
        return Failure(NotFound);
      }
      match req
      case ShowForm =>
        r := Success(EditForm({}));
      case Submit(form) =>
        var c := CleanItemForm(State(), pk as nat, form);
        if c.Failure? {
          return Success(EditForm(c.error.fields));
        }
        ReplaceItem(pk as nat, c.value);
        r := Success(Saved);
    }

    /** `form.save()` of an item form: an UPDATE of all four fields. */
    method ReplaceItem(pk: nat, i: Item)
      requires Valid() && pk in items && i.warehouse in warehouses
      requires forall k | k in items && k != pk :: items[k].sku != i.sku
      modifies this
      ensures Valid() && State() == Tables.ReplaceItem(old(State()), pk, i)
    {
      items := items[pk := i];
    }

    /** `item.delete()`: the item and, by the cascade, its orders. */
    method DeleteItem(pk: nat)
      requires Valid() && pk in items
      modifies this
      ensures Valid() && State() == Tables.DeleteItem(old(State()), pk)
    {
      orders := map o | o in orders && orders[o].item != pk :: orders[o];
      items := items - {pk};
    }

    /** `item_delete`: a POST deletes, a GET asks for confirmation. */
    method ItemDelete(pk: int, post: bool) returns (r: Result<DeletePage, Error>)
      requires Valid()
      modifies this
      ensures Valid() && Step(State(), r) == ItemViews.ItemDelete(old(State()), pk, post)
    {
      if pk < 0 || pk as nat !in items {
        return Failure(NotFound);
      }
      if !post {
        return Success(ConfirmDelete);
      }
      DeleteItem(pk as nat);
      r := Success(Deleted);
    }

    /** ItemDetailAPIView.delete. */
    method ApiDeleteItem(pk: int) returns (r: Result<DeletePage, Error>)
      requires Valid()
      modifies this
      ensures Valid() && Step(State(), r) == ItemViews.ApiDeleteItem(old(State()), pk)
    {
      r := ItemDelete(pk, true);
    }
  }

  /** One turn of the import loop: a failing row ends the import with the
      store that row left, a successful one continues with the next row. */
  lemma LoopStep(s: Store, mode: Mode, rows: seq<seq<Cell>>, i: nat, k: nat)
    requires Valid(s) && i < |rows|
    ensures var first := Import.ImportRow(s, mode, rows[i]);
            && (first.result.Failure? ==>
                  ImportFrom(s, mode, rows[i..], k) == Step(first.store, Failure(first.result.error)))
            && (first.result.Success? ==>
                  ImportFrom(s, mode, rows[i..], k)
                  == ImportFrom(first.store, mode, rows[i + 1..], k + (if first.result.value.Imported? then 1 else 0)))
  {
    assert rows[i..][0] == rows[i];
    assert rows[i..][1..] == rows[i + 1..];
  }
}
