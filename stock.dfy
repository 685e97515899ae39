/** Stock movements on existing items — goods receipt (additive) and stock
    correction (absolute) — and the read-only views of the stock: the
    serialized item, the per-item stock lookups and the dashboard counts. */
module Stock {
  import opened Wrappers
  import opened Text
  import opened Models
  import opened Tables
  import opened Forms
  import opened Sample

  /** ItemSerializer output: the item's fields plus the read-only name of
      its warehouse. */
  datatype ItemOut = ItemOut(id: nat, name: string, sku: string, quantity: nat, warehouse: nat, warehouseName: string)

  /** OrderSerializer output: the order's fields plus the read-only name and
      SKU of the ordered item. */
  datatype OrderOut = OrderOut(id: nat, orderNumber: string, item: nat, itemName: string, itemSku: string, quantity: nat, orderDate: int)

  function ItemData(s: Store, pk: nat): (r: ItemOut)
    requires Valid(s) && pk in s.items
    ensures r.id == pk && r.warehouse == s.items[pk].warehouse && r.warehouse in s.warehouses
    ensures r.name == s.items[pk].name && r.sku == s.items[pk].sku && r.quantity == s.items[pk].quantity
    ensures r.warehouseName == WarehouseLabel(s.warehouses[r.warehouse])
  {
    var i := s.items[pk];
    ItemOut(pk, i.name, i.sku, i.quantity, i.warehouse, s.warehouses[i.warehouse].name)
  }

  function OrderData(s: Store, pk: nat): (r: OrderOut)
    requires Valid(s) && pk in s.orders
    ensures r.id == pk && r.item == s.orders[pk].item && r.item in s.items
    ensures r.orderNumber == s.orders[pk].orderNumber && r.quantity == s.orders[pk].quantity
    ensures r.orderDate == s.orders[pk].orderDate
    ensures ItemLabel(s.items[r.item]) == r.itemName + " (" + r.itemSku + ")"
  {
    var o := s.orders[pk];
    OrderOut(pk, o.orderNumber, o.item, s.items[o.item].name, s.items[o.item].sku, o.quantity, o.orderDate)
  }

  /** `t` is `s` with the quantity of item `pk` set to `v` and nothing else
      changed: no other field of that item, no other item, no warehouse, no
      order, no key counter. */
  ghost predicate OnlyQuantity(s: Store, t: Store, pk: nat, v: nat) {
    && pk in s.items && pk in t.items
    && t.items.Keys == s.items.Keys
    && t.items[pk] == s.items[pk].(quantity := v)
    && (forall k | k in s.items && k != pk :: t.items[k] == s.items[k])
    && t.warehouses == s.warehouses && t.orders == s.orders
    && t.nextWarehouse == s.nextWarehouse && t.nextItem == s.nextItem && t.nextOrder == s.nextOrder
  }

  /** Quantity writes to one item: the last one wins. */
  lemma OnlyQuantityTwice(s: Store, t: Store, u: Store, pk: nat, v: nat, w: nat)
    requires OnlyQuantity(s, t, pk, v) && OnlyQuantity(t, u, pk, w)
    ensures OnlyQuantity(s, u, pk, w)
  {
  }

  /** A database is determined by the quantity write that produced it. */
  lemma OnlyQuantityDetermines(s: Store, t: Store, u: Store, pk: nat, v: nat)
    requires OnlyQuantity(s, t, pk, v) && OnlyQuantity(s, u, pk, v)
    ensures t == u
  {
    assert t.items == u.items;
  }

  /** Quantity writes to two different items commute. */
  lemma OnlyQuantityCommute(s: Store, t1: Store, u1: Store, t2: Store, u2: Store, p: nat, a: nat, q: nat, b: nat)
    requires p != q
    requires OnlyQuantity(s, t1, p, a) && OnlyQuantity(t1, u1, q, b)
    requires OnlyQuantity(s, t2, q, b) && OnlyQuantity(t2, u2, p, a)
    ensures u1 == u2
  {
    assert u1.items == u2.items;
  }

  /** `item.quantity = v; item.save()`. */
  function SetQuantity(s: Store, pk: nat, v: nat): (r: Store)
    requires pk in s.items
    ensures OnlyQuantity(s, r, pk, v)
    ensures Valid(s) ==> Valid(r)
  {
    s.(items := s.items[pk := s.items[pk].(quantity := v)])
  }

  /** `item.quantity += q; item.save()`. */
  function Receive(s: Store, pk: nat, q: nat): (r: Store)
    requires pk in s.items
    ensures OnlyQuantity(s, r, pk, s.items[pk].quantity + q)
    ensures Valid(s) ==> Valid(r)
  {
    SetQuantity(s, pk, s.items[pk].quantity + q)
  }

  /** Goods receipt, in the API (GoodsReceiptAPIView.post) and in the
      `goods_receipt` and `goods_receipt_touch` views: a valid form adds the
      quantity to the chosen item and answers with the serialized item; an
      invalid form changes nothing. */
  function GoodsReceipt(s: Store, item: Option<int>, quantity: Option<int>): (r: Step<ItemOut>)
    requires Valid(s)
    ensures Valid(r.store)
    ensures r.result.Success? <==> ItemChoice(s, item) && AtLeast(quantity, 1)
    ensures r.result.Failure? ==> r.store == s && r.result.error == CleanGoodsReceipt(s, item, quantity).error
    ensures r.result.Success? ==> (
      && OnlyQuantity(s, r.store, item.value as nat, s.items[item.value as nat].quantity + quantity.value as nat)
      && r.store == Receive(s, item.value as nat, quantity.value as nat)
      && r.result.value == ItemData(r.store, item.value as nat))
  {
    var c := CleanGoodsReceipt(s, item, quantity);
    if c.Failure? then Step(s, Failure(c.error))
    else
      var pk := c.value.item;
      var t := Receive(s, pk, c.value.quantity);
      Step(t, Success(ItemData(t, pk)))
  }

  /** The answer to a stock correction: the serialized item and the quantity
      before and after. */
  datatype CorrectionOut = CorrectionOut(item: ItemOut, oldQuantity: nat, newQuantity: nat)

  /** Stock correction, in the API (StockCorrectionAPIView.post) and in the
      `stock_correction` view on a valid POST: the chosen item's quantity
      becomes the new quantity whatever it was; the quantity read before the
      write is reported as the old one. */
  function StockCorrection(s: Store, item: Option<int>, newQuantity: Option<int>): (r: Step<CorrectionOut>)
    requires Valid(s)
    ensures Valid(r.store)
    ensures r.result.Success? <==> ItemChoice(s, item) && AtLeast(newQuantity, 0)
    ensures r.result.Failure? ==> r.store == s && r.result.error == CleanStockCorrection(s, item, newQuantity).error
    ensures r.result.Success? ==> (
      && OnlyQuantity(s, r.store, item.value as nat, newQuantity.value as nat)
      && r.store == SetQuantity(s, item.value as nat, newQuantity.value as nat)
      && r.result.value.oldQuantity == s.items[item.value as nat].quantity
      && r.result.value.newQuantity as int == newQuantity.value
      && r.result.value.item == ItemData(r.store, item.value as nat))
  {
    var c := CleanStockCorrection(s, item, newQuantity);
    if c.Failure? then Step(s, Failure(c.error))
    else
      var pk := c.value.item;
      var before := s.items[pk].quantity;
      var t := SetQuantity(s, pk, c.value.newQuantity);
      Step(t, Success(CorrectionOut(ItemData(t, pk), before, c.value.newQuantity)))
  }

  /** A request to the `stock_correction` view: a GET with the optional
      `?item=` query parameter, or a POST of the form. */
  datatype CorrectionRequest = Get(itemParam: Option<string>) | Post(item: Option<int>, newQuantity: Option<int>)

  /** What the `stock_correction` view renders: the redirect after a
      successful correction, or the form page with its field errors and the
      current quantity of the selected item, if any. */
  datatype CorrectionPage = Corrected | FormPage(errors: set<Field>, current: Option<nat>)

  /** The `stock_correction` view. A valid POST corrects the stock. An
      invalid POST shows the form again, with the current quantity when the
      item field on its own was valid. A GET changes nothing; with a
      non-empty `?item=` it shows that item's quantity, or none when no item
      has that key; a parameter that is not an integer fails the primary-key
      lookup (`int()` of the parameter raises). */
  function StockCorrectionView(s: Store, req: CorrectionRequest): (r: Step<CorrectionPage>)
    requires Valid(s)
    ensures Valid(r.store)
    ensures req.Post? && ItemChoice(s, req.item) && AtLeast(req.newQuantity, 0) ==> (
      && r.result == Success(Corrected)
      && OnlyQuantity(s, r.store, req.item.value as nat, req.newQuantity.value as nat))
    ensures !(req.Post? && ItemChoice(s, req.item) && AtLeast(req.newQuantity, 0)) ==> r.store == s
    ensures req.Post? && !(ItemChoice(s, req.item) && AtLeast(req.newQuantity, 0)) ==> (
      && r.result.Success? && r.result.value.FormPage?
      && r.result.value.errors == CleanStockCorrection(s, req.item, req.newQuantity).error.fields
      && (r.result.value.current.Some? <==> ItemChoice(s, req.item))
      && (ItemChoice(s, req.item) ==> r.result.value.current == Some(s.items[req.item.value as nat].quantity)))
    ensures req.Get? ==> (
      && (r.result.Failure? <==> req.itemParam.Some? && req.itemParam.value != [] && ParseInt(req.itemParam.value).None?)
      && (r.result.Success? ==> r.result.value.FormPage? && r.result.value.errors == {})
      && (r.result.Success? && r.result.value.current.Some? ==> (
            && req.itemParam.Some?
            && exists k | k in s.items :: (
                 && ParseInt(req.itemParam.value) == Some(k as int)
                 && r.result.value.current.value == s.items[k].quantity)))
      && (req.itemParam.Some? && ParseInt(req.itemParam.value).Some? ==> (
            var n := ParseInt(req.itemParam.value).value;
            n >= 0 && n as nat in s.items ==> r.result == Success(FormPage({}, Some(s.items[n as nat].quantity))))))
  {
    match req
    case Post(item, newQuantity) =>
      var c := CleanStockCorrection(s, item, newQuantity);
      if c.Success? then
        Step(SetQuantity(s, c.value.item, c.value.newQuantity), Success(Corrected))
      else
        var current := if ItemChoice(s, item) then Some(s.items[item.value as nat].quantity) else None;
        Step(s, Success(FormPage(c.error.fields, current)))
    case Get(param) =>
      if param.None? || param.value == [] then Step(s, Success(FormPage({}, None)))
      else
        match ParseInt(param.value)
        case None => Step(s, Failure(BadValue))
        case Some(n) =>
          if n >= 0 && n as nat in s.items then Step(s, Success(FormPage({}, Some(s.items[n as nat].quantity))))
          else Step(s, Success(FormPage({}, None)))
  }

  /** The stock record the lookups answer with: name, SKU and quantity. */
  datatype StockInfo = StockInfo(name: string, sku: string, quantity: nat)

  /** ItemBestandAPIView.get and the `item_bestand_api` view: the item with
      that key, or not-found (404). */
  function ItemStock(s: Store, itemId: int): (r: Result<StockInfo, Error>)
    requires Valid(s)
    ensures r.Success? <==> itemId >= 0 && itemId as nat in s.items
    ensures r.Failure? ==> r.error == NotFound
    ensures r.Success? ==> (
      var i := s.items[itemId as nat];
      r.value == StockInfo(i.name, i.sku, i.quantity))
  {
    if itemId >= 0 && itemId as nat in s.items then
      var i := s.items[itemId as nat];
      Success(StockInfo(i.name, i.sku, i.quantity))
    else Failure(NotFound)
  }

  /** ItemInfoAPIView.get: the item with that SKU, or the error payload
      (None), which the API sends with status 200. */
  function ItemInfo(s: Store, sku: string): (r: Option<StockInfo>)
    requires Valid(s)
    ensures r.None? <==> forall k | k in s.items :: s.items[k].sku != sku
    ensures r.Some? ==> r.value.sku == sku && exists k | k in s.items :: ItemStock(s, k) == Success(r.value)
  {
    match FindBySku(s, sku)
    case None => None
    case Some(pk) =>
      var i := s.items[pk];
      assert ItemStock(s, pk) == Success(StockInfo(i.name, i.sku, i.quantity));
      Some(StockInfo(i.name, i.sku, i.quantity))
  }

  /** The `item_info_api` view of the touch screen: only the name of the
      item with that SKU, or the error payload (None). */
  function ItemName(s: Store, sku: string): (r: Option<string>)
    requires Valid(s)
    ensures r.None? <==> ItemInfo(s, sku).None?
    ensures r.Some? ==> r.value == ItemInfo(s, sku).value.name
  {
    match FindBySku(s, sku)
    case None => None
    case Some(pk) => Some(s.items[pk].name)
  }

  /** The dashboard figures. */
  datatype Counts = Counts(warehouses: nat, items: nat, orders: nat)

  /** DashboardAPIView.get and the `dashboard` view: the number of rows in
      each table. */
  function Dashboard(s: Store): (r: Counts)
    ensures r.warehouses == |s.warehouses.Keys| && r.items == |s.items.Keys| && r.orders == |s.orders.Keys|
  {
    Counts(|s.warehouses.Keys|, |s.items.Keys|, |s.orders.Keys|)
  }

  /** A stock movement never changes the dashboard. */
  lemma MovementKeepsCounts(s: Store, t: Store, pk: nat, v: nat)
    requires OnlyQuantity(s, t, pk, v)
    ensures Dashboard(t) == Dashboard(s)
  {
  }

  /** A receipt raises the total stock by exactly the received quantity. */
  lemma ReceiptAddsToTotal(s: Store, pk: nat, q: nat)
    requires Valid(s) && pk in s.items
    ensures TotalStock(Receive(s, pk, q)) == TotalStock(s) + q
  {
    var v := s.items[pk].(quantity := s.items[pk].quantity + q);
    assert Receive(s, pk, q).items == s.items[pk := v];
    StockBelowUpdate(s.items, pk, v, s.nextItem);
  }

  /** A correction sets the total stock to the old total minus the item's
      old quantity plus its new quantity. */
  lemma CorrectionTotal(s: Store, pk: nat, v: nat)
    requires Valid(s) && pk in s.items
    ensures TotalStock(SetQuantity(s, pk, v)) + s.items[pk].quantity == TotalStock(s) + v
  {
    var i := s.items[pk].(quantity := v);
    assert SetQuantity(s, pk, v).items == s.items[pk := i];
    StockBelowUpdate(s.items, pk, i, s.nextItem);
  }

  /** Receiving `a` and then `b` of one item leaves the same database as
      receiving `a + b` at once. */
  lemma ReceiptsCompose(s: Store, pk: nat, a: nat, b: nat)
    requires pk in s.items
    ensures Receive(Receive(s, pk, a), pk, b) == Receive(s, pk, a + b)
  {
    var t := Receive(s, pk, a);
    OnlyQuantityTwice(s, t, Receive(t, pk, b), pk, s.items[pk].quantity + a, s.items[pk].quantity + a + b);
    OnlyQuantityDetermines(s, Receive(t, pk, b), Receive(s, pk, a + b), pk, s.items[pk].quantity + a + b);
  }

  /** A receipt for one item followed by one for another writes the two
      quantities the receipts would write on their own. */
  lemma ReceiptThenReceipt(s: Store, p: nat, a: nat, q: nat, b: nat)
    requires p in s.items && q in s.items && p != q
    ensures OnlyQuantity(Receive(s, p, a), Receive(Receive(s, p, a), q, b), q, s.items[q].quantity + b)
  {
    assert Receive(s, p, a).items[q] == s.items[q];
  }

  /** Receipts for two different items can be booked in either order. */
  lemma ReceiptsCommute(s: Store, p: nat, a: nat, q: nat, b: nat)
    requires p in s.items && q in s.items && p != q
    ensures Receive(Receive(s, p, a), q, b) == Receive(Receive(s, q, b), p, a)
  {
    ReceiptThenReceipt(s, p, a, q, b);
    ReceiptThenReceipt(s, q, b, p, a);
    OnlyQuantityCommute(s, Receive(s, p, a), Receive(Receive(s, p, a), q, b), Receive(s, q, b), Receive(Receive(s, q, b), p, a),
                        p, s.items[p].quantity + a, q, s.items[q].quantity + b);
  }

  /** A correction overrides whatever receipt came before it. */
  lemma CorrectionOverridesReceipt(s: Store, pk: nat, a: nat, v: nat)
    requires pk in s.items
    ensures SetQuantity(Receive(s, pk, a), pk, v) == SetQuantity(s, pk, v)
  {
    var t := Receive(s, pk, a);
    OnlyQuantityTwice(s, t, SetQuantity(t, pk, v), pk, s.items[pk].quantity + a, v);
    OnlyQuantityDetermines(s, SetQuantity(t, pk, v), SetQuantity(s, pk, v), pk, v);
  }

  /** Correcting to the same value twice is the same as once. */
  lemma CorrectionIdempotent(s: Store, pk: nat, v: nat)
    requires pk in s.items
    ensures SetQuantity(SetQuantity(s, pk, v), pk, v) == SetQuantity(s, pk, v)
  {
    var t := SetQuantity(s, pk, v);
    OnlyQuantityTwice(s, t, SetQuantity(t, pk, v), pk, v, v);
    OnlyQuantityDetermines(s, t, SetQuantity(t, pk, v), pk, v);
  }

  /** A correction after a receipt reports the quantity the receipt left. */
  lemma CorrectionReportsReceipt(s: Store, pk: nat, a: nat, v: nat)
    requires Valid(s) && pk in s.items && a >= 1
    ensures var t := GoodsReceipt(s, Some(pk), Some(a)).store;
            StockCorrection(t, Some(pk), Some(v)).result.value.oldQuantity == s.items[pk].quantity + a
  {
  }

  /** After a receipt the stock lookup of that item shows the raised quantity. */
  lemma LookupAfterReceipt(s: Store, pk: nat, a: nat)
    requires Valid(s) && pk in s.items && a >= 1
    ensures ItemStock(GoodsReceipt(s, Some(pk), Some(a)).store, pk).value.quantity
         == ItemStock(s, pk).value.quantity + a
  {
  }

  /** On the sample data, receiving 3 forklifts (item 1) raises their stock
      from 5 to 8 and answers with the serialized item. */
  lemma SampleReceipt()
    ensures Valid(SampleStore())
    ensures GoodsReceipt(SampleStore(), Some(1), Some(3)).result
         == Success(ItemOut(1, "Gabelstapler", "STAPLER001", 8, 1, "Lager Nord"))
  {
    SampleValid();
  }

  /** Correcting the forklifts to 2 after that receipt reports 8 as the old
      and 2 as the new quantity. */
  lemma SampleCorrection()
    ensures Valid(SampleStore())
    ensures var r := StockCorrection(Receive(SampleStore(), 1, 3), Some(1), Some(2)).result;
            r.Success? && r.value.oldQuantity == 8 && r.value.newQuantity == 2
  {
    SampleValid();
  }

  /** A receipt of 0 pieces for an existing item is rejected with an error
      on the quantity only. */
  lemma ZeroReceiptRejected(s: Store, pk: nat)
    requires Valid(s) && pk in s.items
    ensures GoodsReceipt(s, Some(pk), Some(0)).result == Failure(Invalid({QuantityField}))
  {
    assert Flag(true, ItemField) + Flag(false, QuantityField) == {QuantityField};
  }

  /** A receipt for an item key that does not exist is rejected with an
      error on the item only, whatever the (valid) quantity. */
  lemma UnknownItemRejected(s: Store, pk: int, q: int)
    requires Valid(s) && !(pk >= 0 && pk as nat in s.items) && q >= 1
    ensures GoodsReceipt(s, Some(pk), Some(q)).result == Failure(Invalid({ItemField}))
  {
    assert Flag(false, ItemField) + Flag(true, QuantityField) == {ItemField};
  }
}
