/** The touch goods receipt: an article number is booked onto the item
    whose SKU is that number, and an unknown number creates the item first,
    named after a looked-up description. There are two handlers: the API
    (TouchGoodsReceiptAPIView), which answers "no warehouse" itself, and the
    `touch_main` view, which does not check and so runs into the NOT NULL
    constraint on the warehouse.

    As written, both handlers create the item with `name = str(number)` and
    `sku = description`, the reverse of the lookup, which searches the SKU
    for `str(number)`. `Layout` chooses between that record and the evidently
    intended one (`name = description`, `sku = str(number)`). */
module Touch {
  import opened Wrappers
  import opened Text
  import opened Models
  import opened Tables
  import opened Forms
  import opened Stock
  import opened Lookup

  datatype Layout = AsWritten | Intended

  /** The record created for unknown article number `n` with description
      `d` in warehouse `w`, before the quantity is booked. */
  function NewTouchItem(layout: Layout, n: int, d: string, w: nat): (r: Item)
    ensures r.quantity == 0 && r.warehouse == w
    ensures layout.AsWritten? ==> r.name == IntToString(n) && r.sku == d
    ensures layout.Intended? ==> r.name == d && r.sku == IntToString(n)
  {
    match layout
    case AsWritten => Item(IntToString(n), d, 0, w)
    case Intended => Item(d, IntToString(n), 0, w)
  }

  predicate SkuUsed(s: Store, sku: string) {
    exists k | k in s.items :: s.items[k].sku == sku
  }

  /** `Item.objects.create(...)` of a fresh record in an existing warehouse,
      then `item.quantity += q; item.save()`. The INSERT fails on a SKU
      already in use and then nothing is written. */
  function CreateAndReceive(s: Store, i: Item, q: nat): (r: Step<ItemOut>)
    requires Valid(s) && i.warehouse in s.warehouses && i.quantity == 0
    ensures Valid(r.store)
    ensures r.result.Failure? <==> SkuUsed(s, i.sku)
    ensures r.result.Failure? ==> r.store == s && r.result.error == Integrity(UniqueSku)
    ensures r.result.Success? ==> (
      && r.store.items == s.items[s.nextItem := i.(quantity := q)] && s.nextItem !in s.items
      && r.store.nextItem == s.nextItem + 1
      && r.store.warehouses == s.warehouses && r.store.orders == s.orders
      && r.store.nextWarehouse == s.nextWarehouse && r.store.nextOrder == s.nextOrder
      && r.result.value == ItemData(r.store, s.nextItem))
  {
    if SkuUsed(s, i.sku) then Step(s, Failure(Integrity(UniqueSku)))
    else
      var t := InsertItem(s, i);
      var u := Receive(t, s.nextItem, q);
      Step(u, Success(ItemData(u, s.nextItem)))
  }

  /** What both handlers do with a valid request for article number `n`
      and quantity `q`: book onto the item whose SKU is `str(n)`; otherwise
      fail with `missing` when there is no warehouse, else create the item
      with description `d` in the first warehouse and book onto it. */
  function TouchBook(layout: Layout, s: Store, n: int, q: nat, d: string, missing: Error): (r: Step<ItemOut>)
    requires Valid(s)
    ensures Valid(r.store)
    ensures r.result.Failure? ==> r.store == s
    ensures FindBySku(s, IntToString(n)).Some? ==> (
      var pk := FindBySku(s, IntToString(n)).value;
      && OnlyQuantity(s, r.store, pk, s.items[pk].quantity + q)
      && r.result == Success(ItemData(r.store, pk)))
    ensures FindBySku(s, IntToString(n)).None? ==> (
      && (s.warehouses.Keys == {} ==> r == Step(s, Failure(missing)))
      && (s.warehouses.Keys != {} ==> r == CreateAndReceive(s, NewTouchItem(layout, n, d, FirstWarehouse(s).value), q)))
  {
    match FindBySku(s, IntToString(n))
    case Some(pk) =>
      var t := Receive(s, pk, q);
      Step(t, Success(ItemData(t, pk)))
    case None =>
      match FirstWarehouse(s)
      case None => Step(s, Failure(missing))
      case Some(w) => CreateAndReceive(s, NewTouchItem(layout, n, d, w), q)
  }

  /** TouchGoodsReceiptAPIView.post. An invalid request changes nothing.
      For an unknown number the description comes from the JSON lookup
      alone, and a missing warehouse is answered with an error. */
  function TouchReceiptApi(layout: Layout, s: Store, itemName: Option<int>, quantity: Option<int>,
                           json: Fetch<Option<string>>): (r: Step<ItemOut>)
    requires Valid(s)
    ensures Valid(r.store)
    ensures r.result.Failure? ==> r.store == s
    ensures CleanTouchReceipt(itemName, quantity).Failure? ==>
              r.result == Failure(CleanTouchReceipt(itemName, quantity).error)
    ensures CleanTouchReceipt(itemName, quantity).Success? ==>
              r == TouchBook(layout, s, itemName.value, quantity.value as nat, ApiDescription(itemName.value, json), NoWarehouse)
  {
    var c := CleanTouchReceipt(itemName, quantity);
    if c.Failure? then Step(s, Failure(c.error))
    else TouchBook(layout, s, c.value.number, c.value.quantity, ApiDescription(c.value.number, json), NoWarehouse)
  }

  /** `touch_main` on a POST. Like the API, except that the description
      comes from the whole fallback chain and that a missing warehouse is
      not checked: the INSERT with an empty warehouse violates NOT NULL. The
      sources are consulted only for an unknown number, which makes no
      difference to the outcome. */
  function TouchMain(layout: Layout, s: Store, itemName: Option<int>, quantity: Option<int>,
                     src: Sources): (r: Step<ItemOut>)
    requires Valid(s)
    ensures Valid(r.store)
    ensures r.result.Failure? ==> r.store == s
    ensures CleanTouchReceipt(itemName, quantity).Failure? ==>
              r.result == Failure(CleanTouchReceipt(itemName, quantity).error)
    ensures CleanTouchReceipt(itemName, quantity).Success? ==>
              r == TouchBook(layout, s, itemName.value, quantity.value as nat, ViewDescription(itemName.value, src), Integrity(NotNull))
  {
    var c := CleanTouchReceipt(itemName, quantity);
    if c.Failure? then Step(s, Failure(c.error))
    else TouchBook(layout, s, c.value.number, c.value.quantity, ViewDescription(c.value.number, src), Integrity(NotNull))
  }

  /** Both handlers book onto an item whose SKU is `str(number)` without
      creating anything and without consulting any source. */
  lemma TouchKnownItem(layout: Layout, s: Store, n: int, q: int, json: Fetch<Option<string>>, src: Sources, pk: nat)
    requires Valid(s) && q >= 1
    requires pk in s.items && s.items[pk].sku == IntToString(n)
    ensures var r := TouchReceiptApi(layout, s, Some(n), Some(q), json);
            r.result == Success(ItemData(r.store, pk)) && OnlyQuantity(s, r.store, pk, s.items[pk].quantity + q)
    ensures TouchMain(layout, s, Some(n), Some(q), src) == TouchReceiptApi(layout, s, Some(n), Some(q), json)
  {
    assert FindBySku(s, IntToString(n)) == Some(pk);
  }

  /** For an unknown number and no warehouse the API answers an error and
      the view fails on NOT NULL; neither creates an item or books stock. */
  lemma TouchWithoutWarehouse(layout: Layout, s: Store, n: int, q: int, json: Fetch<Option<string>>, src: Sources)
    requires Valid(s) && q >= 1 && s.warehouses.Keys == {}
    requires !SkuUsed(s, IntToString(n))
    ensures TouchReceiptApi(layout, s, Some(n), Some(q), json) == Step(s, Failure(NoWarehouse))
    ensures TouchMain(layout, s, Some(n), Some(q), src) == Step(s, Failure(Integrity(NotNull)))
  {
  }

  /** For an unknown number and a warehouse, the API creates one item, in
      the first warehouse, named `str(number)` with the description as SKU
      and the received quantity as stock, provided the description is not
      already some item's SKU. */
  lemma TouchCreatesApi(s: Store, n: int, q: int, json: Fetch<Option<string>>)
    requires Valid(s) && q >= 1 && s.warehouses.Keys != {}
    requires !SkuUsed(s, IntToString(n)) && !SkuUsed(s, ApiDescription(n, json))
    ensures var r := TouchReceiptApi(AsWritten, s, Some(n), Some(q), json);
            && r.result.Success?
            && r.store.items == s.items[s.nextItem := Item(IntToString(n), ApiDescription(n, json), q as nat, FirstWarehouse(s).value)]
            && r.store.warehouses == s.warehouses && r.store.orders == s.orders
  {
  }

  /** The same for the view, with the description of the fallback chain. */
  lemma TouchCreatesView(s: Store, n: int, q: int, src: Sources)
    requires Valid(s) && q >= 1 && s.warehouses.Keys != {}
    requires !SkuUsed(s, IntToString(n)) && !SkuUsed(s, ViewDescription(n, src))
    ensures var r := TouchMain(AsWritten, s, Some(n), Some(q), src);
            && r.result.Success?
            && r.store.items == s.items[s.nextItem := Item(IntToString(n), ViewDescription(n, src), q as nat, FirstWarehouse(s).value)]
            && r.store.warehouses == s.warehouses && r.store.orders == s.orders
  {
  }

  /** As written, a description that already is some item's SKU makes the
      creation fail on the UNIQUE constraint, and nothing is booked. */
  lemma TouchDescriptionClash(s: Store, n: int, q: int, json: Fetch<Option<string>>)
    requires Valid(s) && q >= 1 && s.warehouses.Keys != {}
    requires !SkuUsed(s, IntToString(n)) && SkuUsed(s, ApiDescription(n, json))
    ensures TouchReceiptApi(AsWritten, s, Some(n), Some(q), json) == Step(s, Failure(Integrity(UniqueSku)))
  {
  }

  /** As written, touching the same unknown number twice fails the second
      time whenever the description differs from `str(number)`: the first
      touch stores the description as SKU, so the second does not find the
      item and tries to create it again, with a SKU that is now taken. */
  lemma RepeatTouchFails(s: Store, n: int, a: nat, b: nat, d: string, missing: Error)
    requires Valid(s) && s.warehouses.Keys != {}
    requires !SkuUsed(s, IntToString(n)) && !SkuUsed(s, d) && d != IntToString(n)
    ensures var t := TouchBook(AsWritten, s, n, a, d, missing).store;
            TouchBook(AsWritten, t, n, b, d, missing) == Step(t, Failure(Integrity(UniqueSku)))
  {
    AsWrittenFirstTouch(s, n, a, d, missing);
  }

  /** The first touch as written stores the description as SKU, so
      afterwards the description is in use and `str(n)` still is not. */
  lemma AsWrittenFirstTouch(s: Store, n: int, a: nat, d: string, missing: Error)
    requires Valid(s) && s.warehouses.Keys != {}
    requires !SkuUsed(s, IntToString(n)) && !SkuUsed(s, d) && d != IntToString(n)
    ensures var t := TouchBook(AsWritten, s, n, a, d, missing).store;
            && t.warehouses == s.warehouses && SkuUsed(t, d) && !SkuUsed(t, IntToString(n))
  {
    var t := TouchBook(AsWritten, s, n, a, d, missing).store;
    assert t.items == s.items[s.nextItem := Item(IntToString(n), d, a, FirstWarehouse(s).value)];
    assert SkuUsed(t, d) by { assert t.items[s.nextItem].sku == d; }
    assert !SkuUsed(t, IntToString(n)) by {
      forall k | k in t.items ensures t.items[k].sku != IntToString(n) {
        if k != s.nextItem { assert t.items[k] == s.items[k]; }
      }
    }
  }

  /** The API case of the repeated touch: the JSON name is the description. */
  lemma RepeatTouchFailsApi(s: Store, n: int, a: int, b: int, json: Fetch<Option<string>>)
    requires Valid(s) && a >= 1 && b >= 1 && s.warehouses.Keys != {}
    requires !SkuUsed(s, IntToString(n)) && !SkuUsed(s, ApiDescription(n, json))
    requires ApiDescription(n, json) != IntToString(n)
    ensures var t := TouchReceiptApi(AsWritten, s, Some(n), Some(a), json).store;
            TouchReceiptApi(AsWritten, t, Some(n), Some(b), json) == Step(t, Failure(Integrity(UniqueSku)))
  {
    RepeatTouchFails(s, n, a, b, ApiDescription(n, json), NoWarehouse);
  }

  /** The first touch of an unknown number with the intended record: one new
      item with SKU `str(n)` holding the received quantity. */
  lemma IntendedFirstTouch(s: Store, n: int, a: nat, d: string, missing: Error)
    requires Valid(s) && s.warehouses.Keys != {} && !SkuUsed(s, IntToString(n))
    ensures var t := TouchBook(Intended, s, n, a, d, missing);
            && t.result.Success?
            && t.store.items == s.items[s.nextItem := Item(d, IntToString(n), a, FirstWarehouse(s).value)]
            && s.nextItem !in s.items
            && FindBySku(t.store, IntToString(n)) == Some(s.nextItem)
            && t.store.items[s.nextItem].quantity == a
  {
    var t := TouchBook(Intended, s, n, a, d, missing).store;
    assert t.items[s.nextItem].sku == IntToString(n);
  }

  /** With the intended record the item is found by its number on the next
      touch, so a second touch only raises the created item's stock, to the
      sum of both quantities, and creates nothing. */
  lemma RepeatTouchAccumulates(s: Store, n: int, a: nat, b: nat, d: string, missing: Error)
    requires Valid(s) && s.warehouses.Keys != {} && !SkuUsed(s, IntToString(n))
    ensures var t := TouchBook(Intended, s, n, a, d, missing);
            var u := TouchBook(Intended, t.store, n, b, d, missing);
            && t.result.Success? && u.result.Success?
            && OnlyQuantity(t.store, u.store, s.nextItem, a + b)
  {
    IntendedFirstTouch(s, n, a, d, missing);
    var t := TouchBook(Intended, s, n, a, d, missing).store;
    TouchFound(t, n, b, d, missing, s.nextItem, a);
  }

  /** A touch of a number whose item holds `a` raises it to `a + b`. */
  lemma TouchFound(s: Store, n: int, b: nat, d: string, missing: Error, pk: nat, a: nat)
    requires Valid(s) && FindBySku(s, IntToString(n)) == Some(pk) && s.items[pk].quantity == a
    ensures var u := TouchBook(Intended, s, n, b, d, missing);
            u.result.Success? && OnlyQuantity(s, u.store, pk, a + b)
  {
  }

  /** With the intended record the creation can never clash: the SKU
      `str(number)` was just found unused. */
  lemma IntendedNeverClashes(s: Store, n: int, q: int, json: Fetch<Option<string>>, src: Sources)
    requires Valid(s) && q >= 1 && s.warehouses.Keys != {}
    ensures TouchReceiptApi(Intended, s, Some(n), Some(q), json).result.Success?
    ensures TouchMain(Intended, s, Some(n), Some(q), src).result.Success?
  {
  }

  /** Every successful touch raises the total stock by exactly the booked
      quantity, whether it found the item or created it. */
  lemma TouchAddsToTotal(layout: Layout, s: Store, n: int, q: nat, d: string, missing: Error)
    requires Valid(s) && TouchBook(layout, s, n, q, d, missing).result.Success?
    ensures TotalStock(TouchBook(layout, s, n, q, d, missing).store) == TotalStock(s) + q
  {
    var found := FindBySku(s, IntToString(n));
    if found.Some? {
      assert TouchBook(layout, s, n, q, d, missing).store == Receive(s, found.value, q);
      ReceiptAddsToTotal(s, found.value, q);
    } else {
      CreationAddsToTotal(s, NewTouchItem(layout, n, d, FirstWarehouse(s).value), q);
    }
  }

  /** A created item holding `q` adds `q` to the total. */
  lemma CreationAddsToTotal(s: Store, i: Item, q: nat)
    requires Valid(s) && i.warehouse in s.warehouses && i.quantity == 0 && CreateAndReceive(s, i, q).result.Success?
    ensures TotalStock(CreateAndReceive(s, i, q).store) == TotalStock(s) + q
  {
    var t := CreateAndReceive(s, i, q).store;
    var v := i.(quantity := q);
    assert t.items == s.items[s.nextItem := v] && t.nextItem == s.nextItem + 1;
    StockBelowIgnoresAbove(s.items, s.nextItem, v, s.nextItem);
    assert QuantityAt(t.items, s.nextItem) == q;
  }
}
