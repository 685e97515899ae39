/** The item pages: the list ordered by name, the edit form and the delete
    confirmation, and the API's delete of an item. */
module ItemViews {
  import opened Wrappers
  import opened Text
  import opened Models
  import opened Tables
  import opened Forms
  import opened Stock

  /** `ks` names items of `items` in ascending order of their names. */
  predicate ByName(items: map<nat, Item>, ks: seq<nat>) {
    && (forall i | 0 <= i < |ks| :: ks[i] in items)
    && (forall i, j | 0 <= i < j < |ks| :: LessEq(items[ks[i]].name, items[ks[j]].name))
  }

  /** Item `k` placed in front of the first item whose name it does not
      follow. */
  function InsertByName(items: map<nat, Item>, k: nat, ks: seq<nat>): (r: seq<nat>)
    requires k in items && ByName(items, ks)
    ensures multiset(r) == multiset(ks) + multiset{k}
    ensures ByName(items, r)
    decreases |ks|
  {
    if ks == [] then [k]
    else if LessEq(items[k].name, items[ks[0]].name) then
      InsertFrontSorted(items, k, ks);
      [k] + ks
    else
      var rest := InsertByName(items, k, ks[1..]);
      InsertAfterSorted(items, k, ks, rest);
      [ks[0]] + rest
  }

  lemma InsertFrontSorted(items: map<nat, Item>, k: nat, ks: seq<nat>)
    requires k in items && ByName(items, ks) && ks != [] && LessEq(items[k].name, items[ks[0]].name)
    ensures ByName(items, [k] + ks)
  {
    var r := [k] + ks;
    forall i, j | 0 <= i < j < |r| ensures LessEq(items[r[i]].name, items[r[j]].name) {
      if i == 0 && j > 1 {
        LessEqTransitive(items[k].name, items[ks[0]].name, items[ks[j - 1]].name);
      }
    }
  }

  lemma InsertAfterSorted(items: map<nat, Item>, k: nat, ks: seq<nat>, rest: seq<nat>)
    requires k in items && ByName(items, ks) && ks != [] && !LessEq(items[k].name, items[ks[0]].name)
    requires multiset(rest) == multiset(ks[1..]) + multiset{k} && ByName(items, rest)
    ensures ByName(items, [ks[0]] + rest)
    ensures multiset([ks[0]] + rest) == multiset(ks) + multiset{k}
  {
    assert ks == [ks[0]] + ks[1..];
    var r := [ks[0]] + rest;
    LessEqTotal(items[k].name, items[ks[0]].name);
    forall j | 1 <= j < |r| ensures LessEq(items[ks[0]].name, items[r[j]].name) {
      assert r[j] in multiset(rest);
      if r[j] != k {
        assert r[j] in multiset(ks[1..]);
        var m :| 0 <= m < |ks[1..]| && ks[1..][m] == r[j];
        assert ks[m + 1] == r[j];
      }
    }
  }

  /** Insertion sort of item keys by name; equal names keep the order of `ks`. */
  function SortByName(items: map<nat, Item>, ks: seq<nat>): (r: seq<nat>)
    requires forall i | 0 <= i < |ks| :: ks[i] in items
    ensures multiset(r) == multiset(ks)
    ensures ByName(items, r)
    decreases |ks|
  {
    if ks == [] then []
    else
      var rest := SortByName(items, ks[1..]);
      assert multiset(ks) == multiset{ks[0]} + multiset(ks[1..]) by { assert ks == [ks[0]] + ks[1..]; }
      InsertByName(items, ks[0], rest)
  }

  /** `item_list`: every item exactly once, ordered by name. Among equal
      names the keys stay ascending. */
  function ItemList(s: Store): (r: seq<nat>)
    requires Valid(s)
    ensures forall k :: k in r <==> k in s.items
    ensures |r| == |s.items|
    ensures ByName(s.items, r)
  {
    var keys := KeysWhere(s.items, (i: Item) => true, 0, s.nextItem);
    var r := SortByName(s.items, keys);
    SortedAllKeys(s, keys, r);
    r
  }

  /** Any reordering of the ascending key list holds every item once. */
  lemma SortedAllKeys(s: Store, keys: seq<nat>, r: seq<nat>)
    requires Valid(s) && keys == KeysWhere(s.items, (i: Item) => true, 0, s.nextItem)
    requires multiset(r) == multiset(keys)
    ensures |r| == |s.items| && forall k :: k in r <==> k in s.items
  {
    IncreasingCard(keys);
    assert Elements(keys) == s.items.Keys;
    assert forall k :: k in r <==> k in multiset(keys);
    assert |r| == |multiset(r)|;
  }

  /** `t` is `s` with item `pk` replaced by `i` and nothing else changed. */
  ghost predicate OnlyItem(s: Store, t: Store, pk: nat, i: Item) {
    && pk in s.items && t.items.Keys == s.items.Keys && t.items[pk] == i
    && (forall k | k in s.items && k != pk :: t.items[k] == s.items[k])
    && t.warehouses == s.warehouses && t.orders == s.orders
    && t.nextWarehouse == s.nextWarehouse && t.nextItem == s.nextItem && t.nextOrder == s.nextOrder
  }

  /** A request to `item_edit`: a GET of the form or a POST of ItemForm. */
  datatype EditRequest = ShowForm | Submit(form: ItemFormInput)

  /** What `item_edit` answers: the redirect to the list after saving, or
      the form page with its field errors. */
  datatype EditPage = Saved | EditForm(errors: set<Field>)

  /** `item_edit`: an unknown key is not found; a GET shows the form; a
      valid POST replaces name, SKU, quantity and warehouse of that one
      item; an invalid one shows the errors and writes nothing. */
  function ItemEdit(s: Store, pk: int, req: EditRequest): (r: Step<EditPage>)
    requires Valid(s)
    ensures Valid(r.store)
    ensures !(pk >= 0 && pk as nat in s.items) ==> r == Step(s, Failure(NotFound))
    ensures r.result != Success(Saved) ==> r.store == s
    ensures pk >= 0 && pk as nat in s.items && req.ShowForm? ==> r.result == Success(EditForm({}))
    ensures pk >= 0 && pk as nat in s.items && req.Submit? ==> (
      var c := CleanItemForm(s, pk as nat, req.form);
      && (c.Success? ==> r.result == Success(Saved) && OnlyItem(s, r.store, pk as nat, c.value))
      && (c.Failure? ==> r.result == Success(EditForm(c.error.fields))))
  {
    if pk < 0 || pk as nat !in s.items then Step(s, Failure(NotFound))
    else
      match req
      case ShowForm => Step(s, Success(EditForm({})))
      case Submit(form) =>
        match CleanItemForm(s, pk as nat, form)
        case Failure(e) => Step(s, Success(EditForm(e.fields)))
        case Success(i) => Step(ReplaceItem(s, pk as nat, i), Success(Saved))
  }

  /** The form as the edit page fills it in for item `i`. */
  function CurrentValues(i: Item): ItemFormInput {
    ItemFormInput(i.name, i.sku, Some(i.quantity), Some(i.warehouse))
  }

  /** Saving the form unchanged writes nothing: an item whose name and SKU
      have no surrounding whitespace, no NUL character and fit their lengths
      is saved as it is. */
  lemma EditUnchangedKeepsItem(s: Store, pk: nat)
    requires Valid(s) && pk in s.items
    requires var i := s.items[pk]; NoSpaceAtEnds(i.name) && NoSpaceAtEnds(i.sku) && ItemFits(i)
    requires var i := s.items[pk]; '\U{0000}' !in i.name && '\U{0000}' !in i.sku
    ensures ItemEdit(s, pk, Submit(CurrentValues(s.items[pk]))) == Step(s, Success(Saved))
  {
    var i := s.items[pk];
    assert !SkuTaken(s, pk, i.sku);
    assert CleanItemForm(s, pk, CurrentValues(i)) == Success(i);
    ReplaceWithSame(s, pk);
  }

  /** After a successful edit the stock lookup shows the submitted values. */
  lemma EditThenLookup(s: Store, pk: nat, form: ItemFormInput)
    requires Valid(s) && pk in s.items && CleanItemForm(s, pk, form).Success?
    ensures var t := ItemEdit(s, pk, Submit(form)).store;
            ItemStock(t, pk) == Success(StockInfo(Strip(form.name), Strip(form.sku), form.quantity.value as nat))
  {
  }

  /** Submitting the same valid form twice is the same as submitting it once. */
  lemma EditIdempotent(s: Store, pk: nat, form: ItemFormInput)
    requires Valid(s) && pk in s.items && CleanItemForm(s, pk, form).Success?
    ensures var t := ItemEdit(s, pk, Submit(form));
            ItemEdit(t.store, pk, Submit(form)) == t
  {
    var i := CleanItemForm(s, pk, form).value;
    var t := ReplaceItem(s, pk, i);
    assert ItemEdit(s, pk, Submit(form)) == Step(t, Success(Saved));
    SameFormChecks(s, t, pk, form);
    ReplaceWithSame(t, pk);
  }

  /** Writing back the record an item already has leaves the store as it is. */
  lemma ReplaceWithSame(s: Store, pk: nat)
    requires Valid(s) && pk in s.items
    ensures ReplaceItem(s, pk, s.items[pk]) == s
  {
    assert s.items[pk := s.items[pk]] == s.items;
  }

  /** The edit form reads the store only through the SKUs of the other
      items and the set of warehouses. */
  lemma SameFormChecks(s: Store, t: Store, pk: nat, form: ItemFormInput)
    requires t.warehouses == s.warehouses && pk in s.items && pk in t.items
    requires t.items.Keys == s.items.Keys
    requires forall k | k in s.items && k != pk :: t.items[k] == s.items[k]
    ensures CleanItemForm(t, pk, form) == CleanItemForm(s, pk, form)
  {
    var sku := Strip(form.sku);
    SameSkuTaken(s, t, pk, sku);
    assert WarehouseChoice(t, form.warehouse) == WarehouseChoice(s, form.warehouse);
    var a, b := CleanItemForm(s, pk, form), CleanItemForm(t, pk, form);
    if a.Success? {
      assert b.Success? && b.value == a.value;
    } else {
      var errors := ItemErrors(RequiredText(Strip(form.name), NameMaxLength),
                               RequiredText(sku, SkuMaxLength) && !SkuTaken(s, pk, sku),
                               AtLeast(form.quantity, 0), WarehouseChoice(s, form.warehouse));
      assert a == Failure(Invalid(errors));
      assert b == Failure(Invalid(errors));
    }
  }

  lemma SameSkuTaken(s: Store, t: Store, pk: nat, sku: string)
    requires t.items.Keys == s.items.Keys
    requires forall k | k in s.items && k != pk :: t.items[k] == s.items[k]
    ensures SkuTaken(t, pk, sku) == SkuTaken(s, pk, sku)
  {
    if SkuTaken(s, pk, sku) {
      var k :| k in s.items && k != pk && s.items[k].sku == sku;
      assert k in t.items && t.items[k].sku == sku;
    }
    if SkuTaken(t, pk, sku) {
      var k :| k in t.items && k != pk && t.items[k].sku == sku;
      assert k in s.items && s.items[k].sku == sku;
    }
  }

  /** The orders of item `pk`. */
  function OrdersOf(s: Store, pk: nat): set<nat> {
    set o | o in s.orders && s.orders[o].item == pk
  }

  /** `t` is `s` after removing item `pk` together with exactly the orders
      that reference it. */
  ghost predicate Removed(s: Store, t: Store, pk: nat) {
    && pk in s.items
    && t.items.Keys == s.items.Keys - {pk}
    && (forall k | k in t.items :: t.items[k] == s.items[k])
    && t.orders.Keys == s.orders.Keys - OrdersOf(s, pk)
    && (forall o | o in t.orders :: o in s.orders && t.orders[o] == s.orders[o])
    && t.warehouses == s.warehouses
    && t.nextWarehouse == s.nextWarehouse && t.nextItem == s.nextItem && t.nextOrder == s.nextOrder
  }

  /** What `item_delete` answers: the redirect after deleting, or the
      confirmation page. */
  datatype DeletePage = Deleted | ConfirmDelete

  /** `item_delete`: an unknown key is not found; a GET only asks for
      confirmation; a POST deletes the item and, by the cascade, its orders. */
  function ItemDelete(s: Store, pk: int, post: bool): (r: Step<DeletePage>)
    requires Valid(s)
    ensures Valid(r.store)
    ensures !(pk >= 0 && pk as nat in s.items) ==> r == Step(s, Failure(NotFound))
    ensures pk >= 0 && pk as nat in s.items && !post ==> r == Step(s, Success(ConfirmDelete))
    ensures pk >= 0 && pk as nat in s.items && post ==> r.result == Success(Deleted) && Removed(s, r.store, pk as nat)
  {
    if pk < 0 || pk as nat !in s.items then Step(s, Failure(NotFound))
    else if !post then Step(s, Success(ConfirmDelete))
    else
      var t := DeleteItem(s, pk as nat);
      assert t.orders.Keys == s.orders.Keys - OrdersOf(s, pk as nat);
      Step(t, Success(Deleted))
  }

  /** ItemDetailAPIView.delete: not found for an unknown key, otherwise the
      item and its orders are deleted (204). */
  function ApiDeleteItem(s: Store, pk: int): (r: Step<DeletePage>)
    requires Valid(s)
    ensures Valid(r.store)
    ensures r == ItemDelete(s, pk, true)
  {
    if pk < 0 || pk as nat !in s.items then Step(s, Failure(NotFound))
    else Step(DeleteItem(s, pk as nat), Success(Deleted))
  }

  /** Deleting an item a second time finds nothing and changes nothing. */
  lemma DeleteTwiceNotFound(s: Store, pk: nat)
    requires Valid(s) && pk in s.items
    ensures var t := ItemDelete(s, pk, true).store;
            ItemDelete(t, pk, true) == Step(t, Failure(NotFound)) && ItemStock(t, pk) == Failure(NotFound)
  {
  }

  /** After a delete the dashboard shows one item fewer and as many orders
      fewer as the item had, and no order refers to the deleted item. */
  lemma DeleteCounts(s: Store, pk: nat)
    requires Valid(s) && pk in s.items
    ensures var t := ItemDelete(s, pk, true).store;
            && var before, after := Dashboard(s), Dashboard(t);
            && after.warehouses == before.warehouses
            && after.items + 1 == before.items
            && after.orders + |OrdersOf(s, pk)| == before.orders
            && forall o | o in t.orders :: t.orders[o].item != pk
  {
    var t := ItemDelete(s, pk, true).store;
    assert t.orders.Keys == s.orders.Keys - OrdersOf(s, pk);
    assert OrdersOf(s, pk) <= s.orders.Keys;
    SubsetDifferenceCard(s.orders.Keys, OrdersOf(s, pk));
    SubsetDifferenceCard(s.items.Keys, {pk});
  }

  /** Deleting an item takes its whole stock out of the total. */
  lemma DeleteLowersTotal(s: Store, pk: nat)
    requires Valid(s) && pk in s.items
    ensures TotalStock(ItemDelete(s, pk, true).store) + s.items[pk].quantity == TotalStock(s)
  {
    var t := ItemDelete(s, pk, true).store;
    assert t.items == s.items - {pk};
    StockBelowRemove(s.items, pk, s.nextItem);
  }

  lemma SubsetDifferenceCard(a: set<nat>, b: set<nat>)
    requires b <= a
    ensures |a - b| == |a| - |b|
  {
    assert a == (a - b) + b;
    assert (a - b) * b == {};
  }
}
