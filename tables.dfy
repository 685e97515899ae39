/** The three database tables as maps from auto-increment primary keys to
    records, the constraints the database enforces on them, the lookups the
    views perform (`.first()`, `filter(...).first()`, `get_or_create`), and
    the cascade rules of the foreign keys. */
module Tables {
  import opened Wrappers
  import opened Models

  /** The database: one map per table and, per table, the next primary key
      the auto-increment counter hands out (keys are never reused). */
  datatype Store = Store(
    warehouses: map<nat, Warehouse>,
    items: map<nat, Item>,
    orders: map<nat, Order>,
    nextWarehouse: nat,
    nextItem: nat,
    nextOrder: nat)

  /** The form fields a validation error can be reported on. */
  datatype Field =
    | ItemField | QuantityField | ItemNameField | NewQuantityField
    | NameField | SkuField | WarehouseField | OrderNumberField | FileField

  /** The database constraints a write can violate. */
  datatype Constraint = NotNull | UniqueSku | UniqueOrderNumber | NonNegative

  /** What a handler can fail with: a form or serializer rejecting its input,
      an unknown primary key (404), the API's "no warehouse" answer, a
      database constraint violation, `get_or_create` finding several
      warehouses of one name, a spreadsheet row that does not unpack into
      four values, a cell that `int()` cannot convert, or an uploaded file
      that is not a readable workbook. */
  datatype Error =
    | Invalid(fields: set<Field>)
    | NotFound
    | NoWarehouse
    | Integrity(violated: Constraint)
    | MultipleWarehouses
    | Unpack
    | BadValue
    | Unreadable

  /** A handler's effect: the database afterwards and the response. */
  datatype Step<T> = Step(store: Store, result: Result<T, Error>)

  ghost predicate SkusUnique(items: map<nat, Item>) {
    forall a, b | a in items && b in items && a != b :: items[a].sku != items[b].sku
  }

  ghost predicate OrderNumbersUnique(orders: map<nat, Order>) {
    forall a, b | a in orders && b in orders && a != b :: orders[a].orderNumber != orders[b].orderNumber
  }

  /** What the database guarantees about its tables: keys lie below their
      counters, every foreign key points at an existing row (NOT NULL plus
      referential integrity), and `sku` and `order_number` are UNIQUE.
      Non-negative quantities are part of the record types. */
  ghost predicate Valid(s: Store) {
    && (forall k | k in s.warehouses :: k < s.nextWarehouse)
    && (forall k | k in s.items :: k < s.nextItem)
    && (forall k | k in s.orders :: k < s.nextOrder)
    && (forall k | k in s.items :: s.items[k].warehouse in s.warehouses)
    && (forall k | k in s.orders :: s.orders[k].item in s.items)
    && SkusUnique(s.items)
    && OrderNumbersUnique(s.orders)
  }

  /** An empty database; Django's auto-increment keys start at 1. */
  function Empty(): (s: Store)
    ensures Valid(s)
  {
    Store(map[], map[], map[], 1, 1, 1)
  }

  predicate Increasing(r: seq<nat>) {
    forall i, j | 0 <= i < j < |r| :: r[i] < r[j]
  }

  /** The keys in [lo, hi) whose rows satisfy `p`, in ascending key order:
      the rows a query with that filter returns, in primary-key order. */
  function KeysWhere<V>(m: map<nat, V>, p: V -> bool, lo: nat, hi: nat): (r: seq<nat>)
    ensures forall k :: k in r <==> lo <= k < hi && k in m && p(m[k])
    ensures forall i | 0 <= i < |r| :: lo <= r[i]
    ensures Increasing(r)
    decreases hi - lo
  {
    if lo >= hi then []
    else if lo in m && p(m[lo]) then [lo] + KeysWhere(m, p, lo + 1, hi)
    else KeysWhere(m, p, lo + 1, hi)
  }

  function Elements(r: seq<nat>): set<nat> {
    set x | x in r
  }

  /** An ascending sequence has as many elements as distinct values. */
  lemma {:induction false} IncreasingCard(r: seq<nat>)
    requires Increasing(r)
    ensures |Elements(r)| == |r|
  {
    if r != [] {
      var rest := r[1..];
      assert Increasing(rest);
      IncreasingCard(rest);
      assert forall j | 0 <= j < |rest| :: r[0] < rest[j];
      assert r[0] !in Elements(rest);
      assert Elements(r) == {r[0]} + Elements(rest);
    }
  }

  /** An ascending sequence whose only element is `w` is `[w]`. */
  lemma IncreasingSingleton(r: seq<nat>, w: nat)
    requires Increasing(r)
    requires forall k :: k in r <==> k == w
    ensures r == [w]
  {
    IncreasingCard(r);
    assert Elements(r) == {w};
    assert r[0] in r;
  }

  /** `Warehouse.objects.first()`: the warehouse with the smallest key, or
      None when the table is empty. */
  function FirstWarehouse(s: Store): (r: Option<nat>)
    requires Valid(s)
    ensures r.None? <==> s.warehouses.Keys == {}
    ensures r.Some? ==> r.value in s.warehouses && forall k | k in s.warehouses :: r.value <= k
  {
    var ks := KeysWhere(s.warehouses, (w: Warehouse) => true, 0, s.nextWarehouse);
    if ks == [] then
      assert forall k | k in s.warehouses :: k in ks;
      None
    else
      assert ks[0] in ks;
      Some(ks[0])
  }

  /** `Item.objects.filter(sku=sku).first()`: the item with that SKU, or None. */
  function FindBySku(s: Store, sku: string): (r: Option<nat>)
    requires Valid(s)
    ensures r.Some? ==> r.value in s.items && s.items[r.value].sku == sku
    ensures r.Some? ==> forall k | k in s.items && s.items[k].sku == sku :: k == r.value
    ensures r.None? <==> forall k | k in s.items :: s.items[k].sku != sku
  {
    var ks := KeysWhere(s.items, (i: Item) => i.sku == sku, 0, s.nextItem);
    if ks == [] then None else Some(ks[0])
  }

  /** The warehouses called `name`, in key order: what `get(name=name)`
      inside `get_or_create` finds. */
  function WarehousesNamed(s: Store, name: string): (r: seq<nat>)
    requires Valid(s)
    ensures forall k :: k in r <==> k in s.warehouses && s.warehouses[k].name == name
    ensures Increasing(r)
  {
    KeysWhere(s.warehouses, (w: Warehouse) => w.name == name, 0, s.nextWarehouse)
  }

  /** A new row in the warehouse table, under the next auto-increment key. */
  function InsertWarehouse(s: Store, w: Warehouse): (r: Store)
    requires Valid(s)
    ensures Valid(r)
    ensures r.warehouses == s.warehouses[s.nextWarehouse := w] && s.nextWarehouse !in s.warehouses
    ensures r.items == s.items && r.orders == s.orders && r.nextItem == s.nextItem && r.nextOrder == s.nextOrder
  {
    s.(warehouses := s.warehouses[s.nextWarehouse := w], nextWarehouse := s.nextWarehouse + 1)
  }

  /** A new row in the item table, under the next auto-increment key. The
      INSERT succeeds only for an existing warehouse and an unused SKU. */
  function InsertItem(s: Store, i: Item): (r: Store)
    requires Valid(s)
    requires i.warehouse in s.warehouses
    requires forall k | k in s.items :: s.items[k].sku != i.sku
    ensures Valid(r)
    ensures r.items == s.items[s.nextItem := i] && s.nextItem !in s.items
    ensures r.warehouses == s.warehouses && r.orders == s.orders
    ensures r.nextWarehouse == s.nextWarehouse && r.nextOrder == s.nextOrder
  {
    s.(items := s.items[s.nextItem := i], nextItem := s.nextItem + 1)
  }

  /** An UPDATE of an existing item row that keeps its SKU. */
  function UpdateItem(s: Store, pk: nat, i: Item): (r: Store)
    requires Valid(s) && pk in s.items
    requires i.sku == s.items[pk].sku && i.warehouse in s.warehouses
    ensures Valid(r)
    ensures r.items == s.items[pk := i] && r.items.Keys == s.items.Keys
    ensures r.warehouses == s.warehouses && r.orders == s.orders
    ensures r.nextWarehouse == s.nextWarehouse && r.nextItem == s.nextItem && r.nextOrder == s.nextOrder
  {
    s.(items := s.items[pk := i])
  }

  /** An UPDATE of all fields of an existing item row; the new SKU must not
      belong to another row and the warehouse must exist. */
  function ReplaceItem(s: Store, pk: nat, i: Item): (r: Store)
    requires Valid(s) && pk in s.items
    requires i.warehouse in s.warehouses
    requires forall k | k in s.items && k != pk :: s.items[k].sku != i.sku
    ensures Valid(r)
    ensures r.items.Keys == s.items.Keys && r.items[pk] == i
    ensures forall k | k in s.items && k != pk :: r.items[k] == s.items[k]
    ensures r.warehouses == s.warehouses && r.orders == s.orders
    ensures r.nextWarehouse == s.nextWarehouse && r.nextItem == s.nextItem && r.nextOrder == s.nextOrder
  {
    s.(items := s.items[pk := i])
  }

  /** A new row in the order table, under the next auto-increment key. The
      INSERT succeeds only for an existing item and an unused order number. */
  function InsertOrder(s: Store, o: Order): (r: Store)
    requires Valid(s)
    requires o.item in s.items
    requires forall k | k in s.orders :: s.orders[k].orderNumber != o.orderNumber
    ensures Valid(r)
    ensures r.orders == s.orders[s.nextOrder := o] && s.nextOrder !in s.orders
    ensures r.warehouses == s.warehouses && r.items == s.items
    ensures r.nextWarehouse == s.nextWarehouse && r.nextItem == s.nextItem
  {
    s.(orders := s.orders[s.nextOrder := o], nextOrder := s.nextOrder + 1)
  }

  /** Deleting an item (`on_delete=CASCADE` on Order.item): the orders that
      reference it go with it, every other row stays as it was. */
  function DeleteItem(s: Store, pk: nat): (r: Store)
    requires Valid(s) && pk in s.items
    ensures Valid(r)
    ensures r.items.Keys == s.items.Keys - {pk}
    ensures forall k | k in r.items :: r.items[k] == s.items[k]
    ensures forall o | o in s.orders :: o in r.orders <==> s.orders[o].item != pk
    ensures forall o | o in r.orders :: o in s.orders && r.orders[o] == s.orders[o]
    ensures r.warehouses == s.warehouses
    ensures r.nextWarehouse == s.nextWarehouse && r.nextItem == s.nextItem && r.nextOrder == s.nextOrder
  {
    s.(items := s.items - {pk},
       orders := map o | o in s.orders && s.orders[o].item != pk :: s.orders[o])
  }

  /** Deleting a warehouse (`on_delete=CASCADE` on Item.warehouse): its items
      go, and, transitively, the orders of those items. */
  function DeleteWarehouse(s: Store, w: nat): (r: Store)
    requires Valid(s) && w in s.warehouses
    ensures Valid(r)
    ensures r.warehouses.Keys == s.warehouses.Keys - {w}
    ensures r.items.Keys <= s.items.Keys && r.orders.Keys <= s.orders.Keys
    ensures forall k | k in s.items :: k in r.items <==> s.items[k].warehouse != w
    ensures forall o | o in s.orders :: o in r.orders <==> s.items[s.orders[o].item].warehouse != w
    ensures forall k | k in r.items :: r.items[k] == s.items[k]
    ensures forall o | o in r.orders :: r.orders[o] == s.orders[o]
  {
    var items := map k | k in s.items && s.items[k].warehouse != w :: s.items[k];
    var orders := map o | o in s.orders && s.orders[o].item in items :: s.orders[o];
    s.(warehouses := s.warehouses - {w}, items := items, orders := orders)
  }

  /** Total stock held in the item rows with keys below `hi`. */
  function StockBelow(items: map<nat, Item>, hi: nat): nat
  {
    if hi == 0 then 0
    else StockBelow(items, hi - 1) + QuantityAt(items, hi - 1)
  }

  function QuantityAt(items: map<nat, Item>, k: nat): nat {
    if k in items then items[k].quantity else 0
  }

  /** Total stock over all items. */
  function TotalStock(s: Store): nat {
    StockBelow(s.items, s.nextItem)
  }

  /** Changing one row changes the total below `hi` by exactly the change of
      that row's quantity, if the row lies below `hi`. */
  lemma {:induction false} StockBelowUpdate(items: map<nat, Item>, k: nat, v: Item, hi: nat)
    ensures StockBelow(items[k := v], hi) + (if k < hi then QuantityAt(items, k) else 0)
         == StockBelow(items, hi) + (if k < hi then v.quantity else 0)
  {
    if hi > 0 {
      StockBelowUpdate(items, k, v, hi - 1);
    }
  }

  /** Removing one row lowers the total below `hi` by that row's quantity. */
  lemma {:induction false} StockBelowRemove(items: map<nat, Item>, k: nat, hi: nat)
    ensures StockBelow(items - {k}, hi) + (if k < hi then QuantityAt(items, k) else 0)
         == StockBelow(items, hi)
  {
    if hi > 0 {
      StockBelowRemove(items, k, hi - 1);
    }
  }

  /** Rows at or above `hi` do not contribute to the total below `hi`. */
  lemma {:induction false} StockBelowIgnoresAbove(items: map<nat, Item>, k: nat, v: Item, hi: nat)
    requires hi <= k
    ensures StockBelow(items[k := v], hi) == StockBelow(items, hi)
  {
    if hi > 0 {
      StockBelowIgnoresAbove(items, k, v, hi - 1);
    }
  }
}
