/** The three records of the application: Warehouse, Item and Order, their
    length bounds and their display strings (`__str__`). Primary keys and
    foreign keys are natural numbers; the tables they live in are in module
    Tables. */
module Models {
  import opened Text

  /** `max_length` of the CharFields. */
  const NameMaxLength: nat := 100
  const LocationMaxLength: nat := 200
  const SkuMaxLength: nat := 50
  const OrderNumberMaxLength: nat := 50

  datatype Warehouse = Warehouse(name: string, location: string)

  /** `quantity` is a PositiveIntegerField (non-negative, default 0);
      `warehouse` is the primary key of the owning warehouse. */
  datatype Item = Item(name: string, sku: string, quantity: nat, warehouse: nat)

  /** `item` is the primary key of the ordered item; `orderDate` is the
      creation timestamp (`auto_now_add`), in seconds. */
  datatype Order = Order(orderNumber: string, item: nat, quantity: nat, orderDate: int)

  /** `Warehouse.__str__`: the name alone; the location is not shown. */
  function WarehouseLabel(w: Warehouse): (r: string)
    ensures r == w.name
  {
    w.name
  }

  /** `Item.__str__`: "name (sku)". */
  function ItemLabel(i: Item): (r: string)
    ensures |r| == |i.name| + |i.sku| + 3
    ensures r[..|i.name|] == i.name && r[|i.name|..|i.name| + 2] == " ("
    ensures r[|i.name| + 2..|r| - 1] == i.sku && r[|r| - 1] == ')'
  {
    i.name + " (" + i.sku + ")"
  }

  /** `Order.__str__`: "Order <order_number>". */
  function OrderLabel(o: Order): (r: string)
    ensures |r| == |o.orderNumber| + 6
    ensures r[..6] == "Order " && r[6..] == o.orderNumber
  {
    "Order " + o.orderNumber
  }

  /** Warehouses with the same name print the same, wherever they are. */
  lemma WarehouseLabelIgnoresLocation(a: Warehouse, b: Warehouse)
    ensures WarehouseLabel(a) == WarehouseLabel(b) <==> a.name == b.name
  {
  }

  /** The display strings of the records that the sample data creates. */
  lemma SampleLabels()
    ensures WarehouseLabel(Warehouse("Lager Nord", "Hamburg")) == "Lager Nord"
    ensures ItemLabel(Item("Gabelstapler", "STAPLER001", 5, 1)) == "Gabelstapler (STAPLER001)"
    ensures OrderLabel(Order("ORD1001", 1, 2, 0)) == "Order ORD1001"
  {
  }

  /** Order labels identify the order number, which is unique, so they
      identify the order. */
  lemma OrderLabelInjective(a: Order, b: Order)
    ensures OrderLabel(a) == OrderLabel(b) <==> a.orderNumber == b.orderNumber
  {
    if OrderLabel(a) == OrderLabel(b) {
      assert a.orderNumber == OrderLabel(a)[6..];
      assert b.orderNumber == OrderLabel(b)[6..];
    }
  }

  /** Two items with the same name are told apart by their label exactly
      when their SKUs differ; SKUs are unique, so same-named items in a
      choice list never share a label. */
  lemma ItemLabelSameName(a: Item, b: Item)
    requires a.name == b.name
    ensures ItemLabel(a) == ItemLabel(b) <==> a.sku == b.sku
  {
    if ItemLabel(a) == ItemLabel(b) {
      var k := |a.name| + 2;
      assert a.sku == ItemLabel(a)[k..|ItemLabel(a)| - 1];
      assert b.sku == ItemLabel(b)[k..|ItemLabel(b)| - 1];
    }
  }

  /** Labels alone do not identify items: the name may itself contain " (". */
  lemma ItemLabelAmbiguous()
    ensures ItemLabel(Item("a (b", "c", 0, 0)) == ItemLabel(Item("a", "b (c", 0, 0))
  {
  }

  /** The length bounds a form or serializer checks before writing. */
  predicate WarehouseFits(w: Warehouse) {
    |w.name| <= NameMaxLength && |w.location| <= LocationMaxLength
  }

  predicate ItemFits(i: Item) {
    |i.name| <= NameMaxLength && |i.sku| <= SkuMaxLength
  }

  predicate OrderFits(o: Order) {
    |o.orderNumber| <= OrderNumberMaxLength
  }
}
