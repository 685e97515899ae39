/** Input validation of the forms and serializers. A submitted integer
    field is `Some(n)` when it holds an integer and `None` when it is
    missing or not an integer; text fields are the submitted text. The
    classic forms and the REST serializers for goods receipt, touch receipt
    and stock correction accept exactly the same inputs, so each pair is
    one function here. */
module Forms {
  import opened Wrappers
  import opened Text
  import opened Models
  import opened Tables

  /** ModelChoiceField / PrimaryKeyRelatedField over all items: the key of an existing item. */
  predicate ItemChoice(s: Store, item: Option<int>) {
    item.Some? && item.value >= 0 && item.value as nat in s.items
  }

  /** ModelChoiceField over all warehouses. */
  predicate WarehouseChoice(s: Store, warehouse: Option<int>) {
    warehouse.Some? && warehouse.value >= 0 && warehouse.value as nat in s.warehouses
  }

  /** IntegerField(min_value=min): an integer not below `min`. */
  predicate AtLeast(v: Option<int>, min: int) {
    v.Some? && v.value >= min
  }

  /** The field errors a failed check contributes. */
  function Flag(ok: bool, f: Field): set<Field> {
    if ok then {} else {f}
  }

  /** The field errors of ItemForm, given the outcome of each field's check. */
  function ItemErrors(nameOk: bool, skuOk: bool, quantityOk: bool, warehouseOk: bool): (r: set<Field>)
    ensures NameField in r <==> !nameOk
    ensures SkuField in r <==> !skuOk
    ensures QuantityField in r <==> !quantityOk
    ensures WarehouseField in r <==> !warehouseOk
  {
    Flag(nameOk, NameField) + Flag(skuOk, SkuField) + Flag(quantityOk, QuantityField) + Flag(warehouseOk, WarehouseField)
  }

  datatype Receipt = Receipt(item: nat, quantity: nat)
  datatype TouchRequest = TouchRequest(number: int, quantity: nat)
  datatype Correction = Correction(item: nat, newQuantity: nat)

  /** GoodsReceiptForm / GoodsReceiptSerializer: an existing item and a
      quantity of at least 1; otherwise the failing fields are reported. */
  function CleanGoodsReceipt(s: Store, item: Option<int>, quantity: Option<int>): (r: Result<Receipt, Error>)
    ensures r.Success? <==> ItemChoice(s, item) && AtLeast(quantity, 1)
    ensures r.Success? ==> (
      && r.value.item as int == item.value && r.value.quantity as int == quantity.value
      && r.value.item in s.items && r.value.quantity >= 1)
    ensures r.Failure? ==> (
      && r.error.Invalid?
      && (ItemField in r.error.fields <==> !ItemChoice(s, item))
      && (QuantityField in r.error.fields <==> !AtLeast(quantity, 1)))
  {
    if ItemChoice(s, item) && AtLeast(quantity, 1) then Success(Receipt(item.value as nat, quantity.value as nat))
    else Failure(Invalid(Flag(ItemChoice(s, item), ItemField) + Flag(AtLeast(quantity, 1), QuantityField)))
  }

  /** TouchGoodsReceiptForm / TouchGoodsReceiptSerializer: any integer as
      article number and a quantity of at least 1. */
  function CleanTouchReceipt(itemName: Option<int>, quantity: Option<int>): (r: Result<TouchRequest, Error>)
    ensures r.Success? <==> itemName.Some? && AtLeast(quantity, 1)
    ensures r.Success? ==> (
      && r.value.number == itemName.value && r.value.quantity as int == quantity.value
      && r.value.quantity >= 1)
    ensures r.Failure? ==> (
      && r.error.Invalid?
      && (ItemNameField in r.error.fields <==> itemName.None?)
      && (QuantityField in r.error.fields <==> !AtLeast(quantity, 1)))
  {
    if itemName.Some? && AtLeast(quantity, 1) then Success(TouchRequest(itemName.value, quantity.value as nat))
    else Failure(Invalid(Flag(itemName.Some?, ItemNameField) + Flag(AtLeast(quantity, 1), QuantityField)))
  }

  /** StockCorrectionForm / StockCorrectionSerializer: an existing item and
      a new quantity of at least 0. */
  function CleanStockCorrection(s: Store, item: Option<int>, newQuantity: Option<int>): (r: Result<Correction, Error>)
    ensures r.Success? <==> ItemChoice(s, item) && AtLeast(newQuantity, 0)
    ensures r.Success? ==> (
      && r.value.item as int == item.value && r.value.newQuantity as int == newQuantity.value
      && r.value.item in s.items)
    ensures r.Failure? ==> (
      && r.error.Invalid?
      && (ItemField in r.error.fields <==> !ItemChoice(s, item))
      && (NewQuantityField in r.error.fields <==> !AtLeast(newQuantity, 0)))
  {
    if ItemChoice(s, item) && AtLeast(newQuantity, 0) then Success(Correction(item.value as nat, newQuantity.value as nat))
    else Failure(Invalid(Flag(ItemChoice(s, item), ItemField) + Flag(AtLeast(newQuantity, 0), NewQuantityField)))
  }

  /** A required CharField(max_length=max), after the form strips
      surrounding whitespace: non-empty, at most `max` characters, and
      without a NUL character (every form CharField refuses one). */
  predicate RequiredText(cleaned: string, max: nat) {
    cleaned != [] && |cleaned| <= max && '\U{0000}' !in cleaned
  }

  /** The submitted ItemForm: exactly the fields name, sku, quantity and warehouse. */
  datatype ItemFormInput = ItemFormInput(name: string, sku: string, quantity: Option<int>, warehouse: Option<int>)

  /** Another row than `instance` already has this SKU (ModelForm's unique check). */
  predicate SkuTaken(s: Store, instance: nat, sku: string) {
    exists k | k in s.items :: k != instance && s.items[k].sku == sku
  }

  /** ItemForm bound to item `instance`: name and sku required and within
      their max_length, sku not used by another item, quantity at least 0,
      an existing warehouse. The cleaned record is what `save()` writes. */
  function CleanItemForm(s: Store, instance: nat, f: ItemFormInput): (r: Result<Item, Error>)
    ensures r.Success? <==> (
      && RequiredText(Strip(f.name), NameMaxLength)
      && RequiredText(Strip(f.sku), SkuMaxLength) && !SkuTaken(s, instance, Strip(f.sku))
      && AtLeast(f.quantity, 0)
      && WarehouseChoice(s, f.warehouse))
    ensures r.Success? ==> (
      && r.value.name == Strip(f.name) && r.value.sku == Strip(f.sku)
      && r.value.quantity as int == f.quantity.value && r.value.warehouse as int == f.warehouse.value)
    ensures r.Success? ==> (
      && ItemFits(r.value) && r.value.warehouse in s.warehouses
      && forall k | k in s.items && k != instance :: s.items[k].sku != r.value.sku)
    ensures r.Failure? ==> (
      && r.error.Invalid?
      && (NameField in r.error.fields <==> !RequiredText(Strip(f.name), NameMaxLength))
      && (SkuField in r.error.fields <==>
            !RequiredText(Strip(f.sku), SkuMaxLength) || SkuTaken(s, instance, Strip(f.sku)))
      && (QuantityField in r.error.fields <==> !AtLeast(f.quantity, 0))
      && (WarehouseField in r.error.fields <==> !WarehouseChoice(s, f.warehouse)))
  {
    var name := Strip(f.name);
    var sku := Strip(f.sku);
    var nameOk := RequiredText(name, NameMaxLength);
    var skuOk := RequiredText(sku, SkuMaxLength) && !SkuTaken(s, instance, sku);
    var quantityOk := AtLeast(f.quantity, 0);
    var warehouseOk := WarehouseChoice(s, f.warehouse);
    if nameOk && skuOk && quantityOk && warehouseOk then
      Success(Item(name, sku, f.quantity.value as nat, f.warehouse.value as nat))
    else
      Failure(Invalid(ItemErrors(nameOk, skuOk, quantityOk, warehouseOk)))
  }

  /** The field errors of OrderForm, given the outcome of each field's check. */
  function OrderErrors(numberOk: bool, itemOk: bool, quantityOk: bool): (r: set<Field>)
    ensures OrderNumberField in r <==> !numberOk
    ensures ItemField in r <==> !itemOk
    ensures QuantityField in r <==> !quantityOk
  {
    Flag(numberOk, OrderNumberField) + Flag(itemOk, ItemField) + Flag(quantityOk, QuantityField)
  }

  /** The submitted OrderForm: order_number, item and quantity. There is no
      order_date field; the date is set by the model on creation. */
  datatype OrderFormInput = OrderFormInput(orderNumber: string, item: Option<int>, quantity: Option<int>)

  predicate OrderNumberTaken(s: Store, number: string) {
    exists k | k in s.orders :: s.orders[k].orderNumber == number
  }

  /** OrderForm for a new order: order number required, within max_length
      and unused, an existing item, quantity at least 0; the order date is
      the creation time `now`, never a submitted value. */
  function CleanOrderForm(s: Store, f: OrderFormInput, now: int): (r: Result<Order, Error>)
    ensures r.Success? <==> (
      && RequiredText(Strip(f.orderNumber), OrderNumberMaxLength)
      && !OrderNumberTaken(s, Strip(f.orderNumber))
      && ItemChoice(s, f.item) && AtLeast(f.quantity, 0))
    ensures r.Success? ==> (
      && r.value.orderNumber == Strip(f.orderNumber) && r.value.item as int == f.item.value
      && r.value.quantity as int == f.quantity.value && r.value.orderDate == now)
    ensures r.Success? ==> (
      && OrderFits(r.value) && r.value.item in s.items
      && forall k | k in s.orders :: s.orders[k].orderNumber != r.value.orderNumber)
    ensures r.Failure? ==> (
      && r.error.Invalid?
      && (OrderNumberField in r.error.fields <==>
            !RequiredText(Strip(f.orderNumber), OrderNumberMaxLength) || OrderNumberTaken(s, Strip(f.orderNumber)))
      && (ItemField in r.error.fields <==> !ItemChoice(s, f.item))
      && (QuantityField in r.error.fields <==> !AtLeast(f.quantity, 0)))
  {
    var number := Strip(f.orderNumber);
    var numberOk := RequiredText(number, OrderNumberMaxLength) && !OrderNumberTaken(s, number);
    var itemOk := ItemChoice(s, f.item);
    var quantityOk := AtLeast(f.quantity, 0);
    if numberOk && itemOk && quantityOk then
      Success(Order(number, f.item.value as nat, f.quantity.value as nat, now))
    else
      Failure(Invalid(OrderErrors(numberOk, itemOk, quantityOk)))
  }

  /** A NUL anywhere in the name or the order number is a field error of
      that field, whatever the other fields hold. */
  lemma NulRejected(s: Store, instance: nat, f: ItemFormInput, g: OrderFormInput, now: int, i: nat, j: nat)
    requires i < |f.name| && f.name[i] == '\U{0000}'
    requires j < |g.orderNumber| && g.orderNumber[j] == '\U{0000}'
    ensures CleanItemForm(s, instance, f).Failure? && NameField in CleanItemForm(s, instance, f).error.fields
    ensures CleanOrderForm(s, g, now).Failure? && OrderNumberField in CleanOrderForm(s, g, now).error.fields
  {
    NulKept(f.name, i);
    NulKept(g.orderNumber, j);
  }

  /** Stripping never removes a NUL, since NUL is not whitespace. */
  lemma NulKept(t: string, i: nat)
    requires i < |t| && t[i] == '\U{0000}'
    ensures '\U{0000}' in Strip(t)
  {
    StripKeepsNonSpace(t, i);
  }
}
