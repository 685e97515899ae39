/** The spreadsheet import, in the API (ExcelImportAPIView) and in the
    `import_excel` view. Every data row (the header row is not part of
    `rows`) holds name, SKU, quantity and warehouse name; the warehouse is
    found or created by name, then the item is found by SKU and overwritten,
    or created. Rows are written one by one without a transaction, so a
    failing row ends the import with every earlier row kept. */
module Import {
  import opened Wrappers
  import opened Text
  import opened Models
  import opened Tables

  /** A spreadsheet cell: text, an integer, or empty. */
  datatype Cell = Text(text: string) | Number(value: int) | Blank

  /** The API skips rows with fewer than four cells; the view skips nothing. */
  datatype Mode = ApiImport | ViewImport

  /** The upload: none, a file that is not a readable workbook, or the data
      rows of the active sheet. */
  datatype Upload = NoUpload | BadWorkbook | Sheet(rows: seq<seq<Cell>>)

  /** What a text column stores from a non-empty cell: the text, or the
      decimal form of a number (`CharField` converts with `str()`). */
  function CellText(c: Cell): (r: string)
    requires !c.Blank?
    ensures c.Number? ==> ParseInt(r) == Some(c.value)
  {
    match c
    case Text(t) => t
    case Number(n) => ParseIntOfIntToString(n); IntToString(n)
  }

  /** What the quantity column receives: `int()` of the cell, None for an
      empty cell, and an error for text `int()` rejects. */
  function CellQuantity(c: Cell): (r: Result<Option<int>, Error>)
    ensures r.Failure? <==> c.Text? && ParseInt(c.text).None?
    ensures r.Failure? ==> r.error == BadValue
    ensures r.Success? && r.value.Some? && c.Text? ==> IntTrim(c.text) != [] && DecimalOf(IntTrim(c.text), r.value.value)
    ensures r.Success? ==> (r.value.None? <==> c.Blank?)
  {
    match c
    case Blank => Success(None)
    case Number(n) => Success(Some(n))
    case Text(t) => if ParseInt(t).Some? then Success(ParseInt(t)) else Failure(BadValue)
  }

  /** The item columns a row writes. */
  datatype Fields = Fields(name: string, sku: string, quantity: nat)

  /** The item columns of a row, or what writing them fails with: first a
      quantity `int()` rejects (raised while the values are prepared), then
      an empty cell (NOT NULL), then a negative quantity (the CHECK of the
      positive integer field). None of these depends on the database. */
  function RowFields(name: Cell, sku: Cell, quantity: Cell): (r: Result<Fields, Error>)
    ensures r.Success? <==> (
      && !name.Blank? && !sku.Blank? && CellQuantity(quantity).Success?
      && CellQuantity(quantity).value.Some? && CellQuantity(quantity).value.value >= 0)
    ensures r.Success? ==> (
      && r.value.name == CellText(name) && r.value.sku == CellText(sku)
      && r.value.quantity as int == CellQuantity(quantity).value.value)
    ensures r.Failure? && CellQuantity(quantity).Failure? ==> r.error == BadValue
    ensures r.Failure? && CellQuantity(quantity).Success? ==>
              r.error == (if name.Blank? || sku.Blank? || quantity.Blank? then Integrity(NotNull) else Integrity(NonNegative))
  {
    match CellQuantity(quantity)
    case Failure(e) => Failure(e)
    case Success(q) =>
      if name.Blank? || sku.Blank? || q.None? then Failure(Integrity(NotNull))
      else if q.value < 0 then Failure(Integrity(NonNegative))
      else Success(Fields(CellText(name), CellText(sku), q.value as nat))
  }

  /** A database after `get_or_create` of a warehouse, and that warehouse. */
  datatype Placed = Placed(store: Store, warehouse: nat)

  /** A warehouse inserted under a name no warehouse had is the only one of
      that name. */
  lemma InsertedIsOnlyOne(s: Store, name: string)
    requires Valid(s) && WarehousesNamed(s, name) == []
    ensures WarehousesNamed(InsertWarehouse(s, Warehouse(name, "")), name) == [s.nextWarehouse]
  {
    var t := InsertWarehouse(s, Warehouse(name, ""));
    IncreasingSingleton(WarehousesNamed(t, name), s.nextWarehouse);
  }

  /** `Warehouse.objects.get_or_create(name=cell)`: an empty cell fails on
      NOT NULL (the lookup finds nothing and the INSERT writes NULL); two or
      more warehouses of that name fail the lookup; one is taken as it is;
      none means a new warehouse with that name and an empty location. In
      every success the warehouse is then the only one of its name. */
  function GetOrCreateWarehouse(s: Store, cell: Cell): (r: Result<Placed, Error>)
    requires Valid(s)
    ensures r.Failure? <==> cell.Blank? || |WarehousesNamed(s, CellText(cell))| > 1
    ensures r.Failure? ==> r.error == (if cell.Blank? then Integrity(NotNull) else MultipleWarehouses)
    ensures r.Success? ==> Valid(r.value.store) && WarehousesNamed(r.value.store, CellText(cell)) == [r.value.warehouse]
    ensures r.Success? ==> r.value.warehouse in r.value.store.warehouses
    ensures r.Success? && WarehousesNamed(s, CellText(cell)) != [] ==> r.value.store == s
    ensures r.Success? && WarehousesNamed(s, CellText(cell)) == [] ==>
              r.value == Placed(InsertWarehouse(s, Warehouse(CellText(cell), "")), s.nextWarehouse)
  {
    if cell.Blank? then Failure(Integrity(NotNull))
    else
      var name := CellText(cell);
      var found := WarehousesNamed(s, name);
      if |found| > 1 then Failure(MultipleWarehouses)
      else if |found| == 1 then
        assert found[0] in found;
        IncreasingSingleton(found, found[0]);
        Success(Placed(s, found[0]))
      else
        InsertedIsOnlyOne(s, name);
        Success(Placed(InsertWarehouse(s, Warehouse(name, "")), s.nextWarehouse))
  }

  /** `Item.objects.get_or_create(sku=..., defaults=...)` followed, for an
      item that already existed, by overwriting name, quantity and
      warehouse. Afterwards the item with that SKU holds exactly the row's
      values (the quantity is replaced, not added to); items with other SKUs
      are untouched; a new item gets the next key. */
  function Upsert(s: Store, f: Fields, w: nat): (r: Store)
    requires Valid(s) && w in s.warehouses
    ensures Valid(r)
    ensures r.warehouses == s.warehouses && r.orders == s.orders
    ensures r.nextWarehouse == s.nextWarehouse && r.nextOrder == s.nextOrder
    ensures FindBySku(s, f.sku).Some? ==> (
      && r.items == s.items[FindBySku(s, f.sku).value := Item(f.name, f.sku, f.quantity, w)]
      && r.nextItem == s.nextItem)
    ensures FindBySku(s, f.sku).None? ==> (
      && r.items == s.items[s.nextItem := Item(f.name, f.sku, f.quantity, w)] && s.nextItem !in s.items
      && r.nextItem == s.nextItem + 1)
  {
    match FindBySku(s, f.sku)
    case Some(pk) => UpdateItem(s, pk, Item(f.name, f.sku, f.quantity, w))
    case None => InsertItem(s, Item(f.name, f.sku, f.quantity, w))
  }

  /** After an upsert exactly one item carries the SKU, with the row's
      values; every earlier item keeps its key and SKU, and those with other
      SKUs keep everything. */
  lemma UpsertResult(s: Store, f: Fields, w: nat)
    requires Valid(s) && w in s.warehouses
    ensures var r := Upsert(s, f, w);
            && FindBySku(r, f.sku).Some?
            && r.items[FindBySku(r, f.sku).value] == Item(f.name, f.sku, f.quantity, w)
            && (FindBySku(s, f.sku).Some? ==> FindBySku(r, f.sku) == FindBySku(s, f.sku))
            && (forall k | k in s.items :: k in r.items && r.items[k].sku == s.items[k].sku)
            && (forall k | k in s.items && s.items[k].sku != f.sku :: r.items[k] == s.items[k])
  {
    var r := Upsert(s, f, w);
    var pk := if FindBySku(s, f.sku).Some? then FindBySku(s, f.sku).value else s.nextItem;
    assert r.items[pk] == Item(f.name, f.sku, f.quantity, w);
    assert FindBySku(r, f.sku) == Some(pk);
  }

  datatype RowOutcome = Skipped | Imported

  /** A row of four cells: place the warehouse, then write the item. When
      the item step fails, the warehouse it created stays. */
  function WriteRow(s: Store, name: Cell, sku: Cell, quantity: Cell, warehouse: Cell): (r: Step<RowOutcome>)
    requires Valid(s)
    ensures Valid(r.store)
    ensures r.result.Success? ==> r.result.value == Imported
    ensures GetOrCreateWarehouse(s, warehouse).Failure? ==>
              r == Step(s, Failure(GetOrCreateWarehouse(s, warehouse).error))
    ensures GetOrCreateWarehouse(s, warehouse).Success? ==> (
      var p := GetOrCreateWarehouse(s, warehouse).value;
      && (RowFields(name, sku, quantity).Failure? ==>
            r == Step(p.store, Failure(RowFields(name, sku, quantity).error)))
      && (RowFields(name, sku, quantity).Success? ==>
            r == Step(Upsert(p.store, RowFields(name, sku, quantity).value, p.warehouse), Success(Imported))))
  {
    match GetOrCreateWarehouse(s, warehouse)
    case Failure(e) => Step(s, Failure(e))
    case Success(p) =>
      match RowFields(name, sku, quantity)
      case Failure(e) => Step(p.store, Failure(e))
      case Success(f) => Step(Upsert(p.store, f, p.warehouse), Success(Imported))
  }

  /** One row of the loop. A row that does not have four cells is skipped
      by the API when it is shorter, and otherwise fails to unpack into the
      four names; a row of four cells is written. */
  function ImportRow(s: Store, mode: Mode, row: seq<Cell>): (r: Step<RowOutcome>)
    requires Valid(s)
    ensures Valid(r.store)
    ensures r.result == Success(Skipped) <==> mode.ApiImport? && |row| < 4
    ensures r.result == Success(Imported) ==> |row| == 4
    ensures |row| != 4 ==> r.store == s && (r.result.Failure? ==> r.result.error == Unpack)
    ensures |row| == 4 ==> r == WriteRow(s, row[0], row[1], row[2], row[3])
  {
    if |row| != 4 then
      Step(s, if mode.ApiImport? && |row| < 4 then Success(Skipped) else Failure(Unpack))
    else WriteRow(s, row[0], row[1], row[2], row[3])
  }

  /** The number of rows with exactly four cells: the rows an import that
      succeeds has written. */
  function RowsOfFour(rows: seq<seq<Cell>>): (r: nat)
    ensures r <= |rows|
  {
    if rows == [] then 0 else (if |rows[0]| == 4 then 1 else 0) + RowsOfFour(rows[1..])
  }

  /** The loop over the data rows with its running counter `imported`. It
      stops at the first failing row, keeping what the rows before it wrote;
      otherwise the counter grows by the rows of four cells. In the view a
      successful import has had only such rows. */
  function ImportFrom(s: Store, mode: Mode, rows: seq<seq<Cell>>, imported: nat): (r: Step<nat>)
    requires Valid(s)
    ensures Valid(r.store)
    ensures r.result.Success? ==> r.result.value == imported + RowsOfFour(rows)
    decreases |rows|
  {
    if rows == [] then Step(s, Success(imported))
    else
      var first := ImportRow(s, mode, rows[0]);
      if first.result.Failure? then Step(first.store, Failure(first.result.error))
      else ImportFrom(first.store, mode, rows[1..], imported + (if first.result.value.Imported? then 1 else 0))
  }

  /** A row a successful import can have passed: never more than four
      cells, and in the view exactly four. */
  predicate RowFits(mode: Mode, row: seq<Cell>) {
    |row| <= 4 && (mode.ViewImport? ==> |row| == 4)
  }

  /** A successful import had no row longer than four cells, and in the
      view every row had exactly four. */
  lemma {:induction false} ImportedRowsFit(s: Store, mode: Mode, rows: seq<seq<Cell>>, k: nat)
    requires Valid(s) && ImportFrom(s, mode, rows, k).result.Success?
    ensures forall i | 0 <= i < |rows| :: RowFits(mode, rows[i])
    decreases |rows|
  {
    if rows != [] {
      var next, k1 := ImportFromTail(s, mode, rows, k);
      ImportedRowsFit(next, mode, rows[1..], k1);
      FitsCons(mode, rows);
    }
  }

  lemma FitsCons(mode: Mode, rows: seq<seq<Cell>>)
    requires rows != [] && RowFits(mode, rows[0])
    requires forall i | 0 <= i < |rows| - 1 :: RowFits(mode, rows[1..][i])
    ensures forall i | 0 <= i < |rows| :: RowFits(mode, rows[i])
  {
    assert forall i | 1 <= i < |rows| :: rows[i] == rows[1..][i - 1];
  }

  /** One turn of the loop, for a first row that does not fail. */
  lemma ImportFromStep(s: Store, mode: Mode, rows: seq<seq<Cell>>, k: nat)
    requires Valid(s) && rows != [] && ImportRow(s, mode, rows[0]).result.Success?
    ensures var first := ImportRow(s, mode, rows[0]);
            ImportFrom(s, mode, rows, k) == ImportFrom(first.store, mode, rows[1..], k + (if first.result.value.Imported? then 1 else 0))
  {
  }

  /** A loop that succeeds got past its first row and then succeeded on
      the rest. */
  lemma ImportFromHead(s: Store, mode: Mode, rows: seq<seq<Cell>>, k: nat)
    requires Valid(s) && rows != [] && ImportFrom(s, mode, rows, k).result.Success?
    ensures var first := ImportRow(s, mode, rows[0]);
            && first.result.Success?
            && var rest := ImportFrom(first.store, mode, rows[1..], k + (if first.result.value.Imported? then 1 else 0));
               rest == ImportFrom(s, mode, rows, k) && rest.result.Success?
  {
    assert ImportRow(s, mode, rows[0]).result.Success?;
    ImportFromStep(s, mode, rows, k);
  }

  /** A successful loop ends where the loop over the rest of the rows ends,
      started from the database and the count its first row left. */
  lemma ImportFromTail(s: Store, mode: Mode, rows: seq<seq<Cell>>, k: nat) returns (next: Store, k1: nat)
    requires Valid(s) && rows != [] && ImportFrom(s, mode, rows, k).result.Success?
    ensures Valid(next) && ImportFrom(next, mode, rows[1..], k1) == ImportFrom(s, mode, rows, k)
    ensures RowFits(mode, rows[0])
  {
    ImportFromHead(s, mode, rows, k);
    var first := ImportRow(s, mode, rows[0]);
    next := first.store;
    k1 := k + (if first.result.value.Imported? then 1 else 0);
  }

  /** The whole request: no file is a form error on the file field (the
      API's "No file provided"), an unreadable workbook an error, and a
      sheet runs the loop from a count of 0. */
  function ImportExcel(s: Store, mode: Mode, upload: Upload): (r: Step<nat>)
    requires Valid(s)
    ensures Valid(r.store)
    ensures upload.NoUpload? ==> r == Step(s, Failure(Invalid({FileField})))
    ensures upload.BadWorkbook? ==> r == Step(s, Failure(Unreadable))
    ensures upload.Sheet? && r.result.Success? ==> r.result.value == RowsOfFour(upload.rows)
  {
    match upload
    case NoUpload => Step(s, Failure(Invalid({FileField})))
    case BadWorkbook => Step(s, Failure(Unreadable))
    case Sheet(rows) => ImportFrom(s, mode, rows, 0)
  }

  /** Importing `a + b` is importing `a` and then, if that succeeded,
      importing `b` into the result with the count reached so far: nothing
      written is ever undone. */
  lemma {:induction false} ImportAppend(s: Store, mode: Mode, a: seq<seq<Cell>>, b: seq<seq<Cell>>, k: nat)
    requires Valid(s)
    ensures var r := ImportFrom(s, mode, a, k);
            ImportFrom(s, mode, a + b, k) == if r.result.Failure? then r else ImportFrom(r.store, mode, b, r.result.value)
    decreases |a|
  {
    if a == [] {
      assert a + b == b;
    } else {
      assert (a + b)[0] == a[0];
      assert (a + b)[1..] == a[1..] + b;
      var first := ImportRow(s, mode, a[0]);
      if first.result.Success? {
        ImportAppend(first.store, mode, a[1..], b, k + (if first.result.value.Imported? then 1 else 0));
      }
    }
  }

  /** In the API, rows of fewer than four cells change nothing and are not
      counted. */
  lemma {:induction false} ShortRowsSkipped(s: Store, rows: seq<seq<Cell>>, k: nat)
    requires Valid(s) && forall i | 0 <= i < |rows| :: |rows[i]| < 4
    ensures ImportFrom(s, ApiImport, rows, k) == Step(s, Success(k))
    decreases |rows|
  {
    if rows != [] {
      assert forall i | 0 <= i < |rows[1..]| :: rows[1..][i] == rows[i + 1];
      ShortRowsSkipped(s, rows[1..], k);
    }
  }

  /** The view has no such check: a short row fails to unpack, and so does
      a row of more than four cells in both handlers. */
  lemma ShortRowFailsInView(s: Store, row: seq<Cell>, long: seq<Cell>, mode: Mode)
    requires Valid(s) && |row| < 4 && |long| > 4
    ensures ImportFrom(s, ViewImport, [row], 0) == Step(s, Failure(Unpack))
    ensures ImportFrom(s, mode, [long], 0) == Step(s, Failure(Unpack))
  {
  }

  /** A failing row does not roll back the row before it: after a good row
      and a row of five cells, the database holds the good row's writes and
      the answer is the error. */
  lemma NoRollback(s: Store, mode: Mode, good: seq<Cell>, bad: seq<Cell>)
    requires Valid(s) && ImportRow(s, mode, good).result == Success(Imported) && |bad| > 4
    ensures ImportFrom(s, mode, [good, bad], 0) == Step(ImportRow(s, mode, good).store, Failure(Unpack))
  {
    assert [good, bad][1..] == [bad];
  }

  /** Within a row there is no rollback either: a row naming a new
      warehouse whose quantity `int()` rejects leaves the new warehouse
      behind and fails. */
  lemma WarehouseOutlivesBadQuantity(s: Store, mode: Mode, name: Cell, sku: Cell, text: string, warehouse: string)
    requires Valid(s) && ParseInt(text).None? && WarehousesNamed(s, warehouse) == []
    ensures var r := ImportRow(s, mode, [name, sku, Text(text), Text(warehouse)]);
            r == Step(InsertWarehouse(s, Warehouse(warehouse, "")), Failure(BadValue))
  {
    BadQuantityFails(name, sku, text);
    WarehouseOutlivesBadFields(s, mode, name, sku, Text(text), warehouse);
  }

  /** The same for any quantity cell whose fields fail to convert. */
  lemma WarehouseOutlivesBadFields(s: Store, mode: Mode, name: Cell, sku: Cell, quantity: Cell, warehouse: string)
    requires Valid(s) && RowFields(name, sku, quantity) == Failure(BadValue) && WarehousesNamed(s, warehouse) == []
    ensures ImportRow(s, mode, [name, sku, quantity, Text(warehouse)]) ==
            Step(InsertWarehouse(s, Warehouse(warehouse, "")), Failure(BadValue))
  {
    var row := [name, sku, quantity, Text(warehouse)];
    assert row[0] == name && row[1] == sku && row[2] == quantity && row[3] == Text(warehouse);
    var p := GetOrCreateWarehouse(s, Text(warehouse));
    assert p == Success(Placed(InsertWarehouse(s, Warehouse(warehouse, "")), s.nextWarehouse));
    var w := WriteRow(s, name, sku, quantity, Text(warehouse));
    assert w == Step(p.value.store, Failure(BadValue));
  }

  /** A quantity cell `int()` rejects fails the row's fields, whatever the
      name and SKU cells hold. */
  lemma BadQuantityFails(name: Cell, sku: Cell, text: string)
    requires ParseInt(text).None?
    ensures RowFields(name, sku, Text(text)) == Failure(BadValue)
  {
  }

  /** The SKUs that rows of four cells write. */
  function SkusOf(rows: seq<seq<Cell>>): (r: set<string>)
    decreases |rows|
  {
    if rows == [] then {}
    else (if |rows[0]| == 4 && !rows[0][1].Blank? then {CellText(rows[0][1])} else {}) + SkusOf(rows[1..])
  }

  /** One successful row keeps what the monotonicity of an import is about:
      a name with exactly one warehouse keeps exactly that one, an item keeps
      its key and SKU, and an item with another SKU than the row's is not
      touched. */
  lemma RowMonotone(s: Store, mode: Mode, row: seq<Cell>, name: string, pk: nat)
    requires Valid(s) && ImportRow(s, mode, row).result.Success?
    ensures var t := ImportRow(s, mode, row).store;
            && (|WarehousesNamed(s, name)| == 1 ==> WarehousesNamed(t, name) == WarehousesNamed(s, name))
            && (pk in s.items ==> pk in t.items && t.items[pk].sku == s.items[pk].sku)
            && (pk in s.items && s.items[pk].sku !in SkusOf([row]) ==> t.items[pk] == s.items[pk])
  {
    if |row| == 4 {
      var p := GetOrCreateWarehouse(s, row[3]).value;
      var f := RowFields(row[0], row[1], row[2]).value;
      assert ImportRow(s, mode, row).store == Upsert(p.store, f, p.warehouse);
      UpsertResult(p.store, f, p.warehouse);
      SkusOfOne(row);
      PlacingKeepsOthers(s, row[3], name);
    }
  }

  /** A row of four cells writes the SKU in its second cell. */
  lemma SkusOfOne(row: seq<Cell>)
    ensures SkusOf([row]) == if |row| == 4 && !row[1].Blank? then {CellText(row[1])} else {}
  {
    assert [row][1..] == [];
  }

  /** Placing a warehouse adds at most a new one: the items stay, and a name
      with exactly one warehouse keeps it. */
  lemma PlacingKeepsOthers(s: Store, cell: Cell, name: string)
    requires Valid(s) && GetOrCreateWarehouse(s, cell).Success?
    ensures var p := GetOrCreateWarehouse(s, cell).value;
            && p.store.items == s.items
            && (|WarehousesNamed(s, name)| == 1 ==> WarehousesNamed(p.store, name) == WarehousesNamed(s, name))
  {
    if |WarehousesNamed(s, name)| == 1 && WarehousesNamed(s, CellText(cell)) == [] {
      InsertKeepsOnlyWarehouse(s, Warehouse(CellText(cell), ""), name);
    }
  }

  /** A new warehouse under another name leaves a name's only warehouse its only one. */
  lemma InsertKeepsOnlyWarehouse(s: Store, w: Warehouse, name: string)
    requires Valid(s) && |WarehousesNamed(s, name)| == 1 && w.name != name
    ensures WarehousesNamed(InsertWarehouse(s, w), name) == WarehousesNamed(s, name)
  {
    var only := WarehousesNamed(s, name)[0];
    assert only in WarehousesNamed(s, name);
    IncreasingSingleton(WarehousesNamed(s, name), only);
    IncreasingSingleton(WarehousesNamed(InsertWarehouse(s, w), name), only);
  }

  /** What a successful import leaves in place for every name and item. */
  lemma {:induction false} ImportMonotone(s: Store, mode: Mode, rows: seq<seq<Cell>>, k: nat, name: string, pk: nat)
    requires Valid(s) && ImportFrom(s, mode, rows, k).result.Success?
    ensures var t := ImportFrom(s, mode, rows, k).store;
            && (|WarehousesNamed(s, name)| == 1 ==> WarehousesNamed(t, name) == WarehousesNamed(s, name))
            && (pk in s.items ==> pk in t.items && t.items[pk].sku == s.items[pk].sku)
            && (pk in s.items && s.items[pk].sku !in SkusOf(rows) ==> t.items[pk] == s.items[pk])
    decreases |rows|
  {
    if rows != [] {
      var first := ImportRow(s, mode, rows[0]);
      RowMonotone(s, mode, rows[0], name, pk);
      assert SkusOf(rows) == SkusOf([rows[0]]) + SkusOf(rows[1..]);
      ImportMonotone(first.store, mode, rows[1..], k + (if first.result.value.Imported? then 1 else 0), name, pk);
    }
  }

  /** A row of four cells is settled in `t` when its values pass the
      database's checks, its warehouse name belongs to exactly one warehouse
      and its SKU to an item, and, unless a later row writes the same SKU,
      that item holds exactly the row's values. */
  ghost predicate RowSettled(t: Store, row: seq<Cell>, later: set<string>)
    requires Valid(t)
  {
    && |row| == 4 && !row[3].Blank? && RowFields(row[0], row[1], row[2]).Success?
    && |WarehousesNamed(t, CellText(row[3]))| == 1
    && FindBySku(t, RowFields(row[0], row[1], row[2]).value.sku).Some?
    && var f := RowFields(row[0], row[1], row[2]).value;
       (f.sku !in later ==>
          t.items[FindBySku(t, f.sku).value] == Item(f.name, f.sku, f.quantity, WarehousesNamed(t, CellText(row[3]))[0]))
  }

  /** Every row of `rows` is settled in `t`: rows of four cells as above,
      other rows short ones the API skips. */
  ghost predicate Settled(t: Store, mode: Mode, rows: seq<seq<Cell>>)
    requires Valid(t)
    decreases |rows|
  {
    rows == [] ||
    (&& (if |rows[0]| == 4 then RowSettled(t, rows[0], SkusOf(rows[1..])) else mode.ApiImport? && |rows[0]| < 4)
     && Settled(t, mode, rows[1..]))
  }

  /** The row a successful import starts with is settled in the final
      database, or is a short row the API skipped. */
  lemma RowSettles(s: Store, mode: Mode, rows: seq<seq<Cell>>, k: nat)
    requires Valid(s) && rows != [] && ImportFrom(s, mode, rows, k).result.Success?
    ensures var t := ImportFrom(s, mode, rows, k).store;
            if |rows[0]| == 4 then RowSettled(t, rows[0], SkusOf(rows[1..])) else mode.ApiImport? && |rows[0]| < 4
  {
    ImportFromHead(s, mode, rows, k);
    if |rows[0]| == 4 {
      FourCellsSettle(s, mode, rows, k);
    }
  }

  lemma FourCellsSettle(s: Store, mode: Mode, rows: seq<seq<Cell>>, k: nat)
    requires Valid(s) && rows != [] && |rows[0]| == 4 && ImportFrom(s, mode, rows, k).result.Success?
    ensures RowSettled(ImportFrom(s, mode, rows, k).store, rows[0], SkusOf(rows[1..]))
  {
    ImportFromHead(s, mode, rows, k);
    RowWritten(s, mode, rows[0]);
    RowStaysSettled(ImportRow(s, mode, rows[0]).store, mode, rows[1..], k + 1, rows[0]);
  }

  /** A row of four cells that was just written is settled. */
  lemma RowWritten(s: Store, mode: Mode, row: seq<Cell>)
    requires Valid(s) && |row| == 4 && ImportRow(s, mode, row).result.Success?
    ensures RowSettled(ImportRow(s, mode, row).store, row, {})
  {
    var p := GetOrCreateWarehouse(s, row[3]).value;
    var f := RowFields(row[0], row[1], row[2]).value;
    assert ImportRow(s, mode, row).store == Upsert(p.store, f, p.warehouse);
    UpsertResult(p.store, f, p.warehouse);
  }

  /** A settled row stays settled through the rows after it, up to the
      SKUs they write. */
  lemma RowStaysSettled(s: Store, mode: Mode, rest: seq<seq<Cell>>, k: nat, row: seq<Cell>)
    requires Valid(s) && RowSettled(s, row, {}) && ImportFrom(s, mode, rest, k).result.Success?
    ensures RowSettled(ImportFrom(s, mode, rest, k).store, row, SkusOf(rest))
  {
    var f := RowFields(row[0], row[1], row[2]).value;
    var wname := CellText(row[3]);
    var pk := FindBySku(s, f.sku).value;
    var t := ImportFrom(s, mode, rest, k).store;
    ImportMonotone(s, mode, rest, k, wname, pk);
    assert FindBySku(t, f.sku) == Some(pk);
  }

  /** A successful import leaves its rows settled. */
  lemma {:induction false} ImportSettles(s: Store, mode: Mode, rows: seq<seq<Cell>>, k: nat)
    requires Valid(s) && ImportFrom(s, mode, rows, k).result.Success?
    ensures Settled(ImportFrom(s, mode, rows, k).store, mode, rows)
    decreases |rows|
  {
    if rows != [] {
      var next, k1 := ImportFromTail(s, mode, rows, k);
      ImportSettles(next, mode, rows[1..], k1);
      RowSettles(s, mode, rows, k);
      SettledCons(ImportFrom(s, mode, rows, k).store, mode, rows);
    }
  }

  lemma SettledCons(t: Store, mode: Mode, rows: seq<seq<Cell>>)
    requires Valid(t) && rows != [] && Settled(t, mode, rows[1..])
    requires if |rows[0]| == 4 then RowSettled(t, rows[0], SkusOf(rows[1..])) else mode.ApiImport? && |rows[0]| < 4
    ensures Settled(t, mode, rows)
  {
  }

  /** `u` differs from `t` at most in the items whose SKU is in `skus`, and
      there only in fields other than the key and the SKU. */
  ghost predicate Agree(u: Store, t: Store, skus: set<string>) {
    && u.warehouses == t.warehouses && u.orders == t.orders
    && u.nextWarehouse == t.nextWarehouse && u.nextItem == t.nextItem && u.nextOrder == t.nextOrder
    && u.items.Keys == t.items.Keys
    && (forall k | k in t.items :: u.items[k].sku == t.items[k].sku)
    && (forall k | k in t.items && t.items[k].sku !in skus :: u.items[k] == t.items[k])
  }

  /** Rerunning a settled row on an agreeing database finds its warehouse
      and its item, overwrites the item, and agrees on one SKU more. */
  lemma RowRerun(u: Store, t: Store, mode: Mode, row: seq<Cell>, later: set<string>)
    requires Valid(u) && Valid(t) && |row| == 4 && RowSettled(t, row, later)
    requires Agree(u, t, {RowFields(row[0], row[1], row[2]).value.sku} + later)
    ensures ImportRow(u, mode, row).result == Success(Imported)
    ensures Agree(ImportRow(u, mode, row).store, t, later)
  {
    var f := RowFields(row[0], row[1], row[2]).value;
    var wname := CellText(row[3]);
    var w := WarehousesNamed(t, wname)[0];
    assert w in WarehousesNamed(t, wname);
    IncreasingSingleton(WarehousesNamed(u, wname), w);
    var pk := FindBySku(t, f.sku).value;
    assert FindBySku(u, f.sku) == Some(pk);
    var u1 := ImportRow(u, mode, row).store;
    assert u1 == Upsert(u, f, w);
    var item := Item(f.name, f.sku, f.quantity, w);
    assert u1 == u.(items := u.items[pk := item]);
    AgreeOverwrite(u, t, pk, item, later);
  }

  /** Writing the settled item into an agreeing database agrees on its SKU. */
  lemma AgreeOverwrite(u: Store, t: Store, pk: nat, item: Item, later: set<string>)
    requires SkusUnique(t.items) && Agree(u, t, {item.sku} + later) && pk in t.items && t.items[pk].sku == item.sku
    requires item.sku !in later ==> t.items[pk] == item
    ensures Agree(u.(items := u.items[pk := item]), t, later)
  {
  }

  /** Rerunning the rows on a database that agrees with the settled one
      outside their SKUs ends in exactly the settled database. */
  lemma {:induction false} SettledRerun(u: Store, t: Store, mode: Mode, rows: seq<seq<Cell>>, k: nat)
    requires Valid(u) && Valid(t) && Settled(t, mode, rows) && Agree(u, t, SkusOf(rows))
    ensures ImportFrom(u, mode, rows, k) == Step(t, Success(k + RowsOfFour(rows)))
    decreases |rows|, 1
  {
    if rows == [] {
      AgreeOnNothing(u, t);
    } else {
      SettledRerunStep(u, t, mode, rows, k);
    }
  }

  /** The step of `SettledRerun`: the first row reruns, then the rest. */
  lemma {:induction false} SettledRerunStep(u: Store, t: Store, mode: Mode, rows: seq<seq<Cell>>, k: nat)
    requires Valid(u) && Valid(t) && rows != [] && Settled(t, mode, rows) && Agree(u, t, SkusOf(rows))
    ensures ImportFrom(u, mode, rows, k) == Step(t, Success(k + RowsOfFour(rows)))
    decreases |rows|, 0
  {
    var next, k1 := SettledHead(u, t, mode, rows, k);
    SettledRerun(next, t, mode, rows[1..], k1);
  }

  /** Agreeing outside no SKU at all is being the same database. */
  lemma AgreeOnNothing(u: Store, t: Store)
    requires Agree(u, t, {})
    ensures u == t
  {
    assert u.items == t.items;
  }

  /** The first row of a settled list reruns without failing, and what
      follows is settled and agrees outside the remaining SKUs. */
  lemma SettledHead(u: Store, t: Store, mode: Mode, rows: seq<seq<Cell>>, k: nat) returns (next: Store, k1: nat)
    requires Valid(u) && Valid(t) && rows != [] && Settled(t, mode, rows) && Agree(u, t, SkusOf(rows))
    ensures Valid(next) && Settled(t, mode, rows[1..]) && Agree(next, t, SkusOf(rows[1..]))
    ensures ImportFrom(u, mode, rows, k) == ImportFrom(next, mode, rows[1..], k1)
    ensures k1 + RowsOfFour(rows[1..]) == k + RowsOfFour(rows)
  {
    next := ImportRow(u, mode, rows[0]).store;
    k1 := k + (if |rows[0]| == 4 then 1 else 0);
    RowRerunHead(u, t, mode, rows);
    ImportFromStep(u, mode, rows, k);
  }

  lemma RowRerunHead(u: Store, t: Store, mode: Mode, rows: seq<seq<Cell>>)
    requires Valid(u) && Valid(t) && rows != [] && Settled(t, mode, rows) && Agree(u, t, SkusOf(rows))
    ensures var first := ImportRow(u, mode, rows[0]);
            && first.result == Success(if |rows[0]| == 4 then Imported else Skipped)
            && Settled(t, mode, rows[1..]) && Agree(first.store, t, SkusOf(rows[1..]))
  {
    if |rows[0]| == 4 {
      var f := RowFields(rows[0][0], rows[0][1], rows[0][2]).value;
      assert SkusOf(rows) == {f.sku} + SkusOf(rows[1..]);
      RowRerun(u, t, mode, rows[0], SkusOf(rows[1..]));
    } else {
      assert SkusOf(rows) == SkusOf(rows[1..]);
    }
  }

  /** Importing the same rows a second time changes nothing and reports the
      same count: the import is idempotent. */
  lemma ImportTwice(s: Store, mode: Mode, rows: seq<seq<Cell>>)
    requires Valid(s) && ImportFrom(s, mode, rows, 0).result.Success?
    ensures var r := ImportFrom(s, mode, rows, 0);
            ImportFrom(r.store, mode, rows, 0) == r
  {
    var t := ImportFrom(s, mode, rows, 0).store;
    ImportSettles(s, mode, rows, 0);
    SettledRerun(t, t, mode, rows, 0);
  }
}
