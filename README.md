# viastore stock ledger in Dafny

viastore is a small Django warehouse application. It keeps three tables and
offers them through HTML views and a REST API:

- warehouses (name, location);
- items (name, unique SKU, non-negative quantity, owning warehouse);
- orders (unique order number, item, quantity, creation date).

This project models the part of viastore that changes stock:

- goods receipt, which adds to an item's quantity;
- stock correction, which overwrites it;
- the touch-screen receipt, which finds an item by article number or
  creates it, and gives it a description looked up from outside sources;
- the spreadsheet import, which upserts items by SKU and finds or creates
  warehouses by name;
- editing and deleting items, with the database's cascades;
- the read-only lookups and counts.

The model has two layers:

- **Specification functions over a `Store` value.** The tables are maps
  from auto-increment keys to records, with one key counter per table.
  Each handler is a function from the database and the request to the new
  database and the response: `Step(store, Success(..) | Failure(error))`.
  The properties of these functions are proved as lemmas.
- **`Ledger.Ledger`, a class holding the same tables as fields.** Its
  methods update the tables in place, as the handlers do
  (`item.quantity += q; item.save()`, `Item.objects.create`,
  `get_or_create`, `delete()`). Each method is proved to have exactly the
  effect and answer of its specification function.

Modules:

- `Text`: `strip()`, `in`, `str(n)` and `int(s)`, and code-point order.
- `Models`: the records, length bounds and display strings.
- `Tables`: the database, its constraints, lookups, inserts, updates and
  cascades.
- `Forms`: the validation of forms and serializers.
- `Stock`: receipt, correction, lookups and the dashboard.
- `Lookup`: the description chain and the Google link rule, as pure
  selection over abstract responses.
- `Touch`: the touch receipt.
- `Import`: the spreadsheet import.
- `ItemViews`: the item list, edit and delete.
- `Sample`: the sample data.
- `Ledger`: the class.

## Model

| member | source | states |
|---|---|---|
| `Text.Strip` | viastore_app/views_touch.py:72-73 | `str.strip()`, with whitespace as Python defines it (ASCII controls and the Unicode spaces included): the result is a slice of the input with no whitespace at either end; it is empty exactly when the input is all whitespace; text without surrounding whitespace is returned unchanged |
| `Text.Contains` | viastore_app/views_touch.py:83 | `sub in s`: true exactly when `sub` occurs at some offset of `s` |
| `Text.ParseInt` | viastore_app/views.py:114-116 | `int()` of text, as the primary-key lookup applies it to `?item=`: it succeeds exactly when the text, after the whitespace `int()` skips is trimmed, is an optionally signed run of ASCII digits with single underscores between digits, and the value is the integer that text denotes |
| `Text.IntTrim` | viastore_app/views.py:114-116 | the whitespace `int()` skips around a number, which is `str.isspace()` without the separators U+001C to U+001F: the result is a slice of the input, everything removed before and after it is such whitespace, none is left at its ends, and text without it at its ends is unchanged |
| `Text.IntTrimUnique` | viastore_app/views.py:114-116 | those facts determine the trim: any slice of the input that has only such whitespace around it and none at its ends is `IntTrim` of the input |
| `Text.IntTrimKeepsSeparator` | viastore_app/views.py:114-116 | the trim before `int()` keeps a separator U+001C to U+001F in front of a digit, so "\x1c5" is read whole |
| `Text.ParseIntUnderscores` | viastore_app/api_views.py:211 | `int()` reads "1_000" as 1000 and "-2_5" as -25 |
| `Text.ParseIntMisplacedUnderscores` | viastore_app/api_views.py:211 | `int()` rejects "1__0", "_1" and "1_" |
| `Text.ParseIntUnicodeSpace` | viastore_app/views.py:114-116 | a digit between two characters of the whitespace `int()` skips (Unicode spaces included) is read as that digit, and `str.strip()` of the same text is the digit |
| `Text.ParseIntSeparatorRejected` | viastore_app/views.py:114-116 | a separator U+001C to U+001F before a digit is whitespace to `str.strip()` but not to `int()`, which rejects the text |
| `Text.SeparatorExample` | viastore_app/api_views.py:211 | `int()` rejects "\x1c5" |
| `Text.StripKeepsNonSpace` | viastore_app/views_touch.py:72-73 | `str.strip()` removes whitespace only: every other character of the input is in the result |
| `Text.IntToString` | viastore_app/api_views.py:282 | `str(n)`: a decimal text of n, in canonical form: digits only, or a minus sign and digits for negative n, with no leading zero |
| `Text.ParseIntOfIntToString` | viastore_app/api_views.py:282 | `int(str(n)) == n` for every integer, so `str(n)` is read back as the article number |
| `Text.IntToStringInjective` | viastore_app/api_views.py:282 | distinct article numbers give distinct SKU strings `str(n)` |
| `Text.LessEqTotal` | viastore_app/views_item.py:8 | the name order used by `order_by('name')` is total |
| `Text.LessEqTransitive` | viastore_app/views_item.py:8 | the name order is transitive |
| `Models.WarehouseLabel` | viastore_app/models.py:8-9 | a warehouse prints as its name alone |
| `Models.ItemLabel` | viastore_app/models.py:17-18 | an item prints as its name, `" ("`, its SKU and `")"`, with no other characters |
| `Models.OrderLabel` | viastore_app/models.py:26-27 | an order prints as `"Order "` followed by its order number |
| `Models.WarehouseLabelIgnoresLocation` | viastore_app/models.py:8-9 | two warehouses print the same exactly when their names are equal, whatever their locations |
| `Models.SampleLabels` | viastore_app/models.py:8-27 | `__str__` of warehouse, item and order: `name`, `"name (sku)"`, `"Order <order_number>"` |
| `Models.OrderLabelInjective` | viastore_app/models.py:26-27 | two orders have the same label exactly when they have the same order number |
| `Models.ItemLabelSameName` | viastore_app/models.py:17-18 | two items with the same name have the same label exactly when their SKUs are equal |
| `Models.ItemLabelAmbiguous` | viastore_app/models.py:17-18 | a name containing `" ("` can make two different items print the same label |
| `Tables.Empty` | viastore_app/models.py:4-24 | the empty database meets every constraint |
| `Tables.FirstWarehouse` | viastore_app/api_views.py:298 | `Warehouse.objects.first()`: none exactly when there is no warehouse, otherwise the warehouse with the smallest key |
| `Tables.FindBySku` | viastore_app/api_views.py:282 | `filter(sku=..).first()`: the item with that SKU, which is the only one; none exactly when no item has it |
| `Tables.WarehousesNamed` | viastore_app/api_views.py:208 | exactly the warehouses with that name, in ascending key order |
| `Tables.InsertWarehouse` | viastore_app/api_views.py:208 | the INSERT of `get_or_create` uses a fresh key, keeps the constraints and changes no other table |
| `Tables.InsertItem` | viastore_app/api_views.py:304-309 | an item with an existing warehouse and an unused SKU goes in under a fresh key; the constraints hold |
| `Tables.UpdateItem` | viastore_app/api_views.py:214-218 | overwriting an item but not its SKU keeps the keys and the constraints |
| `Tables.ReplaceItem` | viastore_app/views_item.py:17 | overwriting all fields of one item, with a SKU no other item has, changes that item only |
| `Tables.InsertOrder` | viastore_app/models.py:20-24 | an order for an existing item with an unused number goes in under a fresh key |
| `Tables.DeleteItem` | viastore_app/models.py:22 | deleting an item removes exactly the orders that reference it (CASCADE) and keeps every other row |
| `Tables.DeleteWarehouse` | viastore_app/models.py:15 | deleting a warehouse removes its items and, transitively, their orders; everything else stays |
| `Forms.CleanGoodsReceipt` | viastore_app/forms.py:26-28 | valid exactly for an existing item and a quantity of at least 1 (the same rule as serializers.py:37-39); errors name exactly the failing fields |
| `Forms.CleanTouchReceipt` | viastore_app/forms.py:31-33 | valid exactly for an integer article number and a quantity of at least 1 (the same rule as serializers.py:42-44); errors name exactly the failing fields |
| `Forms.CleanStockCorrection` | viastore_app/forms.py:35-37 | valid exactly for an existing item and a new quantity of at least 0 (the same rule as serializers.py:47-49); errors name exactly the failing fields |
| `Forms.CleanItemForm` | viastore_app/forms.py:13-16 | ItemForm edits exactly name, SKU, quantity and warehouse. It is valid exactly when both stripped texts are non-empty, within max_length and free of NUL characters, no other item has the SKU, the quantity is at least 0 and the warehouse exists. Each failing field is reported |
| `Forms.CleanOrderForm` | viastore_app/forms.py:18-21 | OrderForm sets the order number, item and quantity; the date comes from the creation time, not from the form. The order number must be non-empty after stripping, within max_length, free of NUL characters and unused. Each failing field is reported |
| `Forms.NulRejected` | viastore_app/forms.py:13-21 | a NUL anywhere in the item name or the order number is an error of that field, whatever the other fields hold |
| `Stock.ItemData` | viastore_app/serializers.py:11-16 | the item's fields plus the read-only name of its warehouse |
| `Stock.OrderData` | viastore_app/serializers.py:28-34 | the order's fields plus the read-only name and SKU of its item |
| `Stock.SetQuantity` | viastore_app/api_views.py:166-167 | sets one item's quantity and changes nothing else; keeps the constraints |
| `Stock.Receive` | viastore_app/api_views.py:147-148 | raises one item's quantity by q and changes nothing else |
| `Stock.GoodsReceipt` | viastore_app/api_views.py:142-153 | succeeds exactly for an existing item and a quantity of at least 1. Only that item's quantity changes, to old + q, and the answer is the serialized item. A failure changes nothing and reports the form's errors |
| `Stock.StockCorrection` | viastore_app/api_views.py:160-174 | succeeds exactly for an existing item and a new quantity of at least 0. Only that quantity changes, to the new value. Reports the quantity read before the write and the new quantity. A failure changes nothing |
| `Stock.StockCorrectionView` | viastore_app/views.py:95-121 | a valid POST corrects the stock; an invalid POST writes nothing and shows the current quantity exactly when the item field was valid. A GET with `?item=` only reads: it shows that item's quantity, none for an unknown key, and fails on a non-blank parameter that `int()` rejects |
| `Stock.ItemStock` | viastore_app/api_views.py:108-118 | name, SKU and quantity of the item with that key, otherwise not-found |
| `Stock.ItemInfo` | viastore_app/api_views.py:237-243 | the stock record of the item with that SKU; the error payload exactly when no item has it |
| `Stock.ItemName` | viastore_app/views_touch.py:30-37 | only the name of the item with that SKU, or the error payload, in agreement with `ItemInfo` |
| `Stock.Dashboard` | viastore_app/api_views.py:27-36 | the counts are the sizes of the three tables; `ItemViews.DeleteCounts` and `Stock.MovementKeepsCounts` state how they change |
| `Stock.MovementKeepsCounts` | viastore_app/views.py:124-133 | a receipt or correction leaves the dashboard counts unchanged |
| `Stock.ReceiptAddsToTotal` | viastore_app/api_views.py:147-148 | a receipt raises the total stock by exactly the received quantity |
| `Stock.CorrectionTotal` | viastore_app/api_views.py:165-167 | a correction changes the total stock by new minus old quantity |
| `Stock.ReceiptsCompose` | viastore_app/views.py:184-185 | receiving a and then b of one item equals receiving a + b |
| `Stock.ReceiptsCommute` | viastore_app/views.py:60-61 | receipts for two different items commute |
| `Stock.CorrectionOverridesReceipt` | viastore_app/views.py:103-104 | a correction after a receipt gives the same database as the correction alone |
| `Stock.CorrectionIdempotent` | viastore_app/api_views.py:166-167 | correcting to the same value twice equals doing it once |
| `Stock.CorrectionReportsReceipt` | viastore_app/api_views.py:165 | the old quantity a correction reports includes a receipt booked just before it |
| `Stock.LookupAfterReceipt` | viastore_app/views.py:76-86 | after a receipt the stock lookup shows the raised quantity |
| `Stock.SampleReceipt` | viastore_app/sample_data.py:8 | on the sample data, receiving 3 forklifts answers with quantity 8 and warehouse "Lager Nord" |
| `Stock.SampleCorrection` | viastore_app/sample_data.py:8 | correcting them to 2 then reports 8 as old and 2 as new quantity |
| `Stock.ZeroReceiptRejected` | viastore_app/serializers.py:39 | a receipt of 0 pieces is refused with an error on the quantity only |
| `Stock.UnknownItemRejected` | viastore_app/serializers.py:38 | a receipt for an unknown key is refused with an error on the item only |
| `Sample.SampleValid` | viastore_app/sample_data.py:4-15 | the sample data meets every database constraint |
| `Sample.SampleSizes` | viastore_app/sample_data.py:4-15 | the sample data holds 2 warehouses, 3 items and 3 orders |
| `Lookup.FirstWhere` | viastore_app/views_touch.py:80-86 | a loop that breaks at the first hit: the position of the first match, none exactly when nothing matches |
| `Lookup.FirstArticleNumber` | viastore_app/views_touch.py:80-86 | the value of the first description item whose title contains "Artikelnummer"; none exactly when there is no such item |
| `Lookup.NonBlank` | viastore_app/views_touch.py:72-73 | the stripped text when it is not blank |
| `Lookup.BrowserDescription` | viastore_app/views_touch.py:88-133 | the browser step, in order: the first article number, else the non-blank product name, else (only when the name lookup raised) the non-blank link text, else what was found before |
| `Lookup.JsonName` | viastore_app/views_touch.py:63 | the product name only when the answer carries a non-empty one; `Lookup.ViewAgreesWithApi` relates it to both handlers |
| `Lookup.FallbackDescription` | viastore_app/views_touch.py:66-135 | four outcomes. A raising product-page request leaves the default. A first autodoc article number wins over everything before it. A raising autodoc request keeps the non-blank heading, else the default. Otherwise the browser step continues from the heading or the default |
| `Lookup.ViewDescription` | viastore_app/views_touch.py:57-135 | the JSON name if present; `str(n)` when that request raised or was not OK; otherwise the fallback chain starting from `str(n)` |
| `Lookup.ApiDescription` | viastore_app/api_views.py:286-295 | the JSON name if present, else `str(n)`; `Lookup.ViewAgreesWithApi` states where the view differs |
| `Lookup.NothingFoundKeepsDefault` | viastore_app/views_touch.py:57 | when no source yields anything, the description stays `str(n)` |
| `Lookup.ViewAgreesWithApi` | viastore_app/views_touch.py:61-65 | the fallbacks run only when the JSON answer was OK without a name; otherwise view and API agree |
| `Lookup.AutodocOverridesHeading` | viastore_app/views_touch.py:72-86 | an autodoc article number overrides a heading found on the product page |
| `Lookup.BrowserOnlyWithoutArticleNumber` | viastore_app/views_touch.py:88 | with an autodoc article number, the browser's outcome does not matter |
| `Lookup.HeadingSurvivesAutodocFailure` | viastore_app/views_touch.py:134-135 | a heading already found is kept when the later autodoc request raises |
| `Lookup.BlankArticleNumberGivesEmptyDescription` | viastore_app/views_touch.py:83-84 | the autodoc value is stripped but not checked, so the description can be empty |
| `Lookup.FirstAutodocLink` | viastore_app/views_touch.py:16-19 | the stripped text of the first anchor whose href contains "autodoc.de" and whose text is not blank |
| `Lookup.GoogleName` | viastore_app/views_touch.py:6-24 | the first autodoc link text; the SKU itself when there is none or the request failed; never an empty name unless the SKU is empty |
| `Lookup.BlankLinkSkipped` | viastore_app/views_touch.py:17 | an autodoc anchor with blank text is passed over for the next one |
| `Touch.NewTouchItem` | viastore_app/api_views.py:304-309 | the created record has quantity 0 in the given warehouse; as written the name is `str(n)` and the SKU is the description, and the intended record has them the other way round |
| `Touch.CreateAndReceive` | viastore_app/api_views.py:304-313 | the INSERT fails on a SKU in use and then writes nothing; otherwise exactly one new item under the next key, holding the received quantity |
| `Touch.TouchBook` | viastore_app/api_views.py:282-313 | a known `str(n)`: only that item's quantity grows by q. Unknown and no warehouse: the given error and no write. Otherwise: creation in the first warehouse |
| `Touch.TouchReceiptApi` | viastore_app/api_views.py:275-320 | an invalid request changes nothing. A valid one books with the JSON description and answers "no warehouse" itself |
| `Touch.TouchMain` | viastore_app/views_touch.py:44-143 | the same with the full fallback chain; without a warehouse the INSERT fails on NOT NULL |
| `Touch.TouchKnownItem` | viastore_app/api_views.py:311-313 | for an existing `str(n)` both handlers only raise that item's quantity, create nothing and agree |
| `Touch.TouchWithoutWarehouse` | viastore_app/api_views.py:298-302 | unknown number and no warehouse: the API answers an error, the view fails on NOT NULL, and nothing is written |
| `Touch.TouchCreatesApi` | viastore_app/api_views.py:286-313 | unknown number with a warehouse: one new item in the first warehouse, named `str(n)`, with the description as SKU and quantity q |
| `Touch.TouchCreatesView` | viastore_app/views_touch.py:136-141 | the same for the view, with the description of the fallback chain |
| `Touch.TouchDescriptionClash` | viastore_app/api_views.py:304-309 | as written, a description that is already a SKU makes the creation fail on UNIQUE, and nothing is booked |
| `Touch.RepeatTouchFails` | viastore_app/views_touch.py:136-141 | as written, in the booking step both handlers share, a second touch of the same new number fails on UNIQUE when a warehouse exists and both touches get the same description, which is not `str(n)`; neither that description nor `str(n)` was a SKU before |
| `Touch.RepeatTouchFailsApi` | viastore_app/api_views.py:282-309 | the same through the API handler |
| `Touch.IntendedFirstTouch` | viastore_app/api_views.py:304-309 | with the intended record, the first touch creates one item that is then found by `str(n)` and holds q |
| `Touch.RepeatTouchAccumulates` | viastore_app/api_views.py:311-313 | with the intended record, a second touch only raises that item to a + b |
| `Touch.TouchFound` | viastore_app/api_views.py:282 | a touch of a number whose item holds a raises it to a + b and changes nothing else |
| `Touch.IntendedNeverClashes` | viastore_app/api_views.py:304-309 | with the intended record a touch with a warehouse always succeeds |
| `Touch.TouchAddsToTotal` | viastore_app/api_views.py:312-313 | every successful touch raises the total stock by exactly q, whether it found or created the item |
| `Import.CellText` | viastore_app/api_views.py:209-211 | a text column stores the text of a text cell and `str()` of a number cell, which `int()` reads back as the same number |
| `Import.CellQuantity` | viastore_app/api_views.py:211 | `int()` of the quantity cell: fails exactly on text `int()` rejects; none exactly for an empty cell |
| `Import.RowFields` | viastore_app/api_views.py:209-218 | the item columns of a row succeed exactly for non-empty name and SKU and a quantity of at least 0; otherwise the error is bad value, then NOT NULL, then the non-negative CHECK |
| `Import.GetOrCreateWarehouse` | viastore_app/api_views.py:208 | empty cell: NOT NULL. Several warehouses of that name: an error. One: kept. None: one created. Afterwards that name has exactly one warehouse |
| `Import.Upsert` | viastore_app/api_views.py:209-218 | the item with that SKU is overwritten with the row's values (the quantity is replaced, not added to), otherwise created under the next key |
| `Import.UpsertResult` | viastore_app/api_views.py:214-218 | afterwards exactly one item has the SKU, holding the row's values; other items keep key and SKU, and items with other SKUs keep everything |
| `Import.WriteRow` | viastore_app/api_views.py:207-218 | the warehouse is placed first, then the item; a failing item step keeps a warehouse it created |
| `Import.ImportRow` | viastore_app/api_views.py:204-207 | a row of fewer than four cells is skipped by the API only; other rows not of four cells fail to unpack; rows of four are written |
| `Import.ImportFrom` | viastore_app/api_views.py:200-220 | the loop's count on success is the start count plus the number of rows of four cells |
| `Import.ImportedRowsFit` | viastore_app/views.py:21-23 | a successful import had no row over four cells, and in the view only rows of exactly four |
| `Import.ImportExcel` | viastore_app/api_views.py:191-230 | no file: an error on the file field; unreadable workbook: an error; a sheet: the loop from 0, whose count is the number of rows written |
| `Import.ImportAppend` | viastore_app/api_views.py:197-230 | importing `a + b` is importing `a` and then `b` from where it stopped; nothing written is undone |
| `Import.ShortRowsSkipped` | viastore_app/api_views.py:204-205 | in the API, rows of fewer than four cells change nothing and are not counted |
| `Import.ShortRowFailsInView` | viastore_app/views.py:23 | the view fails to unpack a short row, and both handlers fail on a row of more than four cells |
| `Import.NoRollback` | viastore_app/api_views.py:227-230 | after a good row and a failing row, the good row's writes stay and the answer is the error |
| `Import.WarehouseOutlivesBadQuantity` | viastore_app/api_views.py:208-212 | a new warehouse created for a row whose quantity is rejected stays behind |
| `Import.WarehouseOutlivesBadFields` | viastore_app/api_views.py:208-212 | the same for any quantity cell whose conversion fails |
| `Import.BadQuantityFails` | viastore_app/api_views.py:209-212 | a quantity text `int()` rejects fails the row, whatever the name and SKU cells hold |
| `Import.ImportMonotone` | viastore_app/api_views.py:208-218 | a successful import keeps every warehouse that was the only one of its name, keeps every item's key and SKU, and leaves items whose SKU no row names untouched |
| `Import.ImportSettles` | viastore_app/api_views.py:202-220 | after a successful import every row of four is settled: its warehouse name has one warehouse and the last row with each SKU is what its item holds |
| `Import.SettledRerun` | viastore_app/api_views.py:202-220 | re-running settled rows on a database with the same keys and SKUs, differing at most in the items whose SKU a row names, ends in exactly the settled database and count |
| `Import.ImportTwice` | viastore_app/api_views.py:202-220 | importing the same rows a second time changes nothing and reports the same count |
| `ItemViews.InsertByName` | viastore_app/views_item.py:8 | inserting into a name-ordered list keeps it ordered and adds exactly that key |
| `ItemViews.SortByName` | viastore_app/views_item.py:8 | the result is a permutation of the keys ordered by name |
| `ItemViews.ItemList` | viastore_app/views_item.py:7-9 | every item exactly once, ordered by name |
| `ItemViews.ItemEdit` | viastore_app/views_item.py:11-21 | unknown key: not-found and no write. GET: the form. Valid POST: replaces the four fields of that one item only. Invalid POST: the errors and no write |
| `ItemViews.EditUnchangedKeepsItem` | viastore_app/views_item.py:15-17 | saving the form with the item's current values writes nothing, for an item whose texts have no surrounding whitespace, no NUL and fit their lengths |
| `ItemViews.EditThenLookup` | viastore_app/views_item.py:17 | after a saved edit the stock lookup shows the submitted name, SKU and quantity |
| `ItemViews.EditIdempotent` | viastore_app/views_item.py:15-18 | submitting the same valid form twice equals submitting it once |
| `ItemViews.ItemDelete` | viastore_app/views_item.py:23-29 | unknown key: not-found. GET: only the confirmation. POST: the item and exactly its orders go |
| `ItemViews.ApiDeleteItem` | viastore_app/api_views.py:98-101 | the API delete has the effect of the POST of the delete view |
| `ItemViews.DeleteTwiceNotFound` | viastore_app/views_item.py:25 | a deleted item is not found again, neither by a second delete nor by the stock lookup |
| `ItemViews.DeleteCounts` | viastore_app/models.py:22 | after a delete the dashboard shows one item fewer, as many orders fewer as the item had, and no order refers to it |
| `ItemViews.DeleteLowersTotal` | viastore_app/views_item.py:27 | deleting an item takes its whole quantity out of the total stock |
| `Ledger.Ledger.constructor` | viastore_app/sample_data.py:1-15 | a ledger over a given valid database, such as the sample data |
| `Ledger.Ledger.AddQuantity` | viastore_app/api_views.py:147-148 | the in-place `quantity += q; save()` is `Receive` |
| `Ledger.Ledger.GoodsReceipt` | viastore_app/views.py:178-189 | new tables and answer are those of `Stock.GoodsReceipt` |
| `Ledger.Ledger.StockCorrection` | viastore_app/api_views.py:160-174 | new tables and answer are those of `Stock.StockCorrection` |
| `Ledger.Ledger.StockCorrectionView` | viastore_app/views.py:95-121 | new tables and answer are those of `Stock.StockCorrectionView` |
| `Ledger.Ledger.TouchBook` | viastore_app/views_touch.py:52-141 | new tables and answer are those of `Touch.TouchBook` |
| `Ledger.Ledger.InsertItem` | viastore_app/views_touch.py:139 | the in-place INSERT is `Tables.InsertItem` |
| `Ledger.Ledger.CreateAndReceive` | viastore_app/api_views.py:304-313 | the creation and booking are `Touch.CreateAndReceive` |
| `Ledger.Ledger.TouchReceiptApi` | viastore_app/api_views.py:275-320 | new tables and answer are those of `Touch.TouchReceiptApi` |
| `Ledger.Ledger.TouchMain` | viastore_app/views_touch.py:44-143 | new tables and answer are those of `Touch.TouchMain` |
| `Ledger.Ledger.PlaceWarehouse` | viastore_app/views.py:24 | the in-place `get_or_create` of a warehouse is `Import.GetOrCreateWarehouse` |
| `Ledger.Ledger.InsertWarehouse` | viastore_app/api_views.py:208 | the in-place INSERT of a new warehouse is `Tables.InsertWarehouse` |
| `Ledger.Ledger.UpsertItem` | viastore_app/views.py:25-30 | the in-place item `get_or_create` and overwrite is `Import.Upsert` |
| `Ledger.Ledger.UpdateItem` | viastore_app/views.py:26-30 | the in-place UPDATE is `Tables.UpdateItem` |
| `Ledger.Ledger.ImportRow` | viastore_app/api_views.py:204-218 | one turn of the loop is `Import.ImportRow` |
| `Ledger.Ledger.ImportExcel` | viastore_app/views.py:12-35 | the loop with its running count ends with the tables and answer of `Import.ImportExcel` |
| `Ledger.Ledger.ItemEdit` | viastore_app/views_item.py:11-21 | new tables and answer are those of `ItemViews.ItemEdit` |
| `Ledger.Ledger.ReplaceItem` | viastore_app/views_item.py:17 | `form.save()` is `Tables.ReplaceItem` |
| `Ledger.Ledger.DeleteItem` | viastore_app/models.py:22 | `item.delete()` with its cascade is `Tables.DeleteItem` |
| `Ledger.Ledger.ItemDelete` | viastore_app/views_item.py:23-29 | new tables and answer are those of `ItemViews.ItemDelete` |
| `Ledger.Ledger.ApiDeleteItem` | viastore_app/api_views.py:98-101 | new tables and answer are those of `ItemViews.ApiDeleteItem` |
| `Ledger.LoopStep` | viastore_app/api_views.py:202-220 | one turn of the import loop: a failing row ends with that row's database and error, and a successful one continues with the next row |

## Left out

- HTTP, authentication, CSRF, templates, redirects, messages and the
  `ajax` branches are left out. Each handler's answer is reduced to its data
  or its error.
- Outbound requests (OpenFoodFacts, autodoc, Google, the headless browser)
  are abstract inputs. Each one either raised, was not OK, or gave the
  extracted content. The `time.sleep` and driver set-up are left out.
- The browser step's `driver.quit()` is not modelled apart. If it raises,
  the surrounding `except` keeps the description already assigned, which is
  the outcome the model gives.
- Form and serializer integer fields are `Option<int>`: none means missing
  or not an integer. Django's own parsing of such text is not modelled.
- Text.ParseInt: Python's `int()` also accepts non-ASCII decimal digits,
  such as Arabic-Indic or fullwidth digits. The model accepts ASCII digits
  only and treats such text as not an integer.
- Text.ParseInt: from Python 3.11 on, `int()` raises ValueError for a text
  of more than 4300 digits. The model has no such limit and reads the number.
- Stock.StockCorrectionView: a `?item=` parameter written with non-ASCII
  digits fails here, while the source looks up the item it denotes. A
  parameter of more than 4300 digits is read here, while the source raises.
- Import.CellQuantity: a text cell written with non-ASCII digits fails
  here, while the source reads it as a number. A cell of more than 4300
  digits is read here, while the source answers with an error.
- Stock.Receive: SQLite stores integers in 64 bits, so the source's
  `save()` raises OverflowError for a quantity above 2^63-1. The model has
  no upper bound, and the receipt succeeds.
- Stock.GoodsReceipt: the same 64-bit bound on the new quantity is not
  modelled; the receipt succeeds where the source raises.
- Stock.StockCorrection: the same 64-bit bound on the new quantity is not
  modelled.
- Touch.TouchBook: the same 64-bit bound on the booked quantity is not
  modelled.
- Import.RowFields: the same 64-bit bound on the quantity column is not
  modelled; the row is written where the source raises.
- Forms.CleanItemForm: the same 64-bit bound on the edited quantity is not
  modelled.
- Forms.CleanOrderForm: the same 64-bit bound on the order quantity is not
  modelled. A quantity above 2^63-1 is valid here, where Django's model
  validation reports a quantity error.
- A spreadsheet is the data rows of the active sheet, with cells that hold
  text, an integer or nothing. Float, boolean and date cells, and openpyxl's
  reading of the file, are not modelled.
- The database is taken to be SQLite, Django's default. SQLite does not
  enforce `max_length`, so only the forms check lengths, and the import and
  the touch creation can store longer texts.
- Concurrency is not modelled: lost updates between simultaneous receipts,
  and races inside `get_or_create`.
- The read-only handlers are the functions `Stock.ItemStock`,
  `Stock.ItemInfo`, `Stock.ItemName`, `Stock.Dashboard` and
  `ItemViews.ItemList`, applied to `Ledger.Ledger.State()`. They are not
  methods of the class.
- `ItemViews.ItemList` breaks ties between equal names by ascending key.
  The database promises no order among equal names.
- These handlers are not part of this model: the warehouse, order and
  item-create views, the item detail get/put/patch, the order list, and the
  stock info list. `Tables.DeleteWarehouse`, `Tables.InsertOrder` and
  `Forms.CleanOrderForm` model only the cascade, insert and validation that
  those views rely on.
- `order_date` is a parameter (`now`). The clock is not modelled.

## Findings

| source | as written | input that shows it | evidently intended | confidence | as-written member | corrected member |
|---|---|---|---|---|---|---|
| viastore_app/api_views.py:304-309 | an unknown article number creates an item with `name = str(number)` and `sku = description`, but the lookup at line 282 searches the SKU for `str(number)` | a warehouse exists; touch number 4006381333931 whose JSON name is "Pencil", then touch it again: the second touch does not find the item, tries to create it again, and fails on the UNIQUE SKU "Pencil" | `name = description`, `sku = str(number)`, so that the second touch finds the item and adds to it | not executed | `Touch.RepeatTouchFailsApi` | `Touch.IntendedNeverClashes` |
| viastore_app/views_touch.py:139 | the same swap in `touch_main` | the same input through the view | the same | not executed | `Touch.RepeatTouchFails` | `Touch.RepeatTouchAccumulates` |
