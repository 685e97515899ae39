/** The database the sample-data script creates, as an initial state for
    the scenarios proved elsewhere. */
module Sample {
  import opened Models
  import opened Tables

  /** Two warehouses, three items and three orders, keys from 1 in creation
      order. The script does not set order dates; they are 0 here. */
  function SampleStore(): Store {
    Store(
      map[1 := Warehouse("Lager Nord", "Hamburg"), 2 := Warehouse("Lager Süd", "München")],
      map[1 := Item("Gabelstapler", "STAPLER001", 5, 1),
          2 := Item("Regal", "REGAL002", 20, 2),
          3 := Item("Palette", "PAL003", 100, 1)],
      map[1 := Order("ORD1001", 1, 2, 0), 2 := Order("ORD1002", 2, 5, 0), 3 := Order("ORD1003", 3, 10, 0)],
      3, 4, 4)
  }

  lemma SampleKeys()
    ensures SampleStore().warehouses.Keys == {1, 2}
    ensures SampleStore().items.Keys == {1, 2, 3}
    ensures SampleStore().orders.Keys == {1, 2, 3}
  {
  }

  lemma SampleBelowCounters()
    ensures forall k | k in SampleStore().warehouses :: k < SampleStore().nextWarehouse
    ensures forall k | k in SampleStore().items :: k < SampleStore().nextItem
    ensures forall k | k in SampleStore().orders :: k < SampleStore().nextOrder
  {
    SampleKeys();
  }

  lemma SampleSkusUnique()
    ensures SkusUnique(SampleStore().items)
  {
  }

  lemma SampleOrderNumbersUnique()
    ensures OrderNumbersUnique(SampleStore().orders)
  {
  }

  lemma SampleReferences()
    ensures forall k | k in SampleStore().items :: SampleStore().items[k].warehouse in SampleStore().warehouses
    ensures forall k | k in SampleStore().orders :: SampleStore().orders[k].item in SampleStore().items
  {
  }

  /** The sample data satisfies the database constraints. */
  lemma SampleValid()
    ensures Valid(SampleStore())
  {
    SampleBelowCounters();
    SampleSkusUnique();
    SampleOrderNumbersUnique();
    SampleReferences();
  }

  /** The sample data holds 2 warehouses, 3 items and 3 orders. */
  lemma SampleSizes()
    ensures |SampleStore().warehouses.Keys| == 2
    ensures |SampleStore().items.Keys| == 3
    ensures |SampleStore().orders.Keys| == 3
  {
    SampleKeys();
  }
}
