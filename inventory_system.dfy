/**
 * src/shared/systems/InventorySystem.ts: each pass cuts every inventory
 * down to its capacity, then drops the items whose count is not positive.
 */
module InventorySystem {
  import opened Seqs

  /** One inventory entry. */
  datatype Item = Item(itemId: string, count: int)

  /** `item.count > 0`. */
  predicate Positive(item: Item) {
    item.count > 0
  }

  /** The first `capacity` items when there are more, else all of them. */
  function Capped(items: seq<Item>, capacity: nat): (r: seq<Item>)
    ensures |r| <= capacity && |r| <= |items|
    ensures |items| > capacity ==> r == items[..capacity]
    ensures |items| <= capacity ==> r == items
  {
    if |items| > capacity then items[..capacity] else items
  }

  /** The items an inventory holds after one pass. */
  function Maintained(items: seq<Item>, capacity: nat): seq<Item> {
    Filter(Capped(items, capacity), Positive)
  }

  /**
   * After a pass the inventory holds at most `capacity` items, all with a
   * positive count, each taken in order from the first `capacity` items.
   */
  lemma MaintainedSpec(items: seq<Item>, capacity: nat)
    ensures var r := Maintained(items, capacity);
      && |r| <= capacity
      && (forall x :: x in r ==> x.count > 0)
      && IsSubsequence(r, Capped(items, capacity))
  {
    FilterIsSubsequence(Capped(items, capacity), Positive);
  }

  /** A second pass changes nothing. */
  lemma MaintainedIdempotent(items: seq<Item>, capacity: nat)
    ensures Maintained(Maintained(items, capacity), capacity) == Maintained(items, capacity)
  {
    var r := Maintained(items, capacity);
    assert Capped(r, capacity) == r;
    FilterIdempotent(Capped(items, capacity), Positive);
  }

  /** The cut comes first: an item past the capacity is dropped even when an empty item before it frees a place. */
  lemma CapBeforeFilter()
    ensures Maintained([Item("potion", 0), Item("card_1", 1)], 1) == []
  {
    assert Capped([Item("potion", 0), Item("card_1", 1)], 1) == [Item("potion", 0)];
  }

  /** An entity's inventory component. */
  class Inventory {
    var items: seq<Item>
    var capacity: nat

    constructor(items: seq<Item>, capacity: nat)
      ensures this.items == items && this.capacity == capacity
    {
      this.items := items;
      this.capacity := capacity;
    }

    /** The loop body for one entity: cut to the capacity, then keep the items with a positive count. */
    method Maintain()
      modifies this
      ensures items == Maintained(old(items), capacity) && capacity == old(capacity)
    {
      if |items| > capacity {
        items := items[..capacity];
      }
      items := Filter(items, Positive);
    }
  }

  /**
   * One pass over the entities that have an inventory. An inventory listed
   * twice ends as if listed once, since a second pass changes nothing.
   */
  method Run(entities: seq<Inventory>)
    modifies set e | e in entities
    ensures forall e :: e in entities ==> e.items == Maintained(old(e.items), e.capacity)
    ensures forall e :: e in entities ==> e.capacity == old(e.capacity)
  {
    var i := 0;
    while i < |entities|
      invariant i <= |entities|
      invariant forall e :: e in entities ==> e.capacity == old(e.capacity)
      invariant forall e :: e in entities ==>
        e.items == if e in entities[..i] then Maintained(old(e.items), e.capacity) else old(e.items)
    {
      var inventory := entities[i];
      assert inventory in entities;
      MaintainedIdempotent(old(inventory.items), inventory.capacity);
      inventory.Maintain();
      assert entities[..i + 1] == entities[..i] + [inventory];
      i := i + 1;
    }
    assert entities[..i] == entities;
  }
}
