// A pop's inventory: an item -> count dictionary under a cap on the total count.
module Inventory {
  import opened MapSum

  /** The underlying value of an item enum member. */
  type ItemId = int

  /** `GetItemCount` on a dictionary: 0 for an absent item. */
  function CountOf(m: map<ItemId, int>, id: ItemId): (r: int)
    ensures id in m ==> r == m[id]
    ensures id !in m ==> r == 0
  {
    if id in m then m[id] else 0
  }

  /** The dictionary after `AddItem(id, count)` under capacity `cap`. */
  ghost function AfterAdd(m: map<ItemId, int>, cap: int, id: ItemId, count: int): map<ItemId, int> {
    if Sum(m) + count > cap then m else m[id := CountOf(m, id) + count]
  }

  /** The dictionary after `RemoveItem(id, count)`: a count that drops to zero or below
      removes the entry. */
  function AfterRemove(m: map<ItemId, int>, id: ItemId, count: int): (r: map<ItemId, int>)
    ensures (id !in m || m[id] < count) ==> r == m
    ensures forall k :: k != id ==> CountOf(r, k) == CountOf(m, k)
    ensures id in m && m[id] >= count ==> CountOf(r, id) == m[id] - count
    ensures id in m && m[id] >= count ==> (id in r <==> m[id] > count)
    ensures id in m && m[id] >= count ==> Sum(r) == Sum(m) - count
    ensures (forall k :: k in m ==> m[k] > 0) ==> forall k :: k in r ==> r[k] > 0
  {
    if id !in m || m[id] < count then m
    else if m[id] - count <= 0 then SumRemove(m, id); m - {id}
    else SumUpdate(m, id, m[id] - count); m[id := m[id] - count]
  }

  predicate NonNegativeCounts(m: map<ItemId, int>) {
    forall k :: k in m ==> m[k] >= 0
  }

  predicate PositiveCounts(m: map<ItemId, int>) {
    forall k :: k in m ==> m[k] > 0
  }

  /** Removing what was just added gives back the dictionary, provided the entry was
      absent or held a positive count (a zero entry would be deleted). */
  lemma AddThenRemoveRestores(m: map<ItemId, int>, cap: int, id: ItemId, n: int)
    requires Sum(m) + n <= cap
    requires id !in m || m[id] > 0
    ensures AfterRemove(AfterAdd(m, cap, id, n), id, n) == m
  {
    var a := AfterAdd(m, cap, id, n);
    if id !in m {
      assert a - {id} == m;
    } else {
      assert a[id := a[id] - n] == m;
    }
  }

  /** Removal never raises the total when counts are non-negative and `count` is not. */
  lemma RemoveLowersTotal(m: map<ItemId, int>, id: ItemId, count: int)
    requires NonNegativeCounts(m) && count >= 0
    ensures NonNegativeCounts(AfterRemove(m, id, count))
    ensures Sum(AfterRemove(m, id, count)) <= Sum(m)
  {
    if id in m && m[id] >= count {
      SumRemove(m, id);
      if m[id] - count > 0 {
        SumUpdate(m, id, m[id] - count);
      }
    }
  }

  /** Adding with a positive count keeps every entry positive. */
  lemma AddKeepsPositive(m: map<ItemId, int>, cap: int, id: ItemId, n: int)
    requires PositiveCounts(m) && n > 0
    ensures PositiveCounts(AfterAdd(m, cap, id, n))
  {
  }

  /** Removal keeps every entry positive: an entry that would drop to zero is deleted. */
  lemma RemoveKeepsPositive(m: map<ItemId, int>, id: ItemId, n: int)
    requires PositiveCounts(m)
    ensures PositiveCounts(AfterRemove(m, id, n))
  {
  }

  class InventoryComponent {
    var capacity: int
    var items: map<ItemId, int>

    /** The state the component keeps while callers pass non-negative counts. */
    ghost predicate Valid()
      reads this
    {
      NonNegativeCounts(items) && Sum(items) <= capacity
    }

    constructor ()
      ensures capacity == 10 && items == map[]
      ensures Valid()
    {
      capacity := 10;
      items := map[];
    }

    /** `GetTotalItemCount`: the summing loop over the entries. */
    method GetTotalItemCount() returns (total: int)
      ensures total == Sum(items)
    {
      total := SumValues(items);
    }

    /** `AddItem`: refuses when the new total would exceed the capacity. */
    method AddItem(id: ItemId, count: int) returns (ok: bool)
      modifies this
      ensures capacity == old(capacity)
      ensures ok <==> old(Sum(items)) + count <= capacity
      ensures items == AfterAdd(old(items), capacity, id, count)
      ensures ok ==> items[id] == CountOf(old(items), id) + count
      ensures ok ==> forall k :: k != id ==> CountOf(items, k) == CountOf(old(items), k)
      ensures ok ==> Sum(items) == old(Sum(items)) + count
      ensures old(Valid()) && count >= 0 ==> Valid()
    {
      var total := GetTotalItemCount();
      if total + count > capacity {
        return false;
      }
      var current := CountOf(items, id);
      SumUpdate(items, id, current + count);
      items := items[id := current + count];
      ok := true;
    }

    /** `RemoveItem`: refuses when the item is absent or there are fewer than `count`. */
    method RemoveItem(id: ItemId, count: int) returns (ok: bool)
      modifies this
      ensures capacity == old(capacity)
      ensures ok <==> id in old(items) && old(items)[id] >= count
      ensures items == AfterRemove(old(items), id, count)
      ensures old(Valid()) && count >= 0 ==> Valid()
    {
      if id !in items || items[id] < count {
        return false;
      }
      if count >= 0 && NonNegativeCounts(items) {
        RemoveLowersTotal(items, id, count);
      }
      items := AfterRemove(items, id, count);
      ok := true;
    }

    /** `GetItemCount`. */
    function GetItemCount(id: ItemId): (r: int)
      reads this
      ensures id !in items ==> r == 0
      ensures id in items ==> r == items[id]
      ensures NonNegativeCounts(items) ==> r >= 0
    {
      CountOf(items, id)
    }

    /** `IsInventoryFull`. */
    method IsInventoryFull() returns (full: bool)
      ensures full <==> Sum(items) >= capacity
    {
      var total := GetTotalItemCount();
      full := total >= capacity;
    }

    /** `ClearInventory`. */
    method ClearInventory()
      modifies this
      ensures items == map[] && Sum(items) == 0
      ensures capacity == old(capacity)
    {
      items := map[];
    }
  }
}
