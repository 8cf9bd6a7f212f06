// Per-slot equipment: a capacity per slot and, per slot, the list of equipped items.
module Equipment {
  import opened ListStore

  /** The equipment slots the profiles name. */
  datatype EquipSlot = Head | Chest | Legs | Feet | Hands | Weapon | Ring | Neck | Accessory

  /** The parts of an item the equipment code looks at; two items are equal when all
      their fields are (the default equality of a C# struct). */
  datatype Gear = Gear(itemID: int, itemName: string, equipSlot: EquipSlot)

  datatype EquipSlotCapacity = EquipSlotCapacity(slot: EquipSlot, capacity: int)

  /** The dictionary built by assigning `capacities[i].capacity` to its slot in list order. */
  function CapacityMap(capacities: seq<EquipSlotCapacity>): (r: map<EquipSlot, int>)
    ensures forall s :: s in r <==> exists i :: 0 <= i < |capacities| && capacities[i].slot == s
    decreases |capacities|
  {
    if capacities == [] then map[]
    else
      var n := |capacities| - 1;
      var prev := CapacityMap(capacities[..n]);
      assert forall i :: 0 <= i < n ==> capacities[..n][i] == capacities[i];
      prev[capacities[n].slot := capacities[n].capacity]
  }

  /** When a slot occurs several times, its last occurrence decides the capacity. */
  lemma {:induction false} CapacityMapLastWins(capacities: seq<EquipSlotCapacity>, i: int)
    requires 0 <= i < |capacities|
    requires forall j :: i < j < |capacities| ==> capacities[j].slot != capacities[i].slot
    ensures CapacityMap(capacities)[capacities[i].slot] == capacities[i].capacity
    decreases |capacities|
  {
    var n := |capacities| - 1;
    if i < n {
      assert capacities[..n][i] == capacities[i];
      CapacityMapLastWins(capacities[..n], i);
    }
  }

  /** The list held for a slot, empty when the slot was never used. */
  function Listed(equipped: map<EquipSlot, seq<Gear>>, slot: EquipSlot): seq<Gear> {
    if slot in equipped then equipped[slot] else []
  }

  class EquipmentComponent {
    var slotCapacities: map<EquipSlot, int>
    var equipped: map<EquipSlot, seq<Gear>>

    /** Every non-empty slot list is configured and within its capacity. */
    ghost predicate WithinCapacity()
      reads this
    {
      forall s :: s in equipped && equipped[s] != [] ==>
        s in slotCapacities && |equipped[s]| <= slotCapacities[s]
    }

    constructor ()
      ensures slotCapacities == map[] && equipped == map[]
      ensures WithinCapacity()
    {
      slotCapacities := map[];
      equipped := map[];
    }

    /** `ConfigureSlots`: clears the capacities, then assigns each entry in order. */
    method ConfigureSlots(capacities: seq<EquipSlotCapacity>)
      modifies this
      ensures slotCapacities == CapacityMap(capacities)
      ensures equipped == old(equipped)
    {
      slotCapacities := map[];
      var i := 0;
      while i < |capacities|
        invariant 0 <= i <= |capacities|
        invariant slotCapacities == CapacityMap(capacities[..i])
        invariant equipped == old(equipped)
      {
        assert capacities[..i + 1][..i] == capacities[..i];
        slotCapacities := slotCapacities[capacities[i].slot := capacities[i].capacity];
        i := i + 1;
      }
      assert capacities[..i] == capacities;
    }

    /** `EquipItem`: refuses an unconfigured slot or a full one. Reaching the capacity test
        creates an empty list for a slot never used, even when the item is then refused. */
    method EquipItem(item: Gear) returns (ok: bool)
      modifies this
      ensures slotCapacities == old(slotCapacities)
      ensures ok <==> item.equipSlot in slotCapacities
                      && |Listed(old(equipped), item.equipSlot)| < slotCapacities[item.equipSlot]
      ensures item.equipSlot !in slotCapacities ==> equipped == old(equipped)
      ensures item.equipSlot in slotCapacities && !ok ==>
        equipped == old(equipped)[item.equipSlot := Listed(old(equipped), item.equipSlot)]
      ensures ok ==> equipped == old(equipped)[item.equipSlot := Listed(old(equipped), item.equipSlot) + [item]]
      ensures old(WithinCapacity()) ==> WithinCapacity()
    {
      var slot := item.equipSlot;
      if slot !in slotCapacities {
        return false;
      }
      if slot !in equipped {
        equipped := equipped[slot := []];
      }
      if |equipped[slot]| >= slotCapacities[slot] {
        return false;
      }
      equipped := equipped[slot := equipped[slot] + [item]];
      ok := true;
    }

    /** `UnequipItem`: removes the first equal item from its slot's list. */
    method UnequipItem(item: Gear) returns (removed: bool)
      modifies this
      ensures slotCapacities == old(slotCapacities)
      ensures removed <==> item in Listed(old(equipped), item.equipSlot)
      ensures item.equipSlot !in old(equipped) ==> equipped == old(equipped)
      ensures item.equipSlot in old(equipped) ==>
        equipped == old(equipped)[item.equipSlot := RemoveFirst(old(equipped)[item.equipSlot], item)]
      ensures old(WithinCapacity()) ==> WithinCapacity()
    {
      var slot := item.equipSlot;
      if slot !in equipped {
        return false;
      }
      var list := equipped[slot];
      removed := item in list;
      equipped := equipped[slot := RemoveFirst(list, item)];
    }

    /** `GetEquippedItems`. */
    function GetEquippedItems(slot: EquipSlot): (r: seq<Gear>)
      reads this
      ensures slot !in equipped ==> r == []
      ensures WithinCapacity() && r != [] ==> slot in slotCapacities && |r| <= slotCapacities[slot]
    {
      Listed(equipped, slot)
    }
  }
}
