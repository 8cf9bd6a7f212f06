// Equipment under an entity-specific profile: the profile lists the allowed slots with
// their capacities, and every equip is also logged in a flat list of equipped entries.
module AdvancedEquipment {
  import opened ListStore
  import opened Equipment

  /** The entity kinds that have a default profile, and any other kind. */
  datatype EntityType = Humanoid | Animal | Construct | Undead | OtherType

  datatype EntityEquipmentProfile = EntityEquipmentProfile(
    profileName: string, entityType: EntityType, allowedSlots: seq<EquipSlotCapacity>)

  function SlotOf(c: EquipSlotCapacity): EquipSlot {
    c.slot
  }

  /** `CanEquipInSlot`: some entry of the profile names the slot. */
  function CanEquipInSlot(p: EntityEquipmentProfile, slot: EquipSlot): (r: bool)
    ensures r <==> exists i :: 0 <= i < |p.allowedSlots| && p.allowedSlots[i].slot == slot
  {
    FindIndexBy(p.allowedSlots, SlotOf, slot) >= 0
  }

  /** `GetSlotCapacity`: the capacity of the first entry for the slot; for a slot the
      profile does not list, `Find` yields the zero struct, so 0. */
  function GetSlotCapacity(p: EntityEquipmentProfile, slot: EquipSlot): (r: int)
    ensures !CanEquipInSlot(p, slot) ==> r == 0
    ensures CanEquipInSlot(p, slot) ==>
      exists i :: 0 <= i < |p.allowedSlots| && p.allowedSlots[i].slot == slot
        && r == p.allowedSlots[i].capacity
        && forall j :: 0 <= j < i ==> p.allowedSlots[j].slot != slot
  {
    var i := FindIndexBy(p.allowedSlots, SlotOf, slot);
    if i >= 0 then p.allowedSlots[i].capacity else 0
  }

  const HumanoidSlots := [
    EquipSlotCapacity(Head, 1), EquipSlotCapacity(Chest, 1), EquipSlotCapacity(Legs, 1),
    EquipSlotCapacity(Feet, 1), EquipSlotCapacity(Hands, 1), EquipSlotCapacity(Weapon, 2),
    EquipSlotCapacity(Ring, 2), EquipSlotCapacity(Neck, 1), EquipSlotCapacity(Accessory, 3)]
  const AnimalSlots := [EquipSlotCapacity(Neck, 1), EquipSlotCapacity(Accessory, 1)]
  const ConstructSlots := [EquipSlotCapacity(Weapon, 1), EquipSlotCapacity(Accessory, 2)]
  const UndeadSlots := [
    EquipSlotCapacity(Head, 1), EquipSlotCapacity(Chest, 1), EquipSlotCapacity(Weapon, 1),
    EquipSlotCapacity(Accessory, 1)]

  const HumanoidDefault := EntityEquipmentProfile("Humanoid", Humanoid, HumanoidSlots)
  const AnimalDefault := EntityEquipmentProfile("Animal", Animal, AnimalSlots)
  const ConstructDefault := EntityEquipmentProfile("Construct", Construct, ConstructSlots)
  const UndeadDefault := EntityEquipmentProfile("Undead", Undead, UndeadSlots)

  /** `EntityEquipmentProfile.DefaultProfiles`. */
  function DefaultProfiles(): map<EntityType, EntityEquipmentProfile> {
    map[Humanoid := HumanoidDefault, Animal := AnimalDefault,
        Construct := ConstructDefault, Undead := UndeadDefault]
  }

  /** The capacity lookup answers with the entry at `i` when that is the first for its slot. */
  lemma CapacityAtFirstEntry(p: EntityEquipmentProfile, i: int)
    requires 0 <= i < |p.allowedSlots|
    requires forall j :: 0 <= j < i ==> p.allowedSlots[j].slot != p.allowedSlots[i].slot
    ensures CanEquipInSlot(p, p.allowedSlots[i].slot)
    ensures GetSlotCapacity(p, p.allowedSlots[i].slot) == p.allowedSlots[i].capacity
  {
    var k := FindIndexBy(p.allowedSlots, SlotOf, p.allowedSlots[i].slot);
    assert SlotOf(p.allowedSlots[i]) == p.allowedSlots[i].slot;
    assert k == i;
  }

  /** Animals may only wear something on the neck and one accessory. */
  lemma AnimalProfile()
    ensures var p := DefaultProfiles()[Animal];
      (forall s :: CanEquipInSlot(p, s) <==> s == Neck || s == Accessory)
      && GetSlotCapacity(p, Neck) == 1 && GetSlotCapacity(p, Accessory) == 1
  {
    var p := DefaultProfiles()[Animal];
    assert p == AnimalDefault;
    CapacityAtFirstEntry(p, 0);
    CapacityAtFirstEntry(p, 1);
  }

  lemma HumanoidRings()
    ensures GetSlotCapacity(HumanoidDefault, Ring) == 2
  {
    var p := HumanoidDefault;
    forall j | 0 <= j < 6 ensures p.allowedSlots[j].slot != Ring {
      assert j == 0 || j == 1 || j == 2 || j == 3 || j == 4 || j == 5;
    }
    CapacityAtFirstEntry(p, 6);
  }

  lemma HumanoidWeapons()
    ensures GetSlotCapacity(HumanoidDefault, Weapon) == 2
  {
    var p := HumanoidDefault;
    forall j | 0 <= j < 5 ensures p.allowedSlots[j].slot != Weapon {
      assert j == 0 || j == 1 || j == 2 || j == 3 || j == 4;
    }
    CapacityAtFirstEntry(p, 5);
  }

  /** Humanoids have two ring and two weapon places. */
  lemma HumanoidProfile()
    ensures GetSlotCapacity(DefaultProfiles()[Humanoid], Ring) == 2
    ensures GetSlotCapacity(DefaultProfiles()[Humanoid], Weapon) == 2
    ensures CanEquipInSlot(DefaultProfiles()[Humanoid], Head)
  {
    assert DefaultProfiles()[Humanoid] == HumanoidDefault;
    HumanoidRings();
    HumanoidWeapons();
    CapacityAtFirstEntry(HumanoidDefault, 0);
  }

  /** Only the four kinds with a profile have one; any other kind keeps the profile it had. */
  lemma DefaultProfileKinds(t: EntityType)
    ensures t in DefaultProfiles() <==> t != OtherType
    ensures t in DefaultProfiles() ==> DefaultProfiles()[t].entityType == t
  {
  }

  /** A profile listing a slot twice answers differently by lookup (first entry) and by
      the capacity dictionary (last entry). */
  lemma DuplicateSlotDisagreement()
    ensures var p := EntityEquipmentProfile("Twice", Humanoid, [EquipSlotCapacity(Ring, 1), EquipSlotCapacity(Ring, 2)]);
      GetSlotCapacity(p, Ring) == 1 && CapacityMap(p.allowedSlots)[Ring] == 2
  {
    var p := EntityEquipmentProfile("Twice", Humanoid, [EquipSlotCapacity(Ring, 1), EquipSlotCapacity(Ring, 2)]);
    CapacityMapLastWins(p.allowedSlots, 1);
  }

  datatype EquippedItem = EquippedItem(slot: EquipSlot, item: Gear, isActive: bool)

  function ItemIdOf(e: EquippedItem): int {
    e.item.itemID
  }

  class AdvancedEquipmentComponent {
    var equipmentProfile: EntityEquipmentProfile
    var entityType: EntityType
    var useDefaultProfile: bool
    var currentEquipment: seq<EquippedItem>
    var equipped: map<EquipSlot, seq<Gear>>

    /** Every non-empty slot list is allowed by the profile and within its capacity. */
    ghost predicate WithinProfile()
      reads this
    {
      forall s :: s in equipped && equipped[s] != [] ==>
        CanEquipInSlot(equipmentProfile, s) && |equipped[s]| <= GetSlotCapacity(equipmentProfile, s)
    }

    constructor (profile: EntityEquipmentProfile, entityType: EntityType, useDefaultProfile: bool)
      ensures equipmentProfile == profile && this.entityType == entityType
      ensures this.useDefaultProfile == useDefaultProfile
      ensures currentEquipment == [] && equipped == map[]
      ensures WithinProfile()
    {
      equipmentProfile := profile;
      this.entityType := entityType;
      this.useDefaultProfile := useDefaultProfile;
      currentEquipment := [];
      equipped := map[];
    }

    /** `InitializeEquipmentProfile` followed by `InitializeSlots`: picks the default profile
        for the entity kind when asked to, then gives every allowed slot an empty list. */
    method InitializeEquipmentProfile()
      modifies this
      ensures useDefaultProfile && entityType in DefaultProfiles() ==>
        equipmentProfile == DefaultProfiles()[entityType]
      ensures !(useDefaultProfile && entityType in DefaultProfiles()) ==>
        equipmentProfile == old(equipmentProfile)
      ensures forall s :: s in equipped <==> CanEquipInSlot(equipmentProfile, s)
      ensures forall s :: s in equipped ==> equipped[s] == []
      ensures entityType == old(entityType) && useDefaultProfile == old(useDefaultProfile)
      ensures currentEquipment == old(currentEquipment)
      ensures WithinProfile()
    {
      if useDefaultProfile && entityType in DefaultProfiles() {
        equipmentProfile := DefaultProfiles()[entityType];
      }
      var slots := equipmentProfile.allowedSlots;
      var lists: map<EquipSlot, seq<Gear>> := map[];
      var i := 0;
      while i < |slots|
        invariant 0 <= i <= |slots|
        invariant forall s :: s in lists <==> exists j :: 0 <= j < i && slots[j].slot == s
        invariant forall s :: s in lists ==> lists[s] == []
      {
        lists := lists[slots[i].slot := []];
        i := i + 1;
      }
      equipped := lists;
    }

    /** `SetEntityType`. */
    method SetEntityType(newEntityType: EntityType)
      modifies this
      ensures entityType == newEntityType && useDefaultProfile == old(useDefaultProfile)
      ensures currentEquipment == old(currentEquipment)
      ensures useDefaultProfile && newEntityType in DefaultProfiles() ==>
        equipmentProfile == DefaultProfiles()[newEntityType]
      ensures !(useDefaultProfile && newEntityType in DefaultProfiles()) ==>
        equipmentProfile == old(equipmentProfile)
      ensures forall s :: s in equipped <==> CanEquipInSlot(equipmentProfile, s)
      ensures forall s :: s in equipped ==> equipped[s] == []
      ensures WithinProfile()
    {
      entityType := newEntityType;
      InitializeEquipmentProfile();
    }

    /** `CanEquip`. */
    function CanEquip(item: Gear): (r: bool)
      reads this
      ensures r ==> CanEquipInSlot(equipmentProfile, item.equipSlot)
      ensures r ==> GetSlotCapacity(equipmentProfile, item.equipSlot) > 0
    {
      CanEquipInSlot(equipmentProfile, item.equipSlot)
        && |Listed(equipped, item.equipSlot)| < GetSlotCapacity(equipmentProfile, item.equipSlot)
    }

    /** `EquipItem`: succeeds exactly when `CanEquip` held; then the slot list and the log
        each gain one entry. */
    method EquipItem(item: Gear) returns (ok: bool)
      modifies this
      ensures equipmentProfile == old(equipmentProfile) && entityType == old(entityType)
      ensures ok <==> old(CanEquip(item))
      ensures !CanEquipInSlot(equipmentProfile, item.equipSlot) ==>
        equipped == old(equipped) && currentEquipment == old(currentEquipment)
      ensures CanEquipInSlot(equipmentProfile, item.equipSlot) && !ok ==>
        equipped == old(equipped)[item.equipSlot := Listed(old(equipped), item.equipSlot)]
        && currentEquipment == old(currentEquipment)
      ensures ok ==>
        equipped == old(equipped)[item.equipSlot := Listed(old(equipped), item.equipSlot) + [item]]
        && currentEquipment == old(currentEquipment) + [EquippedItem(item.equipSlot, item, true)]
      ensures old(WithinProfile()) ==> WithinProfile()
    {
      var slot := item.equipSlot;
      if !CanEquipInSlot(equipmentProfile, slot) {
        return false;
      }
      if slot !in equipped {
        equipped := equipped[slot := []];
      }
      var maxCapacity := GetSlotCapacity(equipmentProfile, slot);
      if |equipped[slot]| >= maxCapacity {
        return false;
      }
      equipped := equipped[slot := equipped[slot] + [item]];
      currentEquipment := currentEquipment + [EquippedItem(slot, item, true)];
      ok := true;
    }

    /** `UnequipItem`: removes the first equal item from its slot list and, when one was
        removed, every logged entry with the same item id. */
    method UnequipItem(item: Gear) returns (removed: bool)
      modifies this
      ensures equipmentProfile == old(equipmentProfile) && entityType == old(entityType)
      ensures removed <==> item in Listed(old(equipped), item.equipSlot)
      ensures item.equipSlot !in old(equipped) ==> equipped == old(equipped)
      ensures item.equipSlot in old(equipped) ==>
        equipped == old(equipped)[item.equipSlot := RemoveFirst(old(equipped)[item.equipSlot], item)]
      ensures removed ==> currentEquipment == RemoveAllBy(old(currentEquipment), ItemIdOf, item.itemID)
      ensures !removed ==> currentEquipment == old(currentEquipment)
      ensures old(WithinProfile()) ==> WithinProfile()
    {
      var slot := item.equipSlot;
      if slot !in equipped {
        return false;
      }
      var list := equipped[slot];
      removed := item in list;
      equipped := equipped[slot := RemoveFirst(list, item)];
      if removed {
        currentEquipment := RemoveAllBy(currentEquipment, ItemIdOf, item.itemID);
      }
    }

    /** `GetEquippedItems`. */
    function GetEquippedItems(slot: EquipSlot): (r: seq<Gear>)
      reads this
      ensures slot !in equipped ==> r == []
      ensures WithinProfile() ==> |r| <= GetSlotCapacity(equipmentProfile, slot) || r == []
    {
      Listed(equipped, slot)
    }

    /** `GetSlotCapacities`: one assignment per profile entry, so the last entry for a slot
        wins. */
    method GetSlotCapacities() returns (capacities: map<EquipSlot, int>)
      ensures capacities == CapacityMap(equipmentProfile.allowedSlots)
      ensures forall s :: s in capacities <==> CanEquipInSlot(equipmentProfile, s)
    {
      var slots := equipmentProfile.allowedSlots;
      capacities := map[];
      var i := 0;
      while i < |slots|
        invariant 0 <= i <= |slots|
        invariant capacities == CapacityMap(slots[..i])
      {
        assert slots[..i + 1][..i] == slots[..i];
        capacities := capacities[slots[i].slot := slots[i].capacity];
        i := i + 1;
      }
      assert slots[..i] == slots;
    }
  }
}
