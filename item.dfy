// An item stack: identity, classification, stack size and tags. The struct's mutating
// members are functions returning the new item (and the member's own result).
module Items {
  import opened ListStore
  import opened UtilityStructs

  datatype ItemType = Weapon | Armor | Consumable | Material | Tool | QuestItem | Currency
                    | Accessory | Container | Book

  datatype ItemRarity = Broken | Poor | Common | Uncommon | Rare | Epic | Legendary | Artifact

  datatype ItemQuality = Destroyed | Broken | Damaged | Worn | Good | Fine | Excellent | Perfect

  /** The rarity's position in declaration order, Broken (0) to Artifact (7). */
  function RarityRank(r: ItemRarity): (n: nat)
    ensures n < 8
  {
    match r
    case Broken => 0
    case Poor => 1
    case Common => 2
    case Uncommon => 3
    case Rare => 4
    case Epic => 5
    case Legendary => 6
    case Artifact => 7
  }

  /** `GetDefaultValue`: the base value the constructor gives each rarity. */
  function GetDefaultValue(r: ItemRarity): (v: int)
    ensures v >= 1
  {
    match r
    case Broken => 1
    case Poor => 5
    case Common => 25
    case Uncommon => 100
    case Rare => 500
    case Epic => 2500
    case Legendary => 10000
    case Artifact => 50000
  }

  /** A rarer item is worth strictly more by default. */
  lemma DefaultValueIncreasing(a: ItemRarity, b: ItemRarity)
    ensures RarityRank(a) < RarityRank(b) <==> GetDefaultValue(a) < GetDefaultValue(b)
  {
  }

  function IntMin(a: int, b: int): int { if a <= b then a else b }

  /** A null tag or modifier list is read as empty. */
  datatype Item = Item(
    itemName: string, itemID: int, itemType: ItemType, description: string,
    weight: real, quantity: int, maxStackSize: int,
    baseValue: int, currentValue: int, itemRarity: ItemRarity,
    itemQuality: ItemQuality, durability: real, maxDurability: real,
    tags: seq<string>, isConsumable: bool, isQuestItem: bool, isTradeRestricted: bool,
    statModifiers: seq<StatModifiers>, useEffect: string, effectPotency: real)
  {
    /** `CanStack`: a stack holds at least two. */
    function CanStack(): (r: bool)
      ensures r <==> maxStackSize >= 2
    {
      maxStackSize > 1
    }

    /** `IsStackFull`: a stack that is not full has room for at least one more. */
    function IsStackFull(): (r: bool)
      ensures !r ==> quantity + 1 <= maxStackSize
      ensures quantity == maxStackSize ==> r
    {
      quantity >= maxStackSize
    }

    /** `AddQuantity(amount)`: the new item and the amount that did not fit. A refused
        call (not stackable, or a non-positive amount) hands the whole amount back. */
    function AddQuantity(amount: int): (r: (Item, int))
      ensures !CanStack() || amount <= 0 ==> r == (this, amount)
      ensures CanStack() && amount > 0 ==>
        r.0 == this.(quantity := quantity + IntMin(amount, maxStackSize - quantity))
      ensures r.0.quantity + r.1 == quantity + amount
      ensures quantity <= maxStackSize ==> r.0.quantity <= maxStackSize
      ensures quantity <= maxStackSize && amount > 0 ==> 0 <= r.1 <= amount && r.0.quantity >= quantity
      ensures r.0.maxStackSize == maxStackSize
    {
      if !CanStack() || amount <= 0 then (this, amount)
      else
        var toAdd := IntMin(amount, maxStackSize - quantity);
        (this.(quantity := quantity + toAdd), amount - toAdd)
    }

    /** `RemoveQuantity(amount)`: the new item and the amount actually removed, which is
        min(amount, quantity) for a positive amount and 0 otherwise. */
    function RemoveQuantity(amount: int): (r: (Item, int))
      ensures amount <= 0 ==> r == (this, 0)
      ensures amount > 0 ==> r.1 == IntMin(amount, quantity)
      ensures r.0 == this.(quantity := quantity - r.1)
      ensures quantity >= 0 ==> r.0.quantity >= 0 && 0 <= r.1
      ensures r.1 <= amount || amount <= 0
    {
      if amount <= 0 then (this, 0)
      else
        var toRemove := IntMin(amount, quantity);
        (this.(quantity := quantity - toRemove), toRemove)
    }

    /** `CanCombineWith`: same identity, type, rarity and quality, both stackable, and
        room left on this stack. */
    predicate CanCombineWith(other: Item) {
      itemID == other.itemID && itemType == other.itemType && itemRarity == other.itemRarity
      && itemQuality == other.itemQuality && CanStack() && other.CanStack() && !IsStackFull()
    }

    /** `HasTag`. */
    predicate HasTag(tag: string) {
      Tagged(tags, tag)
    }

    /** `AddTag`: ignores the empty tag and a tag already present; otherwise appends. */
    function AddTag(tag: string): (r: Item)
      ensures r.HasTag(tag) <==> tag != ""
      ensures forall t :: t != tag ==> (r.HasTag(t) <==> HasTag(t))
      ensures tag == "" || tag in tags ==> r == this
      ensures tag != "" && tag !in tags ==> r == this.(tags := tags + [tag])
    {
      if tag == "" || tag in tags then this else this.(tags := tags + [tag])
    }

    /** `RemoveTag`: the new item and whether the tag was there; only the first equal tag
        goes. */
    function RemoveTag(tag: string): (r: (Item, bool))
      ensures r.1 <==> HasTag(tag)
      ensures !r.1 ==> r.0 == this
      ensures r.1 ==> r.0 == this.(tags := RemoveFirst(tags, tag))
      ensures r.1 ==> |r.0.tags| == |tags| - 1
    {
      if tag == "" then (this, false)
      else if tag in tags then (this.(tags := RemoveFirst(tags, tag)), true)
      else (this, false)
    }
  }

  /** `HasTag` on a tag list: false for the empty tag, otherwise an exact (case-sensitive)
      match. */
  predicate Tagged(tags: seq<string>, tag: string) {
    tag != "" && tag in tags
  }

  /** The constructor: one unit, not stackable, Good quality at full durability, valued by
      rarity; consumable and quest flags follow the type. */
  function NewItem(id: int, name: string, itemType: ItemType, rarity: ItemRarity): (it: Item)
    ensures it.itemID == id && it.itemName == name && it.itemType == itemType && it.itemRarity == rarity
    ensures it.quantity == 1 && it.maxStackSize == 1 && it.itemQuality == Good
    ensures it.isConsumable <==> itemType == Consumable
    ensures it.isQuestItem <==> itemType == QuestItem
    ensures it.baseValue == it.currentValue == GetDefaultValue(rarity)
    ensures it.tags == [] && !it.CanStack() && it.IsStackFull()
  {
    Item(name, id, itemType, "", 1.0, 1, 1, GetDefaultValue(rarity), GetDefaultValue(rarity),
         rarity, Good, 100.0, 100.0, [], itemType == Consumable, itemType == QuestItem, false,
         [], "", 1.0)
  }

  /** `default(Item)`: every field zero, empty or the first enumerator. */
  const DefaultItem := Item("", 0, Weapon, "", 0.0, 0, 0, 0, 0, ItemRarity.Broken, Destroyed, 0.0, 0.0,
                            [], false, false, false, [], "", 0.0)

  /** Adding what fits and then removing the same amount restores the stack. */
  lemma AddRemoveQuantityInverse(it: Item, amount: int)
    requires it.CanStack() && 0 <= it.quantity && 0 < amount <= it.maxStackSize - it.quantity
    ensures it.AddQuantity(amount).1 == 0
    ensures it.AddQuantity(amount).0.RemoveQuantity(amount) == (it, amount)
  {
  }

  /** A stack that can combine with a non-empty one takes at least one unit of it. */
  lemma CombineTakesSome(a: Item, b: Item)
    requires a.CanCombineWith(b) && b.quantity > 0
    ensures a.AddQuantity(b.quantity).0.quantity > a.quantity
    ensures a.AddQuantity(b.quantity).1 < b.quantity
    ensures b.CanCombineWith(a) <==> !b.IsStackFull()
  {
  }

  /** `AddTag` never creates a duplicate, and removing a freshly added tag gives the item
      back; on distinct tags a removed tag is gone. */
  lemma {:induction false} TagRoundTrip(it: Item, tag: string)
    ensures Distinct(it.tags) ==> Distinct(it.AddTag(tag).tags)
    ensures tag != "" && tag !in it.tags ==> it.AddTag(tag).RemoveTag(tag) == (it, true)
    ensures Distinct(it.tags) ==> !it.RemoveTag(tag).0.HasTag(tag)
  {
    if tag != "" && tag !in it.tags {
      var s := it.tags + [tag];
      assert s[|it.tags|] == tag;
      assert tag !in s[..|it.tags|] by { assert s[..|it.tags|] == it.tags; }
      assert IndexOfElem(s, tag) == |it.tags|;
      assert s[..|it.tags|] + s[|it.tags| + 1..] == it.tags;
    }
  }
}
