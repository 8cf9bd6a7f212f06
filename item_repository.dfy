// The item repository: items by ID, a case-insensitive name map, ID lists by type, rarity
// and (case-insensitive) tag, and a counter handing out fresh IDs. `ItemStore` is the
// repository's state as a value with one function per operation; the class
// `ItemRepository` holds the same fields and performs each operation step by step.
module ItemRepositories {
  import opened Wrappers
  import opened Text
  import opened ListStore
  import opened Items

  function TypeOf(it: Item): ItemType { it.itemType }
  function RarityOf(it: Item): ItemRarity { it.itemRarity }

  // ---------------------------------------------------------------- ID lists

  /** The type and rarity indexes: every list is without repeats and holds exactly the IDs
      of the items with that key. */
  predicate ListsExact<K>(index: map<K, seq<int>>, items: map<int, Item>, key: Item -> K) {
    (forall k :: k in index ==> Distinct(index[k]))
    && (forall k, id :: k in index && id in index[k] ==> id in items && key(items[id]) == k)
    && (forall id :: id in items ==> key(items[id]) in index && id in index[key(items[id])])
  }

  /** A new item's ID appended under its key keeps the index exact. */
  lemma ExactAfterAdd<K>(index: map<K, seq<int>>, items: map<int, Item>, key: Item -> K, id: int, it: Item)
    requires ListsExact(index, items, key) && id !in items
    ensures ListsExact(AppendAt(index, key(it), id), items[id := it], key)
  {
    var r := AppendAt(index, key(it), id);
    if key(it) in index {
      assert id !in index[key(it)];
      AppendDistinct(index[key(it)], id);
    }
    forall k, x | k in r && x in r[k] ensures x in items[id := it] && key(items[id := it][x]) == k {
      if x != id {
        assert x in index[k];
      }
    }
  }

  /** Removing a present item's ID from its key's list keeps the index exact. */
  lemma ExactAfterRemove<K>(index: map<K, seq<int>>, items: map<int, Item>, key: Item -> K, id: int)
    requires ListsExact(index, items, key) && id in items
    ensures ListsExact(RemoveAt(index, key(items[id]), id), items - {id}, key)
  {
    var k0 := key(items[id]);
    RemoveFirstDistinct(index[k0], id);
    var r := RemoveAt(index, k0, id);
    forall x | x in items - {id} ensures key(items[x]) in r && x in r[key(items[x])] {
      assert x in index[key(items[x])];
    }
  }

  /** Replacing an item moves its ID to the new key's list when the key changes; the
      index stays exact. */
  lemma ExactAfterReplace<K>(index: map<K, seq<int>>, items: map<int, Item>, key: Item -> K, id: int, it: Item)
    requires ListsExact(index, items, key) && id in items
    ensures key(items[id]) != key(it) ==>
      ListsExact(AppendAt(RemoveAt(index, key(items[id]), id), key(it), id), items[id := it], key)
    ensures key(items[id]) == key(it) ==> ListsExact(index, items[id := it], key)
  {
    if key(items[id]) != key(it) {
      ExactAfterRemove(index, items, key, id);
      ExactAfterAdd(RemoveAt(index, key(items[id]), id), items - {id}, key, id, it);
      assert (items - {id})[id := it] == items[id := it];
    } else {
      forall k, x | k in index && x in index[k] ensures x in items[id := it] && key(items[id := it][x]) == k {
        assert key(items[x]) == k;
      }
    }
  }

  /** `UpdateItem`'s type and rarity step: a changed key moves the ID to the new key's
      list. */
  function Rekeyed<K>(index: map<K, seq<int>>, from: K, to: K, id: int): map<K, seq<int>>
    requires from != to ==> from in index
  {
    if from != to then AppendAt(RemoveAt(index, from, id), to, id) else index
  }

  // ---------------------------------------------------------------- tag index

  /** `AddTagToItem`'s index step: the case-folded tag's list gets `id` unless it has it. */
  function IndexAdd(idx: map<string, seq<int>>, tag: string, id: int): (r: map<string, seq<int>>)
    ensures r.Keys == idx.Keys + {ToLower(tag)} && id in r[ToLower(tag)]
    ensures forall k :: k in idx && k != ToLower(tag) ==> r[k] == idx[k]
    ensures forall k, x :: k in idx && x in idx[k] ==> x in r[k]
    ensures ToLower(tag) in idx && id in idx[ToLower(tag)] ==> r == idx
  {
    var k := ToLower(tag);
    if k in idx && id in idx[k] then idx else AppendAt(idx, k, id)
  }

  /** The tag-list removal with the missing entry skipped: `id` leaves the case-folded
      tag's list, and a list left empty is dropped. */
  function IndexRemove(idx: map<string, seq<int>>, tag: string, id: int): (r: map<string, seq<int>>)
    ensures ToLower(tag) !in idx ==> r == idx
    ensures r.Keys <= idx.Keys
    ensures forall k :: k in idx && k != ToLower(tag) ==> k in r && r[k] == idx[k]
    ensures ToLower(tag) in r ==> r[ToLower(tag)] == RemoveFirst(idx[ToLower(tag)], id) != []
    ensures ToLower(tag) in idx && RemoveFirst(idx[ToLower(tag)], id) == [] ==> ToLower(tag) !in r
  {
    var k := ToLower(tag);
    if k !in idx then idx
    else
      var l := RemoveFirst(idx[k], id);
      if l == [] then idx - {k} else idx[k := l]
  }

  /** `_itemsByTag[tag]?.Remove(id)` as written: the dictionary's indexer throws
      (`None`) for a tag without an entry, since `?.` only guards a null list. */
  function IndexRemoveAsWritten(idx: map<string, seq<int>>, tag: string, id: int): (r: Option<map<string, seq<int>>>)
    ensures r.None? <==> ToLower(tag) !in idx
    ensures r.Some? ==> r.value == IndexRemove(idx, tag, id)
  {
    if ToLower(tag) !in idx then None else Some(IndexRemove(idx, tag, id))
  }

  /** The removal pass of `UpdateTagMappings`, and `DeleteItem`'s tag loop with nothing
      kept: in order, every tag of `tags` that `kept` lacks has `id` removed. */
  function UnindexTags(idx: map<string, seq<int>>, tags: seq<string>, kept: seq<string>, id: int): map<string, seq<int>>
    decreases |tags|
  {
    if tags == [] then idx
    else
      var prev := UnindexTags(idx, tags[..|tags| - 1], kept, id);
      var t := tags[|tags| - 1];
      if Tagged(kept, t) then prev else IndexRemove(prev, t, id)
  }

  /** The same pass as written: `None` once a step throws. */
  function UnindexTagsAsWritten(idx: map<string, seq<int>>, tags: seq<string>, kept: seq<string>, id: int): Option<map<string, seq<int>>>
    decreases |tags|
  {
    if tags == [] then Some(idx)
    else
      var prev := UnindexTagsAsWritten(idx, tags[..|tags| - 1], kept, id);
      var t := tags[|tags| - 1];
      if prev.None? then None
      else if Tagged(kept, t) then prev
      else IndexRemoveAsWritten(prev.value, t, id)
  }

  /** The adding pass of `UpdateTagMappings`: in order, every tag of `tags` that `kept`
      lacks has `id` added. */
  function IndexTags(idx: map<string, seq<int>>, tags: seq<string>, kept: seq<string>, id: int): map<string, seq<int>>
    decreases |tags|
  {
    if tags == [] then idx
    else
      var prev := IndexTags(idx, tags[..|tags| - 1], kept, id);
      var t := tags[|tags| - 1];
      if Tagged(kept, t) then prev else IndexAdd(prev, t, id)
  }

  predicate ListsDistinct(idx: map<string, seq<int>>) {
    forall k :: k in idx ==> Distinct(idx[k])
  }

  /** The pass as written, whenever it does not throw, is the repaired pass. */
  lemma {:induction false} AsWrittenAgrees(idx: map<string, seq<int>>, tags: seq<string>, kept: seq<string>, id: int)
    ensures UnindexTagsAsWritten(idx, tags, kept, id).Some? ==>
      UnindexTagsAsWritten(idx, tags, kept, id).value == UnindexTags(idx, tags, kept, id)
    decreases |tags|
  {
    if tags != [] {
      AsWrittenAgrees(idx, tags[..|tags| - 1], kept, id);
    }
  }

  /** The removal pass keeps lists without repeats, adds nothing, and leaves `id` out of
      the list of every tag it processed. */
  lemma {:induction false} UnindexTagsClears(idx: map<string, seq<int>>, tags: seq<string>, kept: seq<string>, id: int)
    requires ListsDistinct(idx)
    ensures ListsDistinct(UnindexTags(idx, tags, kept, id))
    ensures UnindexTags(idx, tags, kept, id).Keys <= idx.Keys
    ensures forall k, x :: k in UnindexTags(idx, tags, kept, id) && x in UnindexTags(idx, tags, kept, id)[k] ==>
      k in idx && x in idx[k]
    ensures forall t :: t in tags && !Tagged(kept, t) && ToLower(t) in UnindexTags(idx, tags, kept, id) ==>
      id !in UnindexTags(idx, tags, kept, id)[ToLower(t)]
    decreases |tags|
  {
    if tags != [] {
      var init := tags[..|tags| - 1];
      var t := tags[|tags| - 1];
      UnindexTagsClears(idx, init, kept, id);
      var prev := UnindexTags(idx, init, kept, id);
      var r := UnindexTags(idx, tags, kept, id);
      var k := ToLower(t);
      if !Tagged(kept, t) && k in prev {
        RemoveFirstDistinct(prev[k], id);
      }
      forall u | u in tags && !Tagged(kept, u) && ToLower(u) in r ensures id !in r[ToLower(u)] {
        if u != t {
          assert u in init by {
            var j :| 0 <= j < |tags| && tags[j] == u;
            assert j < |tags| - 1;
            assert init[j] == u;
          }
        }
      }
    }
  }

  /** The adding pass keeps lists without repeats, loses nothing, and puts `id` in the
      list of every tag it processed. */
  lemma {:induction false} IndexTagsCovers(idx: map<string, seq<int>>, tags: seq<string>, kept: seq<string>, id: int)
    requires ListsDistinct(idx)
    ensures ListsDistinct(IndexTags(idx, tags, kept, id))
    ensures forall k, x :: k in idx && x in idx[k] ==>
      k in IndexTags(idx, tags, kept, id) && x in IndexTags(idx, tags, kept, id)[k]
    ensures forall t :: t in tags && !Tagged(kept, t) ==>
      ToLower(t) in IndexTags(idx, tags, kept, id) && id in IndexTags(idx, tags, kept, id)[ToLower(t)]
    decreases |tags|
  {
    if tags != [] {
      var init := tags[..|tags| - 1];
      var t := tags[|tags| - 1];
      IndexTagsCovers(idx, init, kept, id);
      var prev := IndexTags(idx, init, kept, id);
      var r := IndexTags(idx, tags, kept, id);
      var k := ToLower(t);
      if !Tagged(kept, t) && k in prev && id !in prev[k] {
        AppendDistinct(prev[k], id);
      }
      forall u | u in tags && !Tagged(kept, u) ensures ToLower(u) in r && id in r[ToLower(u)] {
        if u != t {
          assert u in init by {
            var j :| 0 <= j < |tags| && tags[j] == u;
            assert j < |tags| - 1;
            assert init[j] == u;
          }
        }
      }
    }
  }

  // ---------------------------------------------------------------- IDs and names

  /** Every stored ID is positive, below the counter, and its item's own ID. */
  predicate IdsBelow(items: map<int, Item>, next: int) {
    forall id :: id in items ==> 1 <= id < next && items[id].itemID == id
  }

  /** Every name entry, keyed by the case-folded name, points at an item with that name. */
  predicate NamesPointAtItems(names: map<string, int>, items: map<int, Item>) {
    forall k :: k in names ==> names[k] in items && ToLower(items[names[k]].itemName) == k
  }

  /** A new entry for a new item keeps the name map pointing at items. */
  lemma NamesAfterAdd(names: map<string, int>, items: map<int, Item>, id: int, it: Item)
    requires NamesPointAtItems(names, items) && id !in items
    ensures NamesPointAtItems(names[ToLower(it.itemName) := id], items[id := it])
  {
  }

  /** Deleting an item with its name's entry leaves no entry pointing at it. */
  lemma NamesAfterRemove(names: map<string, int>, items: map<int, Item>, id: int)
    requires NamesPointAtItems(names, items) && id in items
    ensures NamesPointAtItems(names - {ToLower(items[id].itemName)}, items - {id})
    ensures forall k :: k in names - {ToLower(items[id].itemName)} ==> names[k] != id
  {
  }

  /** Replacing an item keeps the name map pointing at items, re-keyed when the name
      changed. */
  lemma NamesAfterReplace(names: map<string, int>, items: map<int, Item>, id: int, it: Item)
    requires NamesPointAtItems(names, items) && id in items
    ensures items[id].itemName == it.itemName ==> NamesPointAtItems(names, items[id := it])
    ensures NamesPointAtItems((names - {ToLower(items[id].itemName)})[ToLower(it.itemName) := id], items[id := it])
  {
    var n := (names - {ToLower(items[id].itemName)})[ToLower(it.itemName) := id];
    forall k | k in n ensures n[k] in items[id := it] && ToLower(items[id := it][n[k]].itemName) == k {
      if k != ToLower(it.itemName) {
        assert names[k] != id;
      }
    }
  }

  /** `UpdateItem`'s name step: an item whose name changed (case-sensitively) loses its
      old entry and gains one under its new name. */
  function Renamed(names: map<string, int>, prior: Item, updated: Item): map<string, int> {
    if prior.itemName != updated.itemName
    then (names - {ToLower(prior.itemName)})[ToLower(updated.itemName) := updated.itemID]
    else names
  }

  // ---------------------------------------------------------------- the repository state

  datatype ItemStore = ItemStore(
    items: map<int, Item>, nameToId: map<string, int>,
    byType: map<ItemType, seq<int>>, byRarity: map<ItemRarity, seq<int>>,
    byTag: map<string, seq<int>>, nextItemID: int, isInitialized: bool)
  {
    /** Every ID lies below the counter and is its item's own ID; every name entry (keyed
        by the case-folded name) points at an item with that name; the type and rarity
        lists are exact; no tag list repeats an ID. */
    predicate Valid() {
      nextItemID >= 1 && IdsBelow(items, nextItemID) && NamesPointAtItems(nameToId, items)
      && ListsExact(byType, items, TypeOf) && ListsExact(byRarity, items, RarityOf)
      && ListsDistinct(byTag)
    }

    /** `GetItem`: the item, or the default for an unknown ID. */
    function GetItem(id: int): (r: Item)
      ensures id in items ==> r == items[id]
      ensures id !in items ==> r == DefaultItem
    {
      if id in items then items[id] else DefaultItem
    }

    /** `GetItemByName`: the item the case-folded name maps to, or the default. */
    function GetItemByName(name: string): (r: Item)
      ensures name == "" || ToLower(name) !in nameToId ==> r == DefaultItem
      ensures Valid() && name != "" && ToLower(name) in nameToId ==>
        r in items.Values && EqualsIgnoreCase(r.itemName, name)
    {
      if name == "" then DefaultItem
      else if ToLower(name) in nameToId then GetItem(nameToId[ToLower(name)])
      else DefaultItem
    }

    /** `CreateItem`: refused for the empty name; an existing name (ignoring case) gives
        the existing item; otherwise the counter's ID goes to a new item in every map. */
    function CreateItem(name: string, itemType: ItemType, rarity: ItemRarity): (ItemStore, Item) {
      if name == "" then (this, DefaultItem)
      else if ToLower(name) in nameToId then (this, GetItemByName(name))
      else
        var id := nextItemID;
        var it := NewItem(id, name, itemType, rarity);
        (this.(items := items[id := it], nameToId := nameToId[ToLower(name) := id],
               byType := AppendAt(byType, itemType, id), byRarity := AppendAt(byRarity, rarity, id),
               nextItemID := id + 1), it)
    }

    /** `UpdateItem`: refused for an unknown ID; otherwise the name entry, the type and
        rarity lists and the tag lists follow the change, and the item is replaced. */
    function UpdateItem(updated: Item): (ItemStore, bool)
      requires Valid()
    {
      var id := updated.itemID;
      if id !in items then (this, false)
      else
        var prior := items[id];
        (this.(items := items[id := updated], nameToId := Renamed(nameToId, prior, updated),
               byType := Rekeyed(byType, prior.itemType, updated.itemType, id),
               byRarity := Rekeyed(byRarity, prior.itemRarity, updated.itemRarity, id),
               byTag := IndexTags(UnindexTags(byTag, prior.tags, updated.tags, id), updated.tags, prior.tags, id)), true)
    }

    /** `DeleteItem`: refused for an unknown ID; otherwise the item leaves every map. The
        name entry goes by the item's case-folded name. */
    function DeleteItem(id: int): (ItemStore, bool)
      requires Valid()
    {
      if id !in items then (this, false)
      else
        var it := items[id];
        (this.(items := items - {id}, nameToId := nameToId - {ToLower(it.itemName)},
               byType := RemoveAt(byType, it.itemType, id), byRarity := RemoveAt(byRarity, it.itemRarity, id),
               byTag := UnindexTags(byTag, it.tags, [], id)), true)
    }

    /** `AddTagToItem`. The item's tag list is shared with the stored copy, so the inner
        `UpdateItem` sees no tag change and only writes the item back. */
    function AddTagToItem(id: int, tag: string): (ItemStore, bool) {
      if id !in items || tag == "" then (this, false)
      else (this.(items := items[id := items[id].AddTag(tag)], byTag := IndexAdd(byTag, tag, id)), true)
    }

    /** `AddTagToItemByName`: refused for a name with no entry (ignoring case); otherwise
        `AddTagToItem` on the ID it maps to. */
    function AddTagToItemByName(name: string, tag: string): (ItemStore, bool) {
      if ToLower(name) !in nameToId then (this, false) else AddTagToItem(nameToId[ToLower(name)], tag)
    }

    /** `RemoveTagFromItem`, with a missing tag entry skipped. */
    function RemoveTagFromItem(id: int, tag: string): (ItemStore, bool) {
      if id !in items || tag == "" then (this, false)
      else
        var (it, removed) := items[id].RemoveTag(tag);
        if !removed then (this, false)
        else (this.(items := items[id := it], byTag := IndexRemove(byTag, tag, id)), true)
    }

    /** `RemoveTagFromItem` as written: `None` when the tag has no entry. */
    function RemoveTagFromItemAsWritten(id: int, tag: string): Option<(ItemStore, bool)> {
      if id !in items || tag == "" then Some((this, false))
      else
        var (it, removed) := items[id].RemoveTag(tag);
        if !removed then Some((this, false))
        else
          var idx := IndexRemoveAsWritten(byTag, tag, id);
          if idx.None? then None else Some((this.(items := items[id := it], byTag := idx.value), true))
    }

    /** `DeleteItem` as written: `None` when one of the item's tags has no entry. */
    function DeleteItemAsWritten(id: int): Option<(ItemStore, bool)>
      requires Valid()
    {
      if id !in items then Some((this, false))
      else
        var idx := UnindexTagsAsWritten(byTag, items[id].tags, [], id);
        if idx.None? then None else Some(DeleteItem(id))
    }

    /** `UpdateItem` as written: `None` when a tag the update drops has no entry by the
        time `UpdateTagMappings` reaches it. */
    function UpdateItemAsWritten(updated: Item): Option<(ItemStore, bool)>
      requires Valid()
    {
      var id := updated.itemID;
      if id !in items then Some((this, false))
      else
        var idx := UnindexTagsAsWritten(byTag, items[id].tags, updated.tags, id);
        if idx.None? then None else Some(UpdateItem(updated))
    }
  }

  /** The static fields' initial values, and the state `ClearAll` leaves. */
  const EmptyStore := ItemStore(map[], map[], map[], map[], map[], 1, false)

  // ---------------------------------------------------------------- properties

  lemma EmptyStoreValid()
    ensures EmptyStore.Valid() && EmptyStore.nextItemID == 1 && !EmptyStore.isInitialized
  {
  }

  /** `CreateItem` keeps the store valid and never lowers the counter. */
  lemma CreateItemKeepsValid(s: ItemStore, name: string, itemType: ItemType, rarity: ItemRarity)
    requires s.Valid()
    ensures s.CreateItem(name, itemType, rarity).0.Valid()
    ensures s.CreateItem(name, itemType, rarity).0.nextItemID >= s.nextItemID
  {
    if name != "" && ToLower(name) !in s.nameToId {
      var id := s.nextItemID;
      var it := NewItem(id, name, itemType, rarity);
      NamesAfterAdd(s.nameToId, s.items, id, it);
      ExactAfterAdd(s.byType, s.items, TypeOf, id, it);
      ExactAfterAdd(s.byRarity, s.items, RarityOf, id, it);
    }
  }

  /** `CreateItem` refused or answered from the name map: the empty name gives the
      default item, and a name already taken (ignoring case) gives the stored item of that
      name; the store is unchanged either way. */
  lemma CreateItemExisting(s: ItemStore, name: string, itemType: ItemType, rarity: ItemRarity)
    requires s.Valid()
    ensures name == "" ==> s.CreateItem(name, itemType, rarity) == (s, DefaultItem)
    ensures name != "" && ToLower(name) in s.nameToId ==>
      var (r, it) := s.CreateItem(name, itemType, rarity);
      r == s && it in s.items.Values && EqualsIgnoreCase(it.itemName, name)
  {
  }

  /** `CreateItem` for a new name: the new item has the counter's unused ID, is found by
      that ID and by its name, and every earlier item is unchanged. */
  lemma CreateItemFresh(s: ItemStore, name: string, itemType: ItemType, rarity: ItemRarity)
    requires s.Valid() && name != "" && ToLower(name) !in s.nameToId
    ensures var (r, it) := s.CreateItem(name, itemType, rarity);
      it == NewItem(s.nextItemID, name, itemType, rarity) && s.nextItemID !in s.items
      && r.nextItemID == s.nextItemID + 1 && r.items.Keys == s.items.Keys + {it.itemID}
      && r.GetItem(it.itemID) == it && r.GetItemByName(name) == it
      && (forall id :: id in s.items ==> r.GetItem(id) == s.GetItem(id))
  {
  }

  /** `UpdateItem` keeps the store valid and the counter unchanged. */
  lemma UpdateItemKeepsValid(s: ItemStore, updated: Item)
    requires s.Valid()
    ensures s.UpdateItem(updated).0.Valid() && s.UpdateItem(updated).0.nextItemID == s.nextItemID
  {
    var id := updated.itemID;
    if id in s.items {
      var prior := s.items[id];
      NamesAfterReplace(s.nameToId, s.items, id, updated);
      ExactAfterReplace(s.byType, s.items, TypeOf, id, updated);
      ExactAfterReplace(s.byRarity, s.items, RarityOf, id, updated);
      UnindexTagsClears(s.byTag, prior.tags, updated.tags, id);
      IndexTagsCovers(UnindexTags(s.byTag, prior.tags, updated.tags, id), updated.tags, prior.tags, id);
    }
  }

  /** `UpdateItem` on a valid store: refused exactly for an unknown ID; otherwise the item
      is replaced and found by ID, a changed name finds it, every other item is unchanged,
      and each tag it gained is indexed for it. */
  lemma UpdateItemOutcome(s: ItemStore, updated: Item)
    requires s.Valid()
    ensures var (r, ok) := s.UpdateItem(updated);
      (ok <==> updated.itemID in s.items) && (!ok ==> r == s)
    ensures updated.itemID in s.items ==>
      var (r, ok) := s.UpdateItem(updated);
      var id := updated.itemID;
      r.GetItem(id) == updated && r.items.Keys == s.items.Keys
      && (forall j :: j in s.items && j != id ==> r.GetItem(j) == s.GetItem(j))
      && (updated.itemName != s.items[id].itemName && updated.itemName != "" ==> r.GetItemByName(updated.itemName) == updated)
      && (forall t :: t in updated.tags && !s.items[id].HasTag(t) ==> ToLower(t) in r.byTag && id in r.byTag[ToLower(t)])
  {
    var id := updated.itemID;
    if id in s.items {
      var prior := s.items[id];
      UnindexTagsClears(s.byTag, prior.tags, updated.tags, id);
      IndexTagsCovers(UnindexTags(s.byTag, prior.tags, updated.tags, id), updated.tags, prior.tags, id);
    }
  }

  /** `DeleteItem` keeps the store valid and the counter unchanged. */
  lemma DeleteItemKeepsValid(s: ItemStore, id: int)
    requires s.Valid()
    ensures s.DeleteItem(id).0.Valid() && s.DeleteItem(id).0.nextItemID == s.nextItemID
  {
    if id in s.items {
      var it := s.items[id];
      NamesAfterRemove(s.nameToId, s.items, id);
      ExactAfterRemove(s.byType, s.items, TypeOf, id);
      ExactAfterRemove(s.byRarity, s.items, RarityOf, id);
      UnindexTagsClears(s.byTag, it.tags, [], id);
    }
  }

  /** `DeleteItem` on a valid store: refused exactly for an unknown ID; otherwise the ID is
      gone from the items, no name maps to it, every other item is unchanged, and none of
      its tags' lists holds it. */
  lemma DeleteItemOutcome(s: ItemStore, id: int)
    requires s.Valid()
    ensures var (r, ok) := s.DeleteItem(id); (ok <==> id in s.items) && (!ok ==> r == s)
    ensures id in s.items ==>
      var (r, ok) := s.DeleteItem(id);
      r.items.Keys == s.items.Keys - {id} && r.GetItem(id) == DefaultItem
      && (forall k :: k in r.nameToId ==> r.nameToId[k] != id)
      && (forall j :: j in r.items ==> r.GetItem(j) == s.GetItem(j))
      && (forall t :: t in s.items[id].tags && ToLower(t) in r.byTag ==> id !in r.byTag[ToLower(t)])
  {
    if id in s.items {
      NamesAfterRemove(s.nameToId, s.items, id);
      UnindexTagsClears(s.byTag, s.items[id].tags, [], id);
    }
  }

  /** `AddTagToItem` keeps the store valid and the counter unchanged. */
  lemma AddTagKeepsValid(s: ItemStore, id: int, tag: string)
    requires s.Valid()
    ensures s.AddTagToItem(id, tag).0.Valid() && s.AddTagToItem(id, tag).0.nextItemID == s.nextItemID
  {
    if id in s.items && tag != "" {
      var k := ToLower(tag);
      if k in s.byTag && id !in s.byTag[k] {
        AppendDistinct(s.byTag[k], id);
      }
      var added := s.items[id].AddTag(tag);
      NamesAfterReplace(s.nameToId, s.items, id, added);
      ExactAfterReplace(s.byType, s.items, TypeOf, id, added);
      ExactAfterReplace(s.byRarity, s.items, RarityOf, id, added);
    }
  }

  /** `RemoveTagFromItem` keeps the store valid and the counter unchanged. */
  lemma RemoveTagKeepsValid(s: ItemStore, id: int, tag: string)
    requires s.Valid()
    ensures s.RemoveTagFromItem(id, tag).0.Valid() && s.RemoveTagFromItem(id, tag).0.nextItemID == s.nextItemID
  {
    if id in s.items && tag != "" {
      var k := ToLower(tag);
      if k in s.byTag {
        RemoveFirstDistinct(s.byTag[k], id);
      }
      var removed := s.items[id].RemoveTag(tag).0;
      NamesAfterReplace(s.nameToId, s.items, id, removed);
      ExactAfterReplace(s.byType, s.items, TypeOf, id, removed);
      ExactAfterReplace(s.byRarity, s.items, RarityOf, id, removed);
    }
  }

  /** IDs are never reused: on a valid store every existing ID lies below the counter, a
      `CreateItem` that moves the counter takes its value as the new ID, and the counter
      never goes down. */
  lemma CounterNeverReused(s: ItemStore, name: string, itemType: ItemType, rarity: ItemRarity)
    requires s.Valid()
    ensures forall j :: j in s.items ==> j < s.nextItemID
    ensures var (r, it) := s.CreateItem(name, itemType, rarity);
      r.nextItemID != s.nextItemID ==> it.itemID == s.nextItemID && it.itemID !in s.items && r.nextItemID == it.itemID + 1
    ensures s.CreateItem(name, itemType, rarity).0.nextItemID >= s.nextItemID
  {
  }

  /** No operation other than `CreateItem` moves the counter. */
  lemma CounterKept(s: ItemStore, updated: Item, id: int, tag: string)
    requires s.Valid()
    ensures s.UpdateItem(updated).0.nextItemID == s.nextItemID
    ensures s.DeleteItem(id).0.nextItemID == s.nextItemID
    ensures s.AddTagToItem(id, tag).0.nextItemID == s.nextItemID
    ensures s.RemoveTagFromItem(id, tag).0.nextItemID == s.nextItemID
  {
  }

  /** `AddTagToItem` on a valid store: refused exactly for an unknown ID or the empty tag;
      otherwise the item carries the tag and its case-folded list holds the ID. */
  lemma AddTagOutcome(s: ItemStore, id: int, tag: string)
    ensures var (r, ok) := s.AddTagToItem(id, tag);
      (ok <==> id in s.items && tag != "") && (!ok ==> r == s)
    ensures id in s.items && tag != "" ==>
      var (r, ok) := s.AddTagToItem(id, tag);
      r.GetItem(id) == s.items[id].AddTag(tag) && r.GetItem(id).HasTag(tag)
      && ToLower(tag) in r.byTag && id in r.byTag[ToLower(tag)]
  {
  }

  /** `RemoveTagFromItem` on a valid store: succeeds exactly when the item has the tag;
      then the tag's first copy leaves the item and the ID leaves the tag's list. */
  lemma RemoveTagOutcome(s: ItemStore, id: int, tag: string)
    requires s.Valid()
    ensures var (r, ok) := s.RemoveTagFromItem(id, tag);
      (ok <==> id in s.items && s.items[id].HasTag(tag)) && (!ok ==> r == s)
    ensures id in s.items && s.items[id].HasTag(tag) ==>
      var (r, ok) := s.RemoveTagFromItem(id, tag);
      r.GetItem(id) == s.items[id].RemoveTag(tag).0
      && (ToLower(tag) in r.byTag ==> id !in r.byTag[ToLower(tag)])
  {
    var k := ToLower(tag);
    if id in s.items && s.items[id].HasTag(tag) && k in s.byTag {
      RemoveFirstDistinct(s.byTag[k], id);
    }
  }

  /** The three steps that leave an item tagged "Melee" with no "melee" list: add "Melee",
      add "melee" (a different tag to the item, the same list to the index), remove
      "melee". */
  function CaseVariantStore(): ItemStore {
    var s1 := EmptyStore.CreateItem("Sword", Weapon, Common).0;
    var s2 := s1.AddTagToItem(1, "Melee").0;
    var s3 := s2.AddTagToItem(1, "melee").0;
    s3.RemoveTagFromItem(1, "melee").0
  }

  lemma LowerMelee()
    ensures ToLower("Melee") == "melee" && ToLower("melee") == "melee"
  {
    assert ToLower("Melee") == [LowerChar('M')] + ToLower("elee");
    assert ToLower("melee") == [LowerChar('m')] + ToLower("elee");
  }

  const Sword := NewItem(1, "Sword", Weapon, Common)

  /** The store after each step, written out. */
  const CaseStep1 := EmptyStore.(items := map[1 := Sword], nameToId := map[ToLower("Sword") := 1],
                                 byType := map[Weapon := [1]], byRarity := map[Common := [1]], nextItemID := 2)
  const CaseStep2 := CaseStep1.(items := map[1 := Sword.(tags := ["Melee"])], byTag := map["melee" := [1]])
  const CaseStep3 := CaseStep1.(items := map[1 := Sword.(tags := ["Melee", "melee"])], byTag := map["melee" := [1]])
  const CaseStep4 := CaseStep1.(items := map[1 := Sword.(tags := ["Melee"])])

  lemma CaseStepOne()
    ensures EmptyStore.CreateItem("Sword", Weapon, Common).0 == CaseStep1
  {
    var none: seq<int> := [];
    assert none + [1] == [1];
    var types: map<ItemType, seq<int>> := map[];
    var rarities: map<ItemRarity, seq<int>> := map[];
    assert AppendAt(types, Weapon, 1) == map[Weapon := [1]];
    assert AppendAt(rarities, Common, 1) == map[Common := [1]];
  }

  lemma CaseStepTwo()
    ensures CaseStep1.AddTagToItem(1, "Melee").0 == CaseStep2
  {
    LowerMelee();
    var none: seq<int> := [];
    assert none + [1] == [1];
    var tags: map<string, seq<int>> := map[];
    assert AppendAt(tags, "melee", 1) == map["melee" := [1]];
    var noTags: seq<string> := [];
    assert noTags + ["Melee"] == ["Melee"];
    assert Sword.AddTag("Melee") == Sword.(tags := ["Melee"]);
    assert map[1 := Sword][1 := Sword.AddTag("Melee")] == map[1 := Sword.(tags := ["Melee"])];
  }

  lemma CaseStepThree()
    ensures CaseStep2.AddTagToItem(1, "melee").0 == CaseStep3
  {
    LowerMelee();
    var it := Sword.(tags := ["Melee"]);
    assert "melee" !in it.tags;
    assert it.AddTag("melee") == Sword.(tags := ["Melee", "melee"]);
    assert map[1 := it][1 := it.AddTag("melee")] == map[1 := Sword.(tags := ["Melee", "melee"])];
  }

  /** The item loses its second tag. */
  lemma CaseStepFourItem()
    ensures Sword.(tags := ["Melee", "melee"]).RemoveTag("melee") == (Sword.(tags := ["Melee"]), true)
  {
    var tags: seq<string> := ["Melee", "melee"];
    assert "melee" in tags;
    assert IndexOfElem(tags, "melee") == 1;
    assert RemoveFirst(tags, "melee") == ["Melee"];
  }

  /** The shared list loses the ID, and the list left empty goes. */
  lemma CaseStepFourIndex()
    ensures IndexRemove(map["melee" := [1]], "melee", 1) == map[]
  {
    LowerMelee();
    var l: seq<int> := [1];
    assert IndexOfElem(l, 1) == 0;
    assert RemoveFirst(l, 1) == [];
    assert map["melee" := [1]] - {"melee"} == map[];
  }

  lemma CaseStepFour()
    ensures CaseStep3.RemoveTagFromItem(1, "melee").0 == CaseStep4
  {
    CaseStepFourItem();
    CaseStepFourIndex();
    var s := CaseStep3;
    var it := Sword.(tags := ["Melee", "melee"]);
    var kept := Sword.(tags := ["Melee"]);
    assert s.items == map[1 := it] && s.byTag == map["melee" := [1]];
    assert s.items[1 := kept] == map[1 := kept];
    assert s.RemoveTagFromItem(1, "melee").0 == s.(items := map[1 := kept], byTag := map[]);
  }

  lemma CaseStepFourValid()
    ensures CaseStep4.Valid()
  {
    var s := CaseStep4;
    assert NamesPointAtItems(s.nameToId, s.items);
    assert ListsExact(s.byType, s.items, TypeOf);
    assert ListsExact(s.byRarity, s.items, RarityOf);
  }

  /** As written, deleting (or untagging) that item throws: its remaining tag has no
      list. With missing lists skipped, the deletion succeeds. */
  lemma CaseVariantIsStepFour()
    ensures CaseVariantStore() == CaseStep4
  {
    CaseStepOne();
    CaseStepTwo();
    CaseStepThree();
    CaseStepFour();
  }

  lemma CaseStepFourBreaks()
    ensures CaseStep4.Valid()
    ensures CaseStep4.DeleteItemAsWritten(1) == None
    ensures CaseStep4.RemoveTagFromItemAsWritten(1, "Melee") == None
    ensures CaseStep4.DeleteItem(1).1
  {
    CaseStepFourValid();
    LowerMelee();
    var tags: seq<string> := ["Melee"];
    assert tags[..0] == [];
    assert UnindexTagsAsWritten(map[], tags, [], 1) == None;
    assert Sword.(tags := tags).HasTag("Melee");
  }

  lemma CaseVariantTagBreaksDelete()
    ensures CaseVariantStore().Valid()
    ensures 1 in CaseVariantStore().items && CaseVariantStore().items[1].tags == ["Melee"]
    ensures "melee" !in CaseVariantStore().byTag
    ensures CaseVariantStore().DeleteItemAsWritten(1) == None
    ensures CaseVariantStore().RemoveTagFromItemAsWritten(1, "Melee") == None
    ensures CaseVariantStore().DeleteItem(1).1
  {
    CaseVariantIsStepFour();
    CaseStepFourValid();
    CaseStepFourBreaks();
  }

  lemma CaseStepThreeValid()
    ensures CaseStep3.Valid()
  {
    var s := CaseStep3;
    assert NamesPointAtItems(s.nameToId, s.items);
    assert ListsExact(s.byType, s.items, TypeOf);
    assert ListsExact(s.byRarity, s.items, RarityOf);
    assert Distinct(s.byTag["melee"]);
  }

  /** As written, an update that drops both case variants of a tag throws on the second:
      removing the first empties and deletes the list the two share. With missing lists
      skipped, the update succeeds. */
  lemma CaseVariantTagBreaksUpdate()
    ensures CaseStep3 == EmptyStore.CreateItem("Sword", Weapon, Common).0
                           .AddTagToItem(1, "Melee").0.AddTagToItem(1, "melee").0
    ensures CaseStep3.Valid() && CaseStep3.items[1].tags == ["Melee", "melee"]
    ensures Sword.itemID == 1 && Sword.tags == []
    ensures CaseStep3.UpdateItemAsWritten(Sword) == None
    ensures CaseStep3.UpdateItem(Sword).1
  {
    CaseStepOne();
    CaseStepTwo();
    CaseStepThree();
    CaseStepThreeValid();
    CaseStepFourIndex();
    LowerMelee();
    var tags: seq<string> := ["Melee", "melee"];
    var none: seq<string> := [];
    assert tags[..1] == ["Melee"] && tags[..1][..0] == [];
    assert UnindexTagsAsWritten(map["melee" := [1]], tags[..1], none, 1) == Some(map[]);
    assert UnindexTagsAsWritten(map["melee" := [1]], tags, none, 1) == None;
  }

  // ---------------------------------------------------------------- the repository

  /** The static class's fields, updated in place by each operation. */
  class ItemRepository {
    var items: map<int, Item>
    var nameToId: map<string, int>
    var byType: map<ItemType, seq<int>>
    var byRarity: map<ItemRarity, seq<int>>
    var byTag: map<string, seq<int>>
    var nextItemID: int
    var isInitialized: bool

    function State(): ItemStore
      reads this
    {
      ItemStore(items, nameToId, byType, byRarity, byTag, nextItemID, isInitialized)
    }

    predicate Valid()
      reads this
    {
      State().Valid()
    }

    /** The fields' initial values. */
    constructor()
      ensures State() == EmptyStore && Valid()
    {
      items, nameToId, byType, byRarity, byTag := map[], map[], map[], map[], map[];
      nextItemID, isInitialized := 1, false;
    }

    /** `CreateItem`. The weight, base value, stack size and description arguments are
        accepted and, as in the repository, not applied to the new item. */
    method CreateItem(name: string, itemType: ItemType, rarity: ItemRarity,
                      weight: real, baseValue: int, maxStackSize: int, description: string)
      returns (item: Item)
      requires Valid()
      modifies this
      ensures (State(), item) == old(State()).CreateItem(name, itemType, rarity)
      ensures Valid() && nextItemID >= old(nextItemID)
    {
      CreateItemKeepsValid(State(), name, itemType, rarity);
      item := CreateItemFields(name, itemType, rarity);
    }

    /** The field updates of `CreateItem`. */
    method CreateItemFields(name: string, itemType: ItemType, rarity: ItemRarity) returns (item: Item)
      modifies this
      ensures (State(), item) == old(State()).CreateItem(name, itemType, rarity)
    {
      if name == "" {
        return DefaultItem;
      }
      if ToLower(name) in nameToId {
        return State().GetItemByName(name);
      }
      item := AddNewItem(name, itemType, rarity);
    }

    /** `CreateItem` for a name not yet taken: the counter's ID goes to a new item, which
        enters every map, and the counter moves on. */
    method AddNewItem(name: string, itemType: ItemType, rarity: ItemRarity) returns (item: Item)
      requires name != "" && ToLower(name) !in nameToId
      modifies this
      ensures (State(), item) == old(State()).CreateItem(name, itemType, rarity)
    {
      var id := nextItemID;
      item := NewItem(id, name, itemType, rarity);
      items, nameToId := items[id := item], nameToId[ToLower(name) := id];
      byType, byRarity := AppendAt(byType, itemType, id), AppendAt(byRarity, rarity, id);
      nextItemID := id + 1;
    }

    /** The removal loop of `UpdateTagMappings` and `DeleteItem`: `id` leaves the list of
        each tag of `tags` that `kept` lacks. */
    method UnindexItemTags(tags: seq<string>, kept: seq<string>, id: int)
      modifies this`byTag
      ensures byTag == UnindexTags(old(byTag), tags, kept, id)
    {
      var i := 0;
      while i < |tags|
        invariant 0 <= i <= |tags|
        invariant byTag == UnindexTags(old(byTag), tags[..i], kept, id)
      {
        assert tags[..i + 1][..i] == tags[..i];
        if !Tagged(kept, tags[i]) {
          byTag := IndexRemove(byTag, tags[i], id);
        }
        i := i + 1;
      }
      assert tags[..|tags|] == tags;
    }

    /** The adding loop of `UpdateTagMappings`: `id` joins the list of each tag of `tags`
        that `kept` lacks. */
    method IndexItemTags(tags: seq<string>, kept: seq<string>, id: int)
      modifies this`byTag
      ensures byTag == IndexTags(old(byTag), tags, kept, id)
    {
      var i := 0;
      while i < |tags|
        invariant 0 <= i <= |tags|
        invariant byTag == IndexTags(old(byTag), tags[..i], kept, id)
      {
        assert tags[..i + 1][..i] == tags[..i];
        var t := tags[i];
        if !Tagged(kept, t) {
          var k := ToLower(t);
          if k !in byTag {
            byTag := byTag[k := []];
          }
          if id !in byTag[k] {
            byTag := byTag[k := byTag[k] + [id]];
          }
        }
        i := i + 1;
      }
      assert tags[..|tags|] == tags;
    }

    /** `UpdateTagMappings`: the old item's ID leaves the tags the new item dropped, then
        the new item's ID joins the tags it gained. */
    method UpdateTagMappings(oldItem: Item, newItem: Item)
      modifies this`byTag
      ensures byTag == IndexTags(UnindexTags(old(byTag), oldItem.tags, newItem.tags, oldItem.itemID),
                                 newItem.tags, oldItem.tags, newItem.itemID)
    {
      UnindexItemTags(oldItem.tags, newItem.tags, oldItem.itemID);
      IndexItemTags(newItem.tags, oldItem.tags, newItem.itemID);
    }

    /** `UpdateItem`. */
    method UpdateItem(updated: Item) returns (ok: bool)
      requires Valid()
      modifies this
      ensures (State(), ok) == old(State()).UpdateItem(updated)
      ensures Valid()
    {
      UpdateItemKeepsValid(State(), updated);
      ok := UpdateItemFields(updated);
    }

    /** The field updates of `UpdateItem`. */
    method UpdateItemFields(updated: Item) returns (ok: bool)
      requires Valid()
      modifies this
      ensures (State(), ok) == old(State()).UpdateItem(updated)
    {
      ghost var target := State().UpdateItem(updated).0;
      var id := updated.itemID;
      if id !in items {
        return false;
      }
      var prior := items[id];
      assert prior.itemID == id && TypeOf(prior) in byType && RarityOf(prior) in byRarity;
      nameToId := Renamed(nameToId, prior, updated);
      byType := Rekeyed(byType, prior.itemType, updated.itemType, id);
      byRarity := Rekeyed(byRarity, prior.itemRarity, updated.itemRarity, id);
      ghost var expected := State().(byTag := target.byTag, items := target.items);
      assert expected == target;
      UpdateTagMappings(prior, updated);
      items := items[id := updated];
      ok := true;
      assert State() == expected;
    }

    /** `DeleteItem`. */
    method DeleteItem(id: int) returns (ok: bool)
      requires Valid()
      modifies this
      ensures (State(), ok) == old(State()).DeleteItem(id)
      ensures Valid()
    {
      DeleteItemKeepsValid(State(), id);
      ok := DeleteItemFields(id);
    }

    /** The field updates of `DeleteItem`. */
    method DeleteItemFields(id: int) returns (ok: bool)
      requires Valid()
      modifies this
      ensures (State(), ok) == old(State()).DeleteItem(id)
    {
      ghost var target := State().DeleteItem(id).0;
      if id !in items {
        return false;
      }
      var item := items[id];
      assert TypeOf(item) in byType && RarityOf(item) in byRarity;
      nameToId := nameToId - {ToLower(item.itemName)};
      byType := RemoveAt(byType, item.itemType, id);
      byRarity := RemoveAt(byRarity, item.itemRarity, id);
      ghost var expected := State().(byTag := target.byTag, items := target.items);
      assert expected == target;
      UnindexItemTags(item.tags, [], id);
      items := items - {id};
      ok := true;
      assert State() == expected;
    }

    /** `AddTagToItem`: the tag goes on the stored item (the inner `UpdateItem` only writes
        it back, since the old and new copies share one tag list), then into the index. */
    method AddTagToItem(id: int, tag: string) returns (ok: bool)
      requires Valid()
      modifies this
      ensures (State(), ok) == old(State()).AddTagToItem(id, tag)
      ensures Valid()
    {
      AddTagKeepsValid(State(), id, tag);
      ok := AddTagFields(id, tag);
    }

    /** The field updates of `AddTagToItem`. */
    method AddTagFields(id: int, tag: string) returns (ok: bool)
      modifies this
      ensures (State(), ok) == old(State()).AddTagToItem(id, tag)
    {
      ghost var target := State().AddTagToItem(id, tag).0;
      if id !in items || tag == "" {
        return false;
      }
      items := items[id := items[id].AddTag(tag)];
      var k := ToLower(tag);
      ghost var before := byTag;
      if k !in byTag {
        byTag := byTag[k := []];
      }
      if id !in byTag[k] {
        byTag := byTag[k := byTag[k] + [id]];
      }
      assert byTag == IndexAdd(before, tag, id);
      ok := true;
      assert items == target.items && byTag == target.byTag;
      assert State() == target;
    }

    /** `AddTagToItemByName`. */
    method AddTagToItemByName(name: string, tag: string) returns (ok: bool)
      requires Valid()
      modifies this
      ensures (State(), ok) == old(State()).AddTagToItemByName(name, tag)
      ensures Valid()
    {
      if ToLower(name) !in nameToId {
        return false;
      }
      ok := AddTagToItem(nameToId[ToLower(name)], tag);
    }

    /** `RemoveTagFromItem`, with a missing tag entry skipped. */
    method RemoveTagFromItem(id: int, tag: string) returns (ok: bool)
      requires Valid()
      modifies this
      ensures (State(), ok) == old(State()).RemoveTagFromItem(id, tag)
      ensures Valid()
    {
      RemoveTagKeepsValid(State(), id, tag);
      ok := RemoveTagFields(id, tag);
    }

    /** The field updates of `RemoveTagFromItem`. */
    method RemoveTagFields(id: int, tag: string) returns (ok: bool)
      modifies this
      ensures (State(), ok) == old(State()).RemoveTagFromItem(id, tag)
    {
      if id !in items || tag == "" {
        return false;
      }
      var r := items[id].RemoveTag(tag);
      if !r.1 {
        return false;
      }
      items := items[id := r.0];
      var k := ToLower(tag);
      if k in byTag {
        var rest := RemoveFirst(byTag[k], id);
        if rest == [] {
          byTag := byTag - {k};
        } else {
          byTag := byTag[k := rest];
        }
      }
      ok := true;
    }

    /** `ClearAll`: every map emptied, the counter back to 1, not initialised. */
    method ClearAll()
      modifies this
      ensures State() == EmptyStore && Valid()
    {
      items, nameToId, byType, byRarity, byTag := map[], map[], map[], map[], map[];
      nextItemID, isInitialized := 1, false;
    }
  }
}
