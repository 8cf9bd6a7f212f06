// Crafting: check that the inventory holds every ingredient, then consume the
// ingredients one by one and add the result item.
module Crafting {
  import opened MapSum
  import opened Inventory

  datatype Ingredient = Ingredient(itemId: ItemId, quantity: int)

  datatype CraftingRecipe = CraftingRecipe(
    recipeId: string, ingredients: seq<Ingredient>, resultItemId: ItemId, resultQuantity: int)

  /** Each ingredient entry, taken on its own, is covered by the stock. */
  predicate Covers(m: map<ItemId, int>, ingredients: seq<Ingredient>) {
    forall i :: 0 <= i < |ingredients| ==> CountOf(m, ingredients[i].itemId) >= ingredients[i].quantity
  }

  /** The stock after removing each ingredient in turn, each removal refusing on its own
      when it finds too few. */
  function ConsumeAll(m: map<ItemId, int>, ingredients: seq<Ingredient>): map<ItemId, int>
    decreases |ingredients|
  {
    if ingredients == [] then m
    else
      var last := ingredients[|ingredients| - 1];
      AfterRemove(ConsumeAll(m, ingredients[..|ingredients| - 1]), last.itemId, last.quantity)
  }

  /** The ingredients name distinct items. */
  predicate DistinctItems(ingredients: seq<Ingredient>) {
    forall i, j :: 0 <= i < j < |ingredients| ==> ingredients[i].itemId != ingredients[j].itemId
  }

  /** With distinct ingredients of non-negative quantity that are covered, every
      ingredient loses exactly its quantity and every other item keeps its count. */
  lemma {:induction false} ConsumeDistinct(m: map<ItemId, int>, ingredients: seq<Ingredient>)
    requires Covers(m, ingredients) && DistinctItems(ingredients)
    requires forall i :: 0 <= i < |ingredients| ==> ingredients[i].quantity >= 0
    ensures forall i :: 0 <= i < |ingredients| ==>
      CountOf(ConsumeAll(m, ingredients), ingredients[i].itemId)
        == CountOf(m, ingredients[i].itemId) - ingredients[i].quantity
    ensures forall id :: (forall i :: 0 <= i < |ingredients| ==> ingredients[i].itemId != id) ==>
      CountOf(ConsumeAll(m, ingredients), id) == CountOf(m, id)
    decreases |ingredients|
  {
    if ingredients != [] {
      var n := |ingredients| - 1;
      var init := ingredients[..n];
      var last := ingredients[n];
      assert forall i :: 0 <= i < n ==> init[i] == ingredients[i];
      ConsumeDistinct(m, init);
      var before := ConsumeAll(m, init);
      assert CountOf(before, last.itemId) == CountOf(m, last.itemId) by {
        assert forall i :: 0 <= i < n ==> init[i].itemId != last.itemId;
      }
      var after := ConsumeAll(m, ingredients);
      assert after == AfterRemove(before, last.itemId, last.quantity);
      forall id | id != last.itemId
        ensures CountOf(after, id) == CountOf(before, id)
      {
      }
      assert CountOf(after, last.itemId) == CountOf(before, last.itemId) - last.quantity by {
        assert last.quantity >= 0;
      }
    }
  }

  /** A recipe that lists the same item twice passes the check entry by entry, but the
      second removal then finds too few and is skipped without a word. */
  lemma RepeatedIngredientConsumedOnce()
    ensures var m := map[1 := 3];
      var ings := [Ingredient(1, 2), Ingredient(1, 2)];
      Covers(m, ings) && ConsumeAll(m, ings) == map[1 := 1]
  {
    var m := map[1 := 3];
    var ings := [Ingredient(1, 2), Ingredient(1, 2)];
    assert ings[..1] == [Ingredient(1, 2)];
    assert ings[..1][..0] == [];
    assert ConsumeAll(m, ings[..1]) == map[1 := 1];
  }

  /** The check covers only the ingredients: a craft whose result does not fit still
      consumes them, and the result item is lost. */
  lemma ResultMayNotFit()
    ensures var m := map[1 := 10];
      var ings := [Ingredient(1, 2)];
      Covers(m, ings) && ConsumeAll(m, ings) == map[1 := 8] &&
      AfterAdd(ConsumeAll(m, ings), 10, 2, 3) == map[1 := 8]
  {
    var m := map[1 := 10];
    var ings := [Ingredient(1, 2)];
    assert ings[..0] == [];
    assert ConsumeAll(m, ings) == AfterRemove(m, 1, 2);
    var after := map[1 := 8];
    assert AfterRemove(m, 1, 2) == after;
    SumRemove(after, 1);
    assert after - {1} == map[];
  }

  class CraftingComponent {
    var inventory: InventoryComponent

    constructor (inventory: InventoryComponent)
      ensures this.inventory == inventory
    {
      this.inventory := inventory;
    }

    /** `CanCraft`: the early-return scan over the ingredient list. */
    method CanCraft(recipe: CraftingRecipe) returns (can: bool)
      ensures can <==> Covers(inventory.items, recipe.ingredients)
    {
      var i := 0;
      while i < |recipe.ingredients|
        invariant 0 <= i <= |recipe.ingredients|
        invariant Covers(inventory.items, recipe.ingredients[..i])
      {
        var ing := recipe.ingredients[i];
        if inventory.GetItemCount(ing.itemId) < ing.quantity {
          return false;
        }
        i := i + 1;
      }
      assert recipe.ingredients[..i] == recipe.ingredients;
      can := true;
    }

    /** `PerformCraft`: consumes the ingredients one by one, then adds the result. The result
        is true once the check passed, whether or not the result item fitted. */
    method PerformCraft(recipe: CraftingRecipe) returns (ok: bool)
      modifies inventory
      ensures inventory.capacity == old(inventory.capacity)
      ensures ok <==> Covers(old(inventory.items), recipe.ingredients)
      ensures !ok ==> inventory.items == old(inventory.items)
      ensures ok ==> inventory.items == AfterAdd(ConsumeAll(old(inventory.items), recipe.ingredients),
                                                 inventory.capacity, recipe.resultItemId, recipe.resultQuantity)
    {
      var can := CanCraft(recipe);
      if !can {
        return false;
      }
      var i := 0;
      while i < |recipe.ingredients|
        invariant 0 <= i <= |recipe.ingredients|
        invariant inventory.capacity == old(inventory.capacity)
        invariant inventory.items == ConsumeAll(old(inventory.items), recipe.ingredients[..i])
      {
        var ing := recipe.ingredients[i];
        assert recipe.ingredients[..i + 1][..i] == recipe.ingredients[..i];
        var _ := inventory.RemoveItem(ing.itemId, ing.quantity);
        i := i + 1;
      }
      assert recipe.ingredients[..i] == recipe.ingredients;
      var _ := inventory.AddItem(recipe.resultItemId, recipe.resultQuantity);
      ok := true;
    }
  }
}
