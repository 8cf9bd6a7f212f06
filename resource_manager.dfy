// The global stock of food, faith and wood: guarded spending, adding (food with the
// efficient-gathering bonus), the two faith purchases and the save/load setters.
module Resources {

  /** A guarded spend: it succeeds exactly when the stock covers the amount, and then takes
      exactly that amount off; otherwise the stock is kept. */
  function Consumed(stock: real, amount: real): (r: (real, bool))
    ensures r.1 <==> stock >= amount
    ensures r.1 ==> r.0 == stock - amount
    ensures !r.1 ==> r.0 == stock
  {
    if stock >= amount then (stock - amount, true) else (stock, false)
  }

  /** Food actually added for a gathered amount: half as much again once efficient
      gathering is researched. */
  function FoodGained(amount: real, efficient: bool): (g: real)
    ensures !efficient ==> g == amount
    ensures efficient ==> g == 1.5 * amount
    ensures amount >= 0.0 ==> g >= amount
  {
    if efficient then amount * 1.5 else amount
  }

  /** On a non-negative stock, spending what was just added succeeds and gives the stock
      back; a spend of a non-negative amount never leaves a negative stock. */
  lemma AddThenConsume(stock: real, amount: real)
    ensures stock >= 0.0 ==> Consumed(stock + amount, amount) == (stock, true)
    ensures amount >= 0.0 && stock >= 0.0 ==> Consumed(stock, amount).0 >= 0.0
  {
  }

  class ResourceManager {
    var currentFood: real
    var currentFaithPoints: real
    var currentWood: real
    var hasEfficientGathering: bool

    /** No stock is negative. */
    predicate NonNegative()
      reads this
    {
      currentFood >= 0.0 && currentFaithPoints >= 0.0 && currentWood >= 0.0
    }

    /** The serialized defaults: 50 food, 10 faith, no wood, no research. */
    constructor()
      ensures currentFood == 50.0 && currentFaithPoints == 10.0 && currentWood == 0.0
      ensures !hasEfficientGathering && NonNegative()
    {
      currentFood, currentFaithPoints, currentWood := 50.0, 10.0, 0.0;
      hasEfficientGathering := false;
    }

    method ConsumeFood(amount: real) returns (ok: bool)
      modifies this`currentFood
      ensures (currentFood, ok) == Consumed(old(currentFood), amount)
      ensures old(NonNegative()) && amount >= 0.0 ==> NonNegative()
    {
      if currentFood >= amount {
        currentFood := currentFood - amount;
        return true;
      }
      return false;
    }

    method AddFood(amount: real)
      modifies this`currentFood
      ensures currentFood == old(currentFood) + FoodGained(amount, hasEfficientGathering)
      ensures old(NonNegative()) && amount >= 0.0 ==> NonNegative()
    {
      var gained := amount;
      if hasEfficientGathering {
        gained := gained * 1.5;
      }
      currentFood := currentFood + gained;
    }

    method ConsumeFaith(amount: real) returns (ok: bool)
      modifies this`currentFaithPoints
      ensures (currentFaithPoints, ok) == Consumed(old(currentFaithPoints), amount)
      ensures old(NonNegative()) && amount >= 0.0 ==> NonNegative()
    {
      if currentFaithPoints >= amount {
        currentFaithPoints := currentFaithPoints - amount;
        return true;
      }
      return false;
    }

    method AddFaith(amount: real)
      modifies this`currentFaithPoints
      ensures currentFaithPoints == old(currentFaithPoints) + amount
      ensures old(NonNegative()) && amount >= 0.0 ==> NonNegative()
    {
      currentFaithPoints := currentFaithPoints + amount;
    }

    method AddWood(amount: real)
      modifies this`currentWood
      ensures currentWood == old(currentWood) + amount
      ensures old(NonNegative()) && amount >= 0.0 ==> NonNegative()
    {
      currentWood := currentWood + amount;
    }

    method ConsumeWood(amount: real) returns (ok: bool)
      modifies this`currentWood
      ensures (currentWood, ok) == Consumed(old(currentWood), amount)
      ensures old(NonNegative()) && amount >= 0.0 ==> NonNegative()
    {
      if currentWood >= amount {
        currentWood := currentWood - amount;
        return true;
      }
      return false;
    }

    /** `PerformGiftOfSustenance`: when the faith covers the cost, the cost is paid and the
        food gained as gathered food; otherwise nothing changes. */
    method PerformGiftOfSustenance(faithCost: real, foodGain: real) returns (ok: bool)
      modifies this`currentFaithPoints, this`currentFood
      ensures ok <==> old(currentFaithPoints) >= faithCost
      ensures ok ==> currentFaithPoints == old(currentFaithPoints) - faithCost
      ensures ok ==> currentFood == old(currentFood) + FoodGained(foodGain, hasEfficientGathering)
      ensures !ok ==> currentFaithPoints == old(currentFaithPoints) && currentFood == old(currentFood)
      ensures old(NonNegative()) && faithCost >= 0.0 && foodGain >= 0.0 ==> NonNegative()
    {
      ok := ConsumeFaith(faithCost);
      if ok {
        AddFood(foodGain);
      }
    }

    /** `ResearchEfficientGathering`: succeeds once, when not yet researched and the faith
        covers the cost; a repeat neither succeeds nor spends faith. */
    method ResearchEfficientGathering(faithCost: real) returns (ok: bool)
      modifies this`currentFaithPoints, this`hasEfficientGathering
      ensures ok <==> !old(hasEfficientGathering) && old(currentFaithPoints) >= faithCost
      ensures ok ==> hasEfficientGathering && currentFaithPoints == old(currentFaithPoints) - faithCost
      ensures !ok ==> hasEfficientGathering == old(hasEfficientGathering) && currentFaithPoints == old(currentFaithPoints)
      ensures old(NonNegative()) && faithCost >= 0.0 ==> NonNegative()
    {
      ok := false;
      if !hasEfficientGathering {
        ok := ConsumeFaith(faithCost);
        if ok {
          hasEfficientGathering := true;
        }
      }
    }

    method SetFood(amount: real)
      modifies this`currentFood
      ensures currentFood == amount
    {
      currentFood := amount;
    }

    method SetFaith(amount: real)
      modifies this`currentFaithPoints
      ensures currentFaithPoints == amount
    {
      currentFaithPoints := amount;
    }

    method SetWood(amount: real)
      modifies this`currentWood
      ensures currentWood == amount
    {
      currentWood := amount;
    }
  }
}
