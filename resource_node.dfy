// A harvestable node in the world (a berry bush, a tree): harvesting takes whole units
// until it is empty, and an empty node regrows to its full quantity once the regrowth
// time has passed.
module ResourceNodes {

  function Min(a: int, b: int): (m: int)
    ensures m <= a && m <= b
    ensures m == a || m == b
  {
    if a < b then a else b
  }

  /** A harvest from `current` units: refused on an empty node; otherwise up to `amount`
      units are taken and it succeeds, however few were left. */
  function Harvested(current: int, amount: int): (r: (int, bool))
    ensures r.1 <==> current > 0
    ensures !r.1 ==> r.0 == current
    ensures r.1 && amount >= current ==> r.0 == 0
    ensures r.1 && amount < current ==> r.0 == current - amount
  {
    if current <= 0 then (current, false) else (current - Min(amount, current), true)
  }

  /** The regrowth clock of one frame: `(quantity, timer)` after `dt` seconds on a node
      holding `current` units. */
  function Regrown(current: int, timer: real, quantity: int, regrowthTime: real, dt: real): (r: (int, real))
    ensures current > 0 ==> r == (current, timer)
    ensures 0 <= current <= quantity ==> 0 <= r.0 <= quantity
    ensures r.0 != current ==> r == (quantity, 0.0)
    ensures current <= 0 ==> (r.0 == quantity && r.1 == 0.0) || r == (current, timer + dt)
    ensures current <= 0 ==> (r.1 == 0.0 <==> timer + dt >= regrowthTime || timer + dt == 0.0)
    ensures current <= 0 && regrowthTime > 0.0 ==> r.1 < regrowthTime
  {
    if current > 0 then (current, timer)
    else if timer + dt >= regrowthTime then (quantity, 0.0)
    else (current, timer + dt)
  }

  /** Harvesting a non-negative amount keeps a node with `0 <= current <= quantity` so;
      harvesting a full node by its quantity empties it and a regrowth period refills it. */
  lemma HarvestThenRegrow(quantity: int, regrowthTime: real, current: int, amount: int)
    requires 0 <= current <= quantity && amount >= 0
    ensures 0 <= Harvested(current, amount).0 <= current
    ensures quantity > 0 && regrowthTime >= 0.0 ==>
      Harvested(quantity, quantity) == (0, true) &&
      Regrown(0, 0.0, quantity, regrowthTime, regrowthTime) == (quantity, 0.0)
  {
  }

  class ResourceNode {
    const resourceId: string
    const quantity: int
    const regrowthTime: real
    var currentQuantity: int
    var timer: real

    /** The node holds between nothing and its full quantity. */
    predicate Valid()
      reads this
    {
      0 <= currentQuantity <= quantity
    }

    /** The serialized defaults: ten units regrowing after thirty seconds; a node holds
        nothing until `Start`. */
    constructor(resourceId: string)
      ensures this.resourceId == resourceId && quantity == 10 && regrowthTime == 30.0
      ensures currentQuantity == 0 && timer == 0.0 && Valid()
    {
      this.resourceId := resourceId;
      quantity, regrowthTime := 10, 30.0;
      currentQuantity, timer := 0, 0.0;
    }

    method Start()
      modifies this`currentQuantity
      ensures currentQuantity == quantity
      ensures quantity >= 0 ==> Valid()
    {
      currentQuantity := quantity;
    }

    /** `Update`: an empty node counts the frame time and refills once the regrowth time
        is reached, restarting the count; a node with units left is untouched. */
    method Update(deltaTime: real)
      modifies this`currentQuantity, this`timer
      ensures (currentQuantity, timer) == Regrown(old(currentQuantity), old(timer), quantity, regrowthTime, deltaTime)
      ensures old(Valid()) ==> Valid()
    {
      if currentQuantity <= 0 {
        timer := timer + deltaTime;
        if timer >= regrowthTime {
          currentQuantity := quantity;
          timer := 0.0;
        }
      }
    }

    method Harvest(amount: int) returns (ok: bool)
      modifies this`currentQuantity
      ensures (currentQuantity, ok) == Harvested(old(currentQuantity), amount)
      ensures old(Valid()) && amount >= 0 ==> Valid()
    {
      if currentQuantity <= 0 {
        return false;
      }
      var harvested := Min(amount, currentQuantity);
      currentQuantity := currentQuantity - harvested;
      return true;
    }
  }
}
