// A settlement: a stock of named resources in whole units bounded by a storage capacity,
// and a population registry of two parallel lists (the pops and their entity-data
// components) with a population counter. Pops and components are object handles; a
// destroyed or missing one is `None`.
module Settlements {
  import opened Wrappers
  import opened MapSum
  import opened ListStore

  /** The source's `(int)` cast of a float: truncation toward zero. */
  function Trunc(x: real): (r: int)
    ensures x >= 0.0 ==> 0 <= r && r as real <= x < r as real + 1.0
    ensures x < 0.0 ==> r <= 0 && r as real - 1.0 < x <= r as real
  {
    if x >= 0.0 then x.Floor else -((-x).Floor)
  }

  const StartingStock: map<string, int> :=
    map["Food" := 50, "Water" := 100, "Wood" := 25, "Stone" := 10, "Tools" := 5, "Clothing" := 10]

  /** The starting stock fills 200 units of storage. */
  lemma StartingStockUsage()
    ensures Sum(StartingStock) == 200
  {
    var m0: map<string, int> := map[];
    var m1 := m0["Food" := 50];
    var m2 := m1["Water" := 100];
    var m3 := m2["Wood" := 25];
    var m4 := m3["Stone" := 10];
    var m5 := m4["Tools" := 5];
    var m6 := m5["Clothing" := 10];
    SumUpdate(m0, "Food", 50);
    SumUpdate(m1, "Water", 100);
    SumUpdate(m2, "Wood", 25);
    SumUpdate(m3, "Stone", 10);
    SumUpdate(m4, "Tools", 5);
    SumUpdate(m5, "Clothing", 10);
    assert m6 == StartingStock;
  }

  class SettlementManager {
    var settlementName: string
    var populationCap: int
    var currentPopulation: int
    var maxStorageCapacity: int
    var settlementStock: map<string, int>
    var livingPops: seq<Option<int>>
    var entityComponents: seq<Option<int>>

    /** Units in storage, `StorageUsed`. */
    ghost function Used(): int
      reads this
    {
      Sum(settlementStock)
    }

    /** The storage bound. */
    ghost predicate WithinCapacity()
      reads this
    {
      Used() <= maxStorageCapacity
    }

    predicate StockNonNegative()
      reads this
    {
      forall r :: r in settlementStock ==> settlementStock[r] >= 0
    }

    /** The counter and the two lists agree. */
    predicate Registered()
      reads this
    {
      currentPopulation == |livingPops| == |entityComponents|
    }

    /** The serialized defaults: an empty settlement for twenty pops and 1000 units. */
    constructor()
      ensures settlementName == "New Settlement" && populationCap == 20 && maxStorageCapacity == 1000
      ensures currentPopulation == 0 && livingPops == [] && entityComponents == [] && settlementStock == map[]
      ensures Registered() && StockNonNegative()
    {
      settlementName := "New Settlement";
      populationCap, currentPopulation, maxStorageCapacity := 20, 0, 1000;
      settlementStock, livingPops, entityComponents := map[], [], [];
    }

    /** `StorageUsed`: the summing loop over the stock. */
    method StorageUsed() returns (used: int)
      ensures used == Used()
    {
      used := SumValues(settlementStock);
    }

    /** `InitializeStock`: the six starting resources set. */
    method InitializeStock()
      modifies this`settlementStock
      ensures settlementStock == old(settlementStock) + StartingStock
      ensures old(settlementStock) == map[] ==> Used() == 200
    {
      settlementStock := settlementStock + StartingStock;
      if old(settlementStock) == map[] {
        assert settlementStock == StartingStock;
        StartingStockUsage();
      }
    }

    /** `GetResourceStock`: zero for a resource never stocked. */
    function GetResourceStock(resourceType: string): (n: int)
      reads this
      ensures resourceType !in settlementStock ==> n == 0
      ensures resourceType in settlementStock ==> n == settlementStock[resourceType]
    {
      if resourceType in settlementStock then settlementStock[resourceType] else 0
    }

    /** `AddResource`: refused, changing nothing, when the whole units of the amount would
        overfill the storage; otherwise they are added to the resource, which is created at
        zero if new. An accepted addition always leaves the storage within capacity. */
    method AddResource(resourceType: string, amount: real) returns (ok: bool)
      modifies this`settlementStock
      ensures ok <==> old(Used()) + Trunc(amount) <= maxStorageCapacity
      ensures ok ==> settlementStock == old(settlementStock)[resourceType := old(GetResourceStock(resourceType)) + Trunc(amount)]
      ensures !ok ==> settlementStock == old(settlementStock)
      ensures ok ==> Used() == old(Used()) + Trunc(amount) && WithinCapacity()
      ensures old(WithinCapacity()) ==> WithinCapacity()
      ensures old(StockNonNegative()) && amount >= 0.0 ==> StockNonNegative()
    {
      var used := StorageUsed();
      if used + Trunc(amount) > maxStorageCapacity {
        return false;
      }
      if resourceType !in settlementStock {
        settlementStock := settlementStock[resourceType := 0];
      }
      settlementStock := settlementStock[resourceType := settlementStock[resourceType] + Trunc(amount)];
      SumUpdate(old(settlementStock), resourceType, old(GetResourceStock(resourceType)) + Trunc(amount));
      return true;
    }

    /** `ConsumeResource`: refused, changing nothing, for a resource never stocked or one
        below the amount; otherwise its whole units are taken off, flooring the stock at 0.
        A non-negative amount never raises the storage used. */
    method ConsumeResource(resourceType: string, amount: real) returns (ok: bool)
      modifies this`settlementStock
      ensures ok <==> resourceType in old(settlementStock) && old(settlementStock)[resourceType] as real >= amount
      ensures ok ==> (settlementStock ==
        old(settlementStock)[resourceType := if old(settlementStock)[resourceType] - Trunc(amount) < 0 then 0
                                             else old(settlementStock)[resourceType] - Trunc(amount)])
      ensures !ok ==> settlementStock == old(settlementStock)
      ensures amount >= 0.0 ==> Used() <= old(Used())
      ensures old(WithinCapacity()) && amount >= 0.0 ==> WithinCapacity()
      ensures old(StockNonNegative()) ==> StockNonNegative()
    {
      if resourceType !in settlementStock || (settlementStock[resourceType] as real) < amount {
        return false;
      }
      var left := settlementStock[resourceType] - Trunc(amount);
      if left < 0 {
        left := 0;
      }
      settlementStock := settlementStock[resourceType := left];
      SumUpdate(old(settlementStock), resourceType, left);
      return true;
    }

    /** `RegisterPop`: the pop and its component appended in step, one more pop counted. */
    method RegisterPop(pop: int, component: Option<int>)
      modifies this`livingPops, this`entityComponents, this`currentPopulation
      ensures livingPops == old(livingPops) + [Some(pop)]
      ensures entityComponents == old(entityComponents) + [component]
      ensures currentPopulation == old(currentPopulation) + 1
      ensures old(Registered()) ==> Registered()
    {
      livingPops := livingPops + [Some(pop)];
      entityComponents := entityComponents + [component];
      currentPopulation := currentPopulation + 1;
    }

    /** `SpawnPop` without the scene work: nothing at the cap or without a prefab, nor when
        the new object has no pop; otherwise the pop is registered. Spawning keeps the
        population within the cap. */
    method SpawnPop(hasPrefab: bool, spawned: Option<int>, component: Option<int>)
      modifies this`livingPops, this`entityComponents, this`currentPopulation
      ensures old(currentPopulation) >= populationCap || !hasPrefab || spawned.None? ==>
        livingPops == old(livingPops) && entityComponents == old(entityComponents) && currentPopulation == old(currentPopulation)
      ensures old(currentPopulation) < populationCap && hasPrefab && spawned.Some? ==>
        livingPops == old(livingPops) + [spawned] && entityComponents == old(entityComponents) + [component]
        && currentPopulation == old(currentPopulation) + 1
      ensures old(currentPopulation) <= populationCap ==> currentPopulation <= populationCap
      ensures old(Registered()) ==> Registered()
    {
      if currentPopulation >= populationCap || !hasPrefab {
        return;
      }
      if spawned.Some? {
        RegisterPop(spawned.value, component);
      }
    }

    /** `KillPop`: a null or unregistered pop changes nothing; otherwise the first entry for
        it is removed from both lists and one pop less counted. */
    method KillPop(pop: Option<int>)
      modifies this`livingPops, this`entityComponents, this`currentPopulation
      ensures pop.None? || pop !in old(livingPops) ==>
        livingPops == old(livingPops) && entityComponents == old(entityComponents) && currentPopulation == old(currentPopulation)
      ensures pop.Some? && pop in old(livingPops) ==>
        var i := IndexOfElem(old(livingPops), pop);
        livingPops == RemoveIndex(old(livingPops), i)
        && entityComponents == (if i < |old(entityComponents)| then RemoveIndex(old(entityComponents), i) else old(entityComponents))
        && currentPopulation == old(currentPopulation) - 1
      ensures old(Registered()) ==> Registered()
    {
      if pop.None? {
        return;
      }
      var index := IndexOfElem(livingPops, pop);
      if index >= 0 {
        livingPops := RemoveIndex(livingPops, index);
        if index < |entityComponents| {
          entityComponents := RemoveIndex(entityComponents, index);
        }
        currentPopulation := currentPopulation - 1;
      }
    }

    /** `RemoveNullPop`: the entry at the index goes from both lists and one pop less is
        counted. */
    method RemoveNullPop(index: int)
      requires 0 <= index < |livingPops|
      modifies this`livingPops, this`entityComponents, this`currentPopulation
      ensures livingPops == RemoveIndex(old(livingPops), index)
      ensures entityComponents == (if index < |old(entityComponents)| then RemoveIndex(old(entityComponents), index) else old(entityComponents))
      ensures currentPopulation == old(currentPopulation) - 1
      ensures old(Registered()) ==> Registered()
    {
      livingPops := RemoveIndex(livingPops, index);
      if index < |entityComponents| {
        entityComponents := RemoveIndex(entityComponents, index);
      }
      currentPopulation := currentPopulation - 1;
    }

    method SetSettlementName(newName: string)
      modifies this`settlementName
      ensures settlementName == newName
    {
      settlementName := newName;
    }

    method UpgradePopulationCap(increase: int)
      modifies this`populationCap
      ensures populationCap == old(populationCap) + increase
    {
      populationCap := populationCap + increase;
    }

    method UpgradeStorageCapacity(increase: int)
      modifies this`maxStorageCapacity
      ensures maxStorageCapacity == old(maxStorageCapacity) + increase
      ensures old(WithinCapacity()) && increase >= 0 ==> WithinCapacity()
    {
      maxStorageCapacity := maxStorageCapacity + increase;
    }
  }

  /** A fraction of a unit is accepted but adds nothing to the resource, even though a new
      resource then appears at zero. */
  lemma FractionAddsNothing(stock: map<string, int>, r: string, amount: real)
    requires 0.0 <= amount < 1.0
    ensures Trunc(amount) == 0
    ensures stock[r := (if r in stock then stock[r] else 0) + Trunc(amount)] ==
      (if r in stock then stock else stock[r := 0])
  {
  }
}
