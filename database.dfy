// The shared game data of the database file: rarity, entity states and their transition
// rule, the entity's own buff record, the entity record with its buff and state
// operations, and the leveling system. Health and Stat are the same structs as in
// `UtilityStructs` and `Stats` and are imported from there. Struct mutators are functions
// from the old value to the new one; the source's loops are methods over those values.
module Entities {
  import opened Wrappers
  import opened ListStore
  import opened UtilityStructs
  import opened Stats

  // ---------------------------------------------------------------- rarity

  datatype Rarity = Common | Uncommon | Rare | Epic | Legendary

  /** The enumerator's integer value. */
  function RarityIndex(r: Rarity): (n: nat)
    ensures n < 5
  {
    match r
    case Common => 0
    case Uncommon => 1
    case Rare => 2
    case Epic => 3
    case Legendary => 4
  }

  /** `GameData.GetRarityByIndex`: the enumerator with that value, Common when out of range. */
  function GetRarityByIndex(index: int): (r: Rarity)
    ensures 0 <= index < 5 ==> RarityIndex(r) == index
    ensures index < 0 || index >= 5 ==> r == Common
  {
    if index < 0 || index >= 5 then Common
    else if index == 0 then Common
    else if index == 1 then Uncommon
    else if index == 2 then Rare
    else if index == 3 then Epic
    else Legendary
  }

  /** Every rarity is found again from its index, and only the in-range indices and the
      out-of-range ones give Common besides index 0. */
  lemma RarityIndexRoundTrip(r: Rarity, i: int)
    ensures GetRarityByIndex(RarityIndex(r)) == r
    ensures GetRarityByIndex(i) == Common <==> i <= 0 || i >= 5
  {
  }

  // ---------------------------------------------------------------- states

  /** The state identifiers used below (the enumerator values). */
  const IdleId := 0
  const DeadId := 19

  datatype State = State(
    stateID: int, stateName: string, stateDescription: string, stateDuration: real,
    priority: int, canBeInterrupted: bool, energyCostPerSecond: real)
  {
    /** `CanTransitionTo`: never to the same state; always out of an interruptible one;
        otherwise only to a higher priority. */
    predicate CanTransitionTo(next: State) {
      if stateID == next.stateID then false
      else if canBeInterrupted then true
      else next.priority > priority
    }
  }

  /** The constructor: no time spent in the state yet. */
  function NewState(id: int, name: string, description: string, priority: int,
                    canBeInterrupted: bool, energyCostPerSecond: real): (s: State)
    ensures s.stateID == id && s.stateName == name && s.stateDescription == description
    ensures s.stateDuration == 0.0 && s.priority == priority && s.canBeInterrupted == canBeInterrupted
  {
    State(id, name, description, 0.0, priority, canBeInterrupted, energyCostPerSecond)
  }

  /** The constructor with its defaults: priority 1, interruptible, no energy cost. */
  function BasicState(id: int, name: string, description: string): (s: State)
    ensures s == NewState(id, name, description, 1, true, 0.0)
  {
    NewState(id, name, description, 1, true, 0.0)
  }

  /** The Idle state every new entity starts in. */
  const IdleState := BasicState(IdleId, "Idle", "Entity is idle and not performing any specific action")

  /** `default(State)`: identifier 0 (Idle), no name, priority 0, not interruptible. */
  const DefaultState := State(0, "", "", 0.0, 0, false, 0.0)

  /** The transition rule, case by case: the same identifier is refused; an interruptible
      state allows any other; between uninterruptible states the rule is a strict order on
      priority, so two of them never allow each other. */
  lemma TransitionRules(a: State, b: State)
    ensures a.stateID == b.stateID ==> !a.CanTransitionTo(b)
    ensures a.stateID != b.stateID && a.canBeInterrupted ==> a.CanTransitionTo(b)
    ensures a.stateID != b.stateID && !a.canBeInterrupted ==> (a.CanTransitionTo(b) <==> b.priority > a.priority)
    ensures !a.canBeInterrupted && !b.canBeInterrupted ==> !(a.CanTransitionTo(b) && b.CanTransitionTo(a))
    ensures !a.CanTransitionTo(a)
  {
  }

  /** `List.Find(s => s.stateID == id)`: the first state with that identifier, or
      `default(State)` when there is none. */
  function FindState(states: seq<State>, id: int): (r: State)
    ensures (exists i :: 0 <= i < |states| && states[i].stateID == id) ==>
      r in states && r.stateID == id
    ensures (forall i :: 0 <= i < |states| ==> states[i].stateID != id) ==> r == DefaultState
    ensures states != [] && states[0].stateID == id ==> r == states[0]
    decreases |states|
  {
    if states == [] then DefaultState
    else if states[0].stateID == id then states[0]
    else
      var r := FindState(states[1..], id);
      assert forall i :: 1 <= i < |states| ==> states[i] == states[1..][i - 1];
      r
  }

  /** Some state in the list has the identifier. */
  predicate HasState(states: seq<State>, id: int) {
    exists i :: 0 <= i < |states| && states[i].stateID == id
  }

  // ---------------------------------------------------------------- buffs

  datatype BuffType = Temporary | Permanent | Debuff

  /** The buff identifiers with an effect on entities (the enumerator values). */
  const HealthRegen := 0
  const ManaRegen := 1
  const SpeedBoost := 2
  const StrengthBoost := 3
  const DefenseBoost := 4

  /** The entity's buff record: a duration of 0 means permanent. */
  datatype Buff = Buff(
    buffID: int, buffName: string, buffDescription: string, buffType: BuffType,
    duration: real, strength: real, tags: seq<string>)

  /** The constructor: no tags. */
  function NewBuff(id: int, name: string, description: string, buffType: BuffType,
                   strength: real, duration: real): (b: Buff)
    ensures b.buffID == id && b.strength == strength && b.duration == duration && b.tags == []
  {
    Buff(id, name, description, buffType, duration, strength, [])
  }

  function BuffIdOf(b: Buff): int { b.buffID }

  // ---------------------------------------------------------------- sizes

  datatype SizeClass = Small | Medium | Large | Huge | Gargantuan

  /** The database's own entity size: a class with radius, height and weight. */
  datatype BodySize = BodySize(size: SizeClass, radius: real, height: real, weight: real)

  /** The fixed sizes (`EntitySize.Small` … `EntitySize.Gargantuan`). */
  function SizeOf(c: SizeClass): (s: BodySize)
    ensures s.size == c && s.radius > 0.0 && s.height == 2.0 * s.radius
  {
    match c
    case Small => BodySize(SizeClass.Small, 0.5, 1.0, 50.0)
    case Medium => BodySize(SizeClass.Medium, 1.0, 2.0, 150.0)
    case Large => BodySize(SizeClass.Large, 1.5, 3.0, 400.0)
    case Huge => BodySize(SizeClass.Huge, 2.0, 4.0, 800.0)
    case Gargantuan => BodySize(SizeClass.Gargantuan, 3.0, 6.0, 1600.0)
  }

  // ---------------------------------------------------------------- entities

  datatype EntityType = Boss | Minion | NPC | PlayerControlled | Animal | Monster

  datatype AggressionType = Passive | Neutral | Aggressive

  /** The stat identifiers (the enumerator values) used by the entity's stats. */
  const HealthStat := 0
  const ManaStat := 1
  const StaminaStat := 2
  const StrengthStat := 3
  const AgilityStat := 4
  const IntelligenceStat := 5
  const DefenseStat := 6
  const SpeedStat := 7
  const CriticalHitChanceStat := 8
  const CriticalHitDamageStat := 9
  const AttackStat := 10
  const MagicPowerStat := 11
  const MagicDefenseStat := 12
  const ExperienceStat := 13
  const LevelStat := 14
  const LuckStat := 15
  const CharismaStat := 16
  const HungerStat := 17
  const ThirstStat := 18
  const EnergyStat := 19
  const RestStat := 20

  /** `float.MaxValue`. */
  const FloatMax: real := 340282346638528859811704183484516925440.0

  /** The entity record. A null state list (`default(Entity)`) is `None`; a null buff list
      behaves as an empty one in every operation and is not told apart. */
  datatype Entity = Entity(
    entityName: string, entityID: int, entityFaction: string, entityDescription: string,
    entityType: seq<EntityType>, rarity: Rarity, spawnChance: real, level: int,
    entitySize: BodySize, aggressionType: AggressionType, health: Health,
    usesMana: bool, isAlive: bool,
    mana: Stat, attack: Stat, defense: Stat, speed: Stat, stamina: Stat, strength: Stat,
    agility: Stat, intelligence: Stat, magicPower: Stat, magicDefense: Stat,
    criticalHitChance: Stat, criticalHitDamage: Stat, luck: Stat, charisma: Stat,
    hunger: Stat, thirst: Stat, energy: Stat, rest: Stat, experience: Stat, levelStat: Stat,
    activeBuffs: seq<Buff>, currentState: State, availableStates: Option<seq<State>>,
    valueModifier: int, experienceModifier: int, tags: seq<string>)
  {
    /** `isInCombat`: attacking (1) or defending (2). */
    predicate IsInCombat() { currentState.stateID == 1 || currentState.stateID == 2 }

    /** `canCraft`. */
    predicate CanCraft() { "CanCraft" in tags }

    /** `ApplyBuff`: the buff is appended and its effect applied at once: health and mana
        regeneration heal, the three boosts raise speed, attack and defense. */
    function ApplyBuff(b: Buff): (r: Entity)
      ensures r.activeBuffs == activeBuffs + [b]
      ensures b.buffID == HealthRegen ==> r == this.(activeBuffs := r.activeBuffs, health := health.Heal(b.strength))
      ensures b.buffID == ManaRegen ==> r == this.(activeBuffs := r.activeBuffs, mana := mana.ModifyStat(b.strength))
      ensures b.buffID == SpeedBoost ==> r == this.(activeBuffs := r.activeBuffs, speed := speed.ModifyStat(b.strength))
      ensures b.buffID == StrengthBoost ==> r == this.(activeBuffs := r.activeBuffs, attack := attack.ModifyStat(b.strength))
      ensures b.buffID == DefenseBoost ==> r == this.(activeBuffs := r.activeBuffs, defense := defense.ModifyStat(b.strength))
      ensures !(0 <= b.buffID <= 4) ==> r == this.(activeBuffs := r.activeBuffs)
    {
      var e := this.(activeBuffs := activeBuffs + [b]);
      if b.buffID == HealthRegen then e.(health := health.Heal(b.strength))
      else if b.buffID == ManaRegen then e.(mana := mana.ModifyStat(b.strength))
      else if b.buffID == SpeedBoost then e.(speed := speed.ModifyStat(b.strength))
      else if b.buffID == StrengthBoost then e.(attack := attack.ModifyStat(b.strength))
      else if b.buffID == DefenseBoost then e.(defense := defense.ModifyStat(b.strength))
      else e
    }

    /** The three stats the boosts act on. */
    function BoostStats(): Boosts { Boosts(speed, attack, defense) }

    /** What `RemoveBuff(id)` leaves: every buff with that identifier gone, the others in
        their order, and the boosts they gave taken back; nothing else changes, so health
        and mana gained from regeneration stay. */
    function WithoutBuff(id: int): (r: Entity)
      ensures r.activeBuffs == RemoveAllBy(activeBuffs, BuffIdOf, id)
      ensures forall i :: 0 <= i < |r.activeBuffs| ==> r.activeBuffs[i].buffID != id
      ensures r == this.(activeBuffs := r.activeBuffs, speed := r.speed, attack := r.attack, defense := r.defense)
    {
      var x := BoostStats().UnapplyEffects(activeBuffs, id);
      this.(activeBuffs := RemoveAllBy(activeBuffs, BuffIdOf, id),
            speed := x.speed, attack := x.attack, defense := x.defense)
    }

    /** `ChangeState` as written: without a state list nothing happens; otherwise the state
        `Find` returns is taken whenever its identifier is the requested one, and for Idle
        (0) that includes the `default(State)` returned when no state matches. */
    function ChangeStateAsWritten(id: int): (r: Entity)
      ensures r == this.(currentState := r.currentState)
      ensures availableStates.None? ==> r == this
    {
      match availableStates
      case None => this
      case Some(states) =>
        var found := FindState(states, id);
        if found.stateID == id then this.(currentState := found) else this
    }

    /** `ChangeState` as intended: the first available state with the identifier becomes
        the current one; without one the entity is unchanged. */
    function ChangeState(id: int): (r: Entity)
      ensures r == this.(currentState := r.currentState)
      ensures availableStates.Some? && HasState(availableStates.value, id) ==>
        r.currentState in availableStates.value && r.currentState.stateID == id
      ensures !(availableStates.Some? && HasState(availableStates.value, id)) ==> r == this
    {
      if availableStates.Some? && HasState(availableStates.value, id) then
        this.(currentState := FindState(availableStates.value, id))
      else this
    }

    /** `Heal`: the health heals. */
    function Heal(amount: real): (r: Entity)
      ensures r == this.(health := health.Heal(amount))
    {
      this.(health := health.Heal(amount))
    }

    /** `TakeDamage`: the damage less the current defense (never negative) is taken; an
        entity left without health is marked dead and tries to change to Dead. */
    function TakeDamage(damage: real): (r: Entity)
      ensures r.health == health.TakeDamage(Max(0.0, damage - defense.currentValue))
      ensures r.health.current > 0.0 ==> r == this.(health := r.health)
      ensures r.health.current <= 0.0 ==> !r.isAlive
      ensures r.health.current <= 0.0 ==>
        r == this.(health := r.health, isAlive := false).ChangeState(DeadId)
      ensures r.health.current <= 0.0 ==>
        r == this.(health := r.health, isAlive := false, currentState := r.currentState)
      ensures (r.health.current <= 0.0 && availableStates.Some? &&
               HasState(availableStates.value, DeadId)) ==>
        r.currentState in availableStates.value && r.currentState.stateID == DeadId
      ensures (r.health.current <= 0.0 &&
               !(availableStates.Some? && HasState(availableStates.value, DeadId))) ==>
        r.currentState == currentState
      ensures damage <= defense.currentValue && 0.0 <= health.current ==> r.health == health
    {
      var h := health.TakeDamage(Max(0.0, damage - defense.currentValue));
      if h.current <= 0.0 then this.(health := h, isAlive := false).ChangeState(DeadId)
      else this.(health := h)
    }
  }

  /** The speed, attack and defense stats, which the boost buffs raise. */
  datatype Boosts = Boosts(speed: Stat, attack: Stat, defense: Stat)
  {
    /** The effect `RemoveBuff` takes back for one removed buff: only the three boosts are
        undone; the regenerations are not. */
    function UnapplyOne(b: Buff): Boosts {
      if b.buffID == SpeedBoost then this.(speed := speed.ModifyStat(-b.strength))
      else if b.buffID == StrengthBoost then this.(attack := attack.ModifyStat(-b.strength))
      else if b.buffID == DefenseBoost then this.(defense := defense.ModifyStat(-b.strength))
      else this
    }

    /** The stat changes of removing the buffs of `s` with identifier `id`, the last one
        first (the source walks the list backwards); entries of other ids, and ids that are
        none of the three boosts, leave the stats alone. */
    function UnapplyEffects(s: seq<Buff>, id: int): (r: Boosts)
      ensures (forall j :: 0 <= j < |s| ==> s[j].buffID != id) ==> r == this
      ensures id != SpeedBoost && id != StrengthBoost && id != DefenseBoost ==> r == this
      decreases |s|
    {
      if s == [] then this
      else
        var rest := UnapplyEffects(s[1..], id);
        if s[0].buffID == id then rest.UnapplyOne(s[0]) else rest
    }
  }

  /** The constructor: the given identity and properties, Medium size and 100 health by
      default, every list empty, the Idle state, and the default stats. */
  function NewEntity(name: string, id: int, faction: string, description: string, rarity: Rarity,
                     spawnChance: real, level: int, size: Option<BodySize>,
                     aggressionType: AggressionType, health: Option<Health>, usesMana: bool,
                     isAlive: bool, valueModifier: int, experienceModifier: int): (e: Entity)
    ensures e.entityName == name && e.entityID == id && e.entityFaction == faction
    ensures e.rarity == rarity && e.level == level && e.isAlive == isAlive
    ensures e.entityType == [] && e.activeBuffs == [] && e.tags == [] && e.availableStates == Some([])
    ensures e.currentState == IdleState
    ensures e.entitySize == size.GetOr(SizeOf(SizeClass.Medium)) && e.health == health.GetOr(NewHealth(100.0, -1.0))
    ensures e.hunger.currentValue == e.thirst.currentValue == e.energy.currentValue == e.rest.currentValue == 100.0
    ensures e.hunger.InRange() && e.thirst.InRange() && e.energy.InRange() && e.rest.InRange()
    ensures e.levelStat.currentValue == level as real && e.levelStat.minValue == 1.0
  {
    Entity(name, id, faction, description, [], rarity, spawnChance, level,
           size.GetOr(SizeOf(SizeClass.Medium)), aggressionType, health.GetOr(NewHealth(100.0, -1.0)),
           usesMana, isAlive,
           NewStat(ManaStat, "Mana", 0.0, 0.0, 100.0, Primary, ""),
           NewStat(AttackStat, "Attack", 0.0, 0.0, 100.0, Primary, ""),
           NewStat(DefenseStat, "Defense", 0.0, 0.0, 100.0, Primary, ""),
           NewStat(SpeedStat, "Speed", 0.0, 0.0, 100.0, Primary, ""),
           NewStat(StaminaStat, "Stamina", 100.0, 0.0, 100.0, Primary, ""),
           NewStat(StrengthStat, "Strength", 10.0, 0.0, 100.0, Primary, ""),
           NewStat(AgilityStat, "Agility", 10.0, 0.0, 100.0, Primary, ""),
           NewStat(IntelligenceStat, "Intelligence", 10.0, 0.0, 100.0, Primary, ""),
           NewStat(MagicPowerStat, "Magic Power", 0.0, 0.0, 100.0, Primary, ""),
           NewStat(MagicDefenseStat, "Magic Defense", 0.0, 0.0, 100.0, Primary, ""),
           NewStat(CriticalHitChanceStat, "Critical Hit Chance", 0.05, 0.0, 100.0, Primary, ""),
           NewStat(CriticalHitDamageStat, "Critical Hit Damage", 1.5, 0.0, 100.0, Primary, ""),
           NewStat(LuckStat, "Luck", 10.0, 0.0, 100.0, Primary, ""),
           NewStat(CharismaStat, "Charisma", 10.0, 0.0, 100.0, Primary, ""),
           NewStat(HungerStat, "Hunger", 100.0, 0.0, 100.0, Primary, ""),
           NewStat(ThirstStat, "Thirst", 100.0, 0.0, 100.0, Primary, ""),
           NewStat(EnergyStat, "Energy", 100.0, 0.0, 100.0, Primary, ""),
           NewStat(RestStat, "Rest", 100.0, 0.0, 100.0, Primary, ""),
           NewStat(ExperienceStat, "Experience", 0.0, 0.0, FloatMax, Primary, ""),
           NewStat(LevelStat, "Level", level as real, 1.0, FloatMax, Primary, ""),
           [], IdleState, Some([]), valueModifier, experienceModifier, [])
  }

  /** `new Entity(name, id)`: every optional argument at its default. */
  function BasicEntity(name: string, id: int): (e: Entity)
    ensures e == NewEntity(name, id, "", "", Common, 0.0, 1, None, Neutral, None, false, true, 0, 0)
    ensures e.health == Health(100.0, 100.0) && e.entitySize == SizeOf(SizeClass.Medium)
  {
    NewEntity(name, id, "", "", Common, 0.0, 1, None, Neutral, None, false, true, 0, 0)
  }

  /** `default(Stat)`: every field zero or empty. */
  const ZeroStat := Stat(0, "", "", Primary, 0.0, 0.0, 0.0, 0.0)

  /** `default(Entity)`, what the lookups return for an unknown key: every field zero,
      empty or the first enumerator, and no state list. */
  const DefaultEntity := Entity(
    "", 0, "", "", [], Common, 0.0, 0, BodySize(SizeClass.Small, 0.0, 0.0, 0.0), Passive,
    Health(0.0, 0.0), false, false,
    ZeroStat, ZeroStat, ZeroStat, ZeroStat, ZeroStat, ZeroStat, ZeroStat, ZeroStat, ZeroStat,
    ZeroStat, ZeroStat, ZeroStat, ZeroStat, ZeroStat, ZeroStat, ZeroStat, ZeroStat, ZeroStat,
    ZeroStat, ZeroStat, [], DefaultState, None, 0, 0, [])

  /** One step of the backward walk: the suffix from `i` is the buff at `i` followed by the
      suffix after it. */
  lemma UnapplyStep(e: Boosts, s: seq<Buff>, i: int, id: int)
    requires 0 <= i < |s|
    ensures e.UnapplyEffects(s[i..], id)
            == if s[i].buffID == id then e.UnapplyEffects(s[i + 1..], id).UnapplyOne(s[i])
               else e.UnapplyEffects(s[i + 1..], id)
  {
    assert s[i..][1..] == s[i + 1..];
  }

  lemma KeptStep(s: seq<Buff>, i: int, id: int)
    requires 0 <= i < |s|
    ensures RemoveAllBy(s[i..], BuffIdOf, id)
            == (if s[i].buffID == id then [] else [s[i]]) + RemoveAllBy(s[i + 1..], BuffIdOf, id)
  {
    assert s[i..] == [s[i]] + s[i + 1..];
    RemoveAllBySplit([s[i]], s[i + 1..], BuffIdOf, id);
  }

  /** The list side of that step: the entry at `i` is still the original one, and removing
      it when it matches leaves the prefix before `i` and the kept suffix from `i`. */
  lemma ListStep(s: seq<Buff>, i: int, id: int, list: seq<Buff>)
    requires 0 <= i < |s| && list == s[..i + 1] + RemoveAllBy(s[i + 1..], BuffIdOf, id)
    ensures i < |list| && list[i] == s[i]
    ensures list[i].buffID == id ==> RemoveIndex(list, i) == s[..i] + RemoveAllBy(s[i..], BuffIdOf, id)
    ensures list[i].buffID != id ==> list == s[..i] + RemoveAllBy(s[i..], BuffIdOf, id)
  {
    KeptStep(s, i, id);
    PrefixStep(s, i, RemoveAllBy(s[i + 1..], BuffIdOf, id), list);
  }

  /** Splitting `s[..i + 1] + kept` at index `i`, with `kept` left abstract. */
  lemma PrefixStep<T>(s: seq<T>, i: int, kept: seq<T>, list: seq<T>)
    requires 0 <= i < |s| && list == s[..i + 1] + kept
    ensures i < |list| && list[i] == s[i]
    ensures RemoveIndex(list, i) == s[..i] + kept
    ensures list == s[..i] + ([s[i]] + kept)
  {
    assert s[..i + 1] == s[..i] + [s[i]];
    assert list[..i] == s[..i] && list[i + 1..] == kept;
  }

  /** `Entity.RemoveBuff`: a backward walk over the buff list taking back each matching
      buff's boost and removing it at its index. */
  method RemoveBuff(e: Entity, buffID: int) returns (r: Entity)
    ensures r == e.WithoutBuff(buffID)
  {
    var s := e.activeBuffs;
    var list := s;
    var cur := e.BoostStats();
    var i := |s| - 1;
    while i >= 0
      invariant -1 <= i < |s|
      invariant list == s[..i + 1] + RemoveAllBy(s[i + 1..], BuffIdOf, buffID)
      invariant cur == e.BoostStats().UnapplyEffects(s[i + 1..], buffID)
      decreases i
    {
      UnapplyStep(e.BoostStats(), s, i, buffID);
      ListStep(s, i, buffID, list);
      if list[i].buffID == buffID {
        cur := cur.UnapplyOne(list[i]);
        list := RemoveIndex(list, i);
      }
      i := i - 1;
    }
    assert i == -1;
    assert s[..0] == [] && s[0..] == s;
    assert [] + RemoveAllBy(s, BuffIdOf, buffID) == RemoveAllBy(s, BuffIdOf, buffID);
    r := e.(activeBuffs := list, speed := cur.speed, attack := cur.attack, defense := cur.defense);
  }

  /** Buffs none of which has the identifier take nothing back. */
  lemma {:induction false} UnapplyNothing(e: Boosts, s: seq<Buff>, id: int)
    requires forall i :: 0 <= i < |s| ==> s[i].buffID != id
    ensures e.UnapplyEffects(s, id) == e
    decreases |s|
  {
    if s != [] {
      UnapplyNothing(e, s[1..], id);
    }
  }

  /** The effects of a list split in two: the back part's first. */
  lemma {:induction false} UnapplySplit(e: Boosts, a: seq<Buff>, b: seq<Buff>, id: int)
    ensures e.UnapplyEffects(a + b, id) == e.UnapplyEffects(b, id).UnapplyEffects(a, id)
    decreases |a|
  {
    if a == [] {
      assert a + b == b;
    } else {
      assert (a + b)[1..] == a[1..] + b;
      UnapplySplit(e, a[1..], b, id);
    }
  }

  /** Removing an identifier no active buff has changes nothing, and removing twice is
      removing once. */
  lemma RemoveBuffNoOpAndIdempotent(e: Entity, id: int)
    ensures (forall i :: 0 <= i < |e.activeBuffs| ==> e.activeBuffs[i].buffID != id) ==> e.WithoutBuff(id) == e
    ensures e.WithoutBuff(id).WithoutBuff(id) == e.WithoutBuff(id)
  {
    var once := e.WithoutBuff(id);
    RemoveAllByTwice(e.activeBuffs, BuffIdOf, id);
    UnapplyNothing(once.BoostStats(), once.activeBuffs, id);
    if forall i :: 0 <= i < |e.activeBuffs| ==> e.activeBuffs[i].buffID != id {
      UnapplyNothing(e.BoostStats(), e.activeBuffs, id);
      RemoveAllByAbsent(e.activeBuffs, BuffIdOf, id);
    }
  }

  /** Removing the identifier of a buff just applied, when no other active buff has it:
      the list comes back, and the only effect taken back is that one buff's. */
  lemma ApplyThenRemoveList(e: Entity, b: Buff)
    requires forall i :: 0 <= i < |e.activeBuffs| ==> e.activeBuffs[i].buffID != b.buffID
    ensures var applied := e.ApplyBuff(b);
      var x := applied.BoostStats().UnapplyOne(b);
      applied.WithoutBuff(b.buffID)
      == applied.(activeBuffs := e.activeBuffs, speed := x.speed, attack := x.attack, defense := x.defense)
  {
    var applied := e.ApplyBuff(b);
    var id := b.buffID;
    RemoveAllBySplit(e.activeBuffs, [b], BuffIdOf, id);
    RemoveAllByAbsent(e.activeBuffs, BuffIdOf, id);
    assert RemoveAllBy([b], BuffIdOf, id) == [];
    assert e.activeBuffs + [] == e.activeBuffs;
    UnapplySplit(applied.BoostStats(), e.activeBuffs, [b], id);
    var once := applied.BoostStats().UnapplyEffects([b], id);
    assert once == applied.BoostStats().UnapplyOne(b);
    UnapplyNothing(once, e.activeBuffs, id);
  }

  /** Applying a buff whose identifier no active buff has, then removing that identifier,
      gives the buff list back; a speed boost that was not clamped either way is taken back
      exactly, while a regeneration's healing stays. */
  lemma ApplyThenRemove(e: Entity, b: Buff)
    requires forall i :: 0 <= i < |e.activeBuffs| ==> e.activeBuffs[i].buffID != b.buffID
    ensures e.ApplyBuff(b).WithoutBuff(b.buffID).activeBuffs == e.activeBuffs
    ensures b.buffID == HealthRegen ==> e.ApplyBuff(b).WithoutBuff(b.buffID).health == e.health.Heal(b.strength)
    ensures b.buffID == SpeedBoost && e.speed.InRange()
            && e.speed.minValue <= e.speed.currentValue + b.strength <= e.speed.maxValue ==>
      e.ApplyBuff(b).WithoutBuff(b.buffID) == e
  {
    ApplyThenRemoveList(e, b);
    if b.buffID == SpeedBoost && e.speed.InRange()
       && e.speed.minValue <= e.speed.currentValue + b.strength <= e.speed.maxValue {
      ModifyStatInverse(e.speed, b.strength);
      assert e.ApplyBuff(b).BoostStats().UnapplyOne(b).speed == e.speed;
    }
  }

  /** The corrected `ChangeState` agrees with the source for every identifier but Idle. */
  lemma ChangeStateAgrees(e: Entity, id: int)
    requires id != IdleId
    ensures e.ChangeStateAsWritten(id) == e.ChangeState(id)
  {
  }

  /** A new entity has no available states, so the source's `ChangeState(Idle)` replaces
      its Idle state by the nameless, uninterruptible `default(State)`; the corrected
      operation leaves the entity alone. */
  lemma NewEntityLosesIdleState()
    ensures BasicEntity("Pop", 0).ChangeStateAsWritten(IdleId).currentState == DefaultState
    ensures DefaultState != IdleState && !DefaultState.canBeInterrupted
    ensures BasicEntity("Pop", 0).ChangeState(IdleId) == BasicEntity("Pop", 0)
  {
    var e := BasicEntity("Pop", 0);
    assert e.availableStates == Some([]);
  }

  /** Changing to a state is idempotent, and the state reached is the first one listed with
      that identifier. */
  lemma ChangeStateIdempotent(e: Entity, id: int, k: int)
    requires e.availableStates.Some? && 0 <= k < |e.availableStates.value|
    requires e.availableStates.value[k].stateID == id
    requires forall j :: 0 <= j < k ==> e.availableStates.value[j].stateID != id
    ensures e.ChangeState(id).currentState == e.availableStates.value[k]
    ensures e.ChangeState(id).ChangeState(id) == e.ChangeState(id)
  {
    var s := e.availableStates.value;
    FindFirst(s, id, k);
  }

  lemma {:induction false} FindFirst(s: seq<State>, id: int, k: int)
    requires 0 <= k < |s| && s[k].stateID == id
    requires forall j :: 0 <= j < k ==> s[j].stateID != id
    ensures FindState(s, id) == s[k]
    decreases k
  {
    if k > 0 {
      FindFirst(s[1..], id, k - 1);
    }
  }

  // ---------------------------------------------------------------- leveling

  /** The leveling system; its reward lists are not modelled. */
  datatype LevelingSystem = LevelingSystem(
    currentLevel: int, experienceToNextLevel: int, maxLevel: int, experiencePerLevel: int,
    modifiers: StatModifiers)
  {
    /** `CanLevelUp`. */
    function CanLevelUp(): (r: bool)
      ensures r ==> currentLevel < maxLevel && experienceToNextLevel <= 0
      ensures currentLevel >= maxLevel ==> !r
    {
      experienceToNextLevel <= 0 && currentLevel < maxLevel
    }
  }

  /** The constructor: maximum level 100, 100 experience per level, zero modifiers. */
  function NewLevelingSystem(level: int, experience: int): (ls: LevelingSystem)
    ensures ls.currentLevel == level && ls.experienceToNextLevel == experience
    ensures ls.maxLevel == 100 && ls.experiencePerLevel == 100 && ls.modifiers == Zero
  {
    LevelingSystem(level, experience, 100, 100, Zero)
  }

  /** The level-up loop of `AddExperience`: while the requirement is met and the level is
      below the maximum, one more level, whose requirement (per level times the new level)
      is added to the remaining experience. */
  function Settle(ls: LevelingSystem): (r: LevelingSystem)
    ensures r == ls.(currentLevel := r.currentLevel, experienceToNextLevel := r.experienceToNextLevel)
    ensures r.currentLevel >= ls.currentLevel && !r.CanLevelUp()
    ensures ls.currentLevel <= ls.maxLevel ==> r.currentLevel <= ls.maxLevel
    ensures !ls.CanLevelUp() ==> r == ls
    decreases ls.maxLevel - ls.currentLevel
  {
    if ls.CanLevelUp() then
      var next := ls.currentLevel + 1;
      Settle(ls.(currentLevel := next,
                 experienceToNextLevel := ls.experienceToNextLevel + ls.experiencePerLevel * next))
    else ls
  }

  /** `AddExperience`: the experience is taken off the remaining requirement, then the loop
      levels up. The result says whether the level rose. */
  method AddExperience(ls: LevelingSystem, expPoints: int) returns (r: LevelingSystem, leveled: bool)
    ensures r == Settle(ls.(experienceToNextLevel := ls.experienceToNextLevel - expPoints))
    ensures leveled <==> r.currentLevel > ls.currentLevel
    ensures r.currentLevel >= ls.currentLevel && !r.CanLevelUp()
    ensures ls.currentLevel <= ls.maxLevel ==> r.currentLevel <= ls.maxLevel
  {
    var oldLevel := ls.currentLevel;
    r := ls.(experienceToNextLevel := ls.experienceToNextLevel - expPoints);
    ghost var start := r;
    while r.experienceToNextLevel <= 0 && r.currentLevel < r.maxLevel
      invariant Settle(r) == Settle(start)
      invariant r == start.(currentLevel := r.currentLevel, experienceToNextLevel := r.experienceToNextLevel)
      invariant r.currentLevel >= oldLevel
      decreases r.maxLevel - r.currentLevel
    {
      var next := r.currentLevel + 1;
      r := r.(currentLevel := next, experienceToNextLevel := r.experienceToNextLevel + r.experiencePerLevel * next);
    }
    leveled := r.currentLevel > oldLevel;
  }

  /** 1 + 2 + … + n (0 when n <= 0). */
  function Triangle(n: int): (t: int)
    ensures n >= 0 ==> 2 * t == n * (n + 1)
    decreases if n > 0 then n else 0
  {
    if n <= 0 then 0 else n + Triangle(n - 1)
  }

  /** The total experience earned: every completed level's requirement plus the part of the
      current one already earned. */
  function TotalExperience(ls: LevelingSystem): (r: int)
    ensures ls.currentLevel >= 0 ==>
      r == ls.experiencePerLevel * Triangle(ls.currentLevel) - ls.experienceToNextLevel
    ensures ls.currentLevel == 1 ==> r == ls.experiencePerLevel - ls.experienceToNextLevel
  {
    ls.experiencePerLevel * Triangle(ls.currentLevel - 1)
    + (ls.experiencePerLevel * ls.currentLevel - ls.experienceToNextLevel)
  }

  /** `GetTotalExperience`: the loop over the completed levels, then the current one. */
  method GetTotalExperience(ls: LevelingSystem) returns (total: int)
    ensures total == TotalExperience(ls)
    ensures ls.currentLevel >= 0 ==>
      2 * (total + ls.experienceToNextLevel) == ls.experiencePerLevel * ls.currentLevel * (ls.currentLevel + 1)
  {
    var sum := 0;
    var i := 1;
    while i < ls.currentLevel
      invariant 1 <= i && (i <= ls.currentLevel || (ls.currentLevel < 1 && i == 1))
      invariant sum == ls.experiencePerLevel * Triangle(i - 1)
    {
      sum := sum + ls.experiencePerLevel * i;
      i := i + 1;
    }
    if ls.currentLevel < 1 {
      assert Triangle(ls.currentLevel - 1) == 0 && Triangle(i - 1) == 0;
      assert sum == 0;
    } else {
      assert i == ls.currentLevel;
    }
    total := sum + (ls.experiencePerLevel * ls.currentLevel - ls.experienceToNextLevel);
    if ls.currentLevel >= 0 {
      TotalClosedForm(ls);
    }
  }

  lemma TotalClosedForm(ls: LevelingSystem)
    requires ls.currentLevel >= 0
    ensures 2 * (TotalExperience(ls) + ls.experienceToNextLevel)
            == ls.experiencePerLevel * ls.currentLevel * (ls.currentLevel + 1)
  {
    var l := ls.currentLevel;
    var p := ls.experiencePerLevel;
    var t := Triangle(l - 1);
    if l >= 1 {
      assert 2 * t == (l - 1) * l;
    } else {
      assert t == 0;
    }
    calc {
      2 * (p * t + p * l);
      p * (2 * t) + 2 * p * l;
      p * ((l - 1) * l) + 2 * p * l;
      p * (l * (l + 1));
    }
  }

  /** One level-up keeps the total experience. */
  lemma LevelUpKeepsTotal(ls: LevelingSystem)
    requires ls.currentLevel >= 0
    ensures TotalExperience(ls.(currentLevel := ls.currentLevel + 1,
              experienceToNextLevel := ls.experienceToNextLevel + ls.experiencePerLevel * (ls.currentLevel + 1)))
            == TotalExperience(ls)
  {
    var l := ls.currentLevel;
    var p := ls.experiencePerLevel;
    assert Triangle(l) == l + Triangle(l - 1);
    assert p * Triangle(l) == p * l + p * Triangle(l - 1);
  }

  /** Leveling up never changes the total experience. */
  lemma {:induction false} SettleKeepsTotal(ls: LevelingSystem)
    requires ls.currentLevel >= 0
    ensures TotalExperience(Settle(ls)) == TotalExperience(ls)
    decreases ls.maxLevel - ls.currentLevel
  {
    if ls.CanLevelUp() {
      var next := ls.(currentLevel := ls.currentLevel + 1,
                      experienceToNextLevel := ls.experienceToNextLevel + ls.experiencePerLevel * (ls.currentLevel + 1));
      LevelUpKeepsTotal(ls);
      SettleKeepsTotal(next);
    }
  }

  /** `AddExperience(x)` raises `GetTotalExperience` by exactly x, however many levels it
      gains: the experience given is never lost or duplicated by the level-ups. */
  lemma AddExperienceAddsTotal(ls: LevelingSystem, expPoints: int)
    requires ls.currentLevel >= 0
    ensures TotalExperience(Settle(ls.(experienceToNextLevel := ls.experienceToNextLevel - expPoints)))
            == TotalExperience(ls) + expPoints
  {
    SettleKeepsTotal(ls.(experienceToNextLevel := ls.experienceToNextLevel - expPoints));
  }
}
