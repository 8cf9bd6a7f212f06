// The component that holds a pop's entity record: reads and changes one stat at a time by
// its identifier, forwards state and buff changes to the record, and decays the four needs
// over time. Every change copies the record, changes the copy and writes it back, which the
// class below does with its one `entityData` field.
module EntityStats {
  import opened Text
  import opened UtilityStructs
  import opened Stats
  import opened Entities

  // ---------------------------------------------------------------- stats by identifier

  /** An identifier with its own stat field: every declared one except Health (0), which the
      record keeps as a `Health`. */
  predicate IsStatField(id: int) { 1 <= id <= 20 }

  /** `GetStat`: Health as a fresh stat holding the current health; each other declared
      identifier's own field; for a value outside the declared ones a fresh zero stat named
      by the number. */
  function GetStatOf(e: Entity, id: int): (s: Stat)
    ensures id == HealthStat ==>
      s == NewStat(HealthStat, "Health", e.health.current, 0.0, 100.0, Primary, "")
    ensures !(0 <= id <= 20) ==> s == NewStat(id, IntToString(id), 0.0, 0.0, 100.0, Primary, "")
  {
    if id == HealthStat then NewStat(HealthStat, "Health", e.health.current, 0.0, 100.0, Primary, "")
    else if id == ManaStat then e.mana
    else if id == StaminaStat then e.stamina
    else if id == StrengthStat then e.strength
    else if id == AgilityStat then e.agility
    else if id == IntelligenceStat then e.intelligence
    else if id == DefenseStat then e.defense
    else if id == SpeedStat then e.speed
    else if id == CriticalHitChanceStat then e.criticalHitChance
    else if id == CriticalHitDamageStat then e.criticalHitDamage
    else if id == AttackStat then e.attack
    else if id == MagicPowerStat then e.magicPower
    else if id == MagicDefenseStat then e.magicDefense
    else if id == ExperienceStat then e.experience
    else if id == LevelStat then e.levelStat
    else if id == LuckStat then e.luck
    else if id == CharismaStat then e.charisma
    else if id == HungerStat then e.hunger
    else if id == ThirstStat then e.thirst
    else if id == EnergyStat then e.energy
    else if id == RestStat then e.rest
    else NewStat(id, IntToString(id), 0.0, 0.0, 100.0, Primary, "")
  }

  /** The record with the stat field of `id` replaced by `s`; the same switch as
      `GetStatOf`, writing instead of reading. */
  function WithStat(e: Entity, id: int, s: Stat): Entity {
    if id == ManaStat then e.(mana := s)
    else if id == StaminaStat then e.(stamina := s)
    else if id == StrengthStat then e.(strength := s)
    else if id == AgilityStat then e.(agility := s)
    else if id == IntelligenceStat then e.(intelligence := s)
    else if id == DefenseStat then e.(defense := s)
    else if id == SpeedStat then e.(speed := s)
    else if id == CriticalHitChanceStat then e.(criticalHitChance := s)
    else if id == CriticalHitDamageStat then e.(criticalHitDamage := s)
    else if id == AttackStat then e.(attack := s)
    else if id == MagicPowerStat then e.(magicPower := s)
    else if id == MagicDefenseStat then e.(magicDefense := s)
    else if id == ExperienceStat then e.(experience := s)
    else if id == LevelStat then e.(levelStat := s)
    else if id == LuckStat then e.(luck := s)
    else if id == CharismaStat then e.(charisma := s)
    else if id == HungerStat then e.(hunger := s)
    else if id == ThirstStat then e.(thirst := s)
    else if id == EnergyStat then e.(energy := s)
    else if id == RestStat then e.(rest := s)
    else e
  }

  /** Reading back a written stat gives it. */
  lemma LensGetPut(e: Entity, i: int, s: Stat)
    requires IsStatField(i)
    ensures GetStatOf(WithStat(e, i, s), i) == s
  {
  }

  /** Writing back what was read changes nothing. */
  lemma LensPutGet(e: Entity, i: int)
    requires IsStatField(i)
    ensures WithStat(e, i, GetStatOf(e, i)) == e
  {
  }

  /** A second write to the same stat overrides the first. */
  lemma LensPutPut(e: Entity, i: int, s1: Stat, s2: Stat)
    ensures WithStat(WithStat(e, i, s1), i, s2) == WithStat(e, i, s2)
  {
    if i == ManaStat {
      assert WithStat(e, i, s1) == e.(mana := s1);
    } else if i == StaminaStat {
      assert WithStat(e, i, s1) == e.(stamina := s1);
    } else if i == StrengthStat {
      assert WithStat(e, i, s1) == e.(strength := s1);
    } else if i == AgilityStat {
      assert WithStat(e, i, s1) == e.(agility := s1);
    } else if i == IntelligenceStat {
      assert WithStat(e, i, s1) == e.(intelligence := s1);
    } else if i == DefenseStat {
      assert WithStat(e, i, s1) == e.(defense := s1);
    } else if i == SpeedStat {
      assert WithStat(e, i, s1) == e.(speed := s1);
    } else if i == CriticalHitChanceStat {
      assert WithStat(e, i, s1) == e.(criticalHitChance := s1);
    } else if i == CriticalHitDamageStat {
      assert WithStat(e, i, s1) == e.(criticalHitDamage := s1);
    } else if i == AttackStat {
      assert WithStat(e, i, s1) == e.(attack := s1);
    } else if i == MagicPowerStat {
      assert WithStat(e, i, s1) == e.(magicPower := s1);
    } else if i == MagicDefenseStat {
      assert WithStat(e, i, s1) == e.(magicDefense := s1);
    } else if i == ExperienceStat {
      assert WithStat(e, i, s1) == e.(experience := s1);
    } else if i == LevelStat {
      assert WithStat(e, i, s1) == e.(levelStat := s1);
    } else if i == LuckStat {
      assert WithStat(e, i, s1) == e.(luck := s1);
    } else if i == CharismaStat {
      assert WithStat(e, i, s1) == e.(charisma := s1);
    } else if i == HungerStat {
      assert WithStat(e, i, s1) == e.(hunger := s1);
    } else if i == ThirstStat {
      assert WithStat(e, i, s1) == e.(thirst := s1);
    } else if i == EnergyStat {
      assert WithStat(e, i, s1) == e.(energy := s1);
    } else if i == RestStat {
      assert WithStat(e, i, s1) == e.(rest := s1);
    }
  }

  lemma LensIndependent1To5(e: Entity, i: int, j: int, s: Stat)
    requires 1 <= i <= 5 && j != i
    ensures GetStatOf(WithStat(e, i, s), j) == GetStatOf(e, j)
    ensures WithStat(e, i, s).health == e.health && WithStat(e, i, s).level == e.level
  {
    if i == ManaStat {
      assert WithStat(e, i, s) == e.(mana := s);
    } else if i == StaminaStat {
      assert WithStat(e, i, s) == e.(stamina := s);
    } else if i == StrengthStat {
      assert WithStat(e, i, s) == e.(strength := s);
    } else if i == AgilityStat {
      assert WithStat(e, i, s) == e.(agility := s);
    } else if i == IntelligenceStat {
      assert WithStat(e, i, s) == e.(intelligence := s);
    }
  }

  lemma LensIndependent6To10(e: Entity, i: int, j: int, s: Stat)
    requires 6 <= i <= 10 && j != i
    ensures GetStatOf(WithStat(e, i, s), j) == GetStatOf(e, j)
    ensures WithStat(e, i, s).health == e.health && WithStat(e, i, s).level == e.level
  {
    if i == DefenseStat {
      assert WithStat(e, i, s) == e.(defense := s);
    } else if i == SpeedStat {
      assert WithStat(e, i, s) == e.(speed := s);
    } else if i == CriticalHitChanceStat {
      assert WithStat(e, i, s) == e.(criticalHitChance := s);
    } else if i == CriticalHitDamageStat {
      assert WithStat(e, i, s) == e.(criticalHitDamage := s);
    } else if i == AttackStat {
      assert WithStat(e, i, s) == e.(attack := s);
    }
  }

  lemma LensIndependent11To15(e: Entity, i: int, j: int, s: Stat)
    requires 11 <= i <= 15 && j != i
    ensures GetStatOf(WithStat(e, i, s), j) == GetStatOf(e, j)
    ensures WithStat(e, i, s).health == e.health && WithStat(e, i, s).level == e.level
  {
    if i == MagicPowerStat {
      assert WithStat(e, i, s) == e.(magicPower := s);
    } else if i == MagicDefenseStat {
      assert WithStat(e, i, s) == e.(magicDefense := s);
    } else if i == ExperienceStat {
      assert WithStat(e, i, s) == e.(experience := s);
    } else if i == LevelStat {
      assert WithStat(e, i, s) == e.(levelStat := s);
    } else if i == LuckStat {
      assert WithStat(e, i, s) == e.(luck := s);
    }
  }

  lemma LensIndependent16To20(e: Entity, i: int, j: int, s: Stat)
    requires 16 <= i <= 20 && j != i
    ensures GetStatOf(WithStat(e, i, s), j) == GetStatOf(e, j)
    ensures WithStat(e, i, s).health == e.health && WithStat(e, i, s).level == e.level
  {
    if i == CharismaStat {
      assert WithStat(e, i, s) == e.(charisma := s);
    } else if i == HungerStat {
      assert WithStat(e, i, s) == e.(hunger := s);
    } else if i == ThirstStat {
      assert WithStat(e, i, s) == e.(thirst := s);
    } else if i == EnergyStat {
      assert WithStat(e, i, s) == e.(energy := s);
    } else if i == RestStat {
      assert WithStat(e, i, s) == e.(rest := s);
    }
  }

  /** Writing one stat leaves every other identifier's reading, the health and the level
      alone. */
  lemma LensIndependent(e: Entity, i: int, j: int, s: Stat)
    requires j != i
    ensures GetStatOf(WithStat(e, i, s), j) == GetStatOf(e, j)
    ensures WithStat(e, i, s).health == e.health && WithStat(e, i, s).level == e.level
  {
    if 1 <= i <= 5 {
      LensIndependent1To5(e, i, j, s);
    } else if 6 <= i <= 10 {
      LensIndependent6To10(e, i, j, s);
    } else if 11 <= i <= 15 {
      LensIndependent11To15(e, i, j, s);
    } else if 16 <= i <= 20 {
      LensIndependent16To20(e, i, j, s);
    }
  }

  /** On a new entity the switch is consistent with the record's construction: every
      declared identifier reads a stat carrying that identifier. */
  lemma NewEntityStatIds(name: string, id: int, statId: int)
    requires 0 <= statId <= 20
    ensures GetStatOf(BasicEntity(name, id), statId).statID == statId
  {
  }

  // ---------------------------------------------------------------- rounding

  /** `Mathf.RoundToInt`: the nearest integer, a tie going to the even neighbour. */
  function RoundHalfEven(x: real): (r: int)
    ensures -0.5 <= r as real - x <= 0.5
    ensures r as real - x == 0.5 || x - r as real == 0.5 ==> r % 2 == 0
  {
    var f := x.Floor;
    var d := x - f as real;
    if d < 0.5 then f
    else if d > 0.5 then f + 1
    else if f % 2 == 0 then f
    else f + 1
  }

  /** The rounding is the only integer within a half, or the even one of the two at a
      tie. */
  lemma RoundHalfEvenUnique(x: real, n: int)
    requires -0.5 <= n as real - x <= 0.5
    requires n as real - x == 0.5 || x - n as real == 0.5 ==> n % 2 == 0
    ensures n == RoundHalfEven(x)
  {
  }

  lemma RoundHalfEvenTies()
    ensures RoundHalfEven(2.5) == 2 && RoundHalfEven(3.5) == 4 && RoundHalfEven(-2.5) == -2
    ensures RoundHalfEven(2.4) == 2 && RoundHalfEven(2.6) == 3
  {
    RoundHalfEvenUnique(2.5, 2);
    RoundHalfEvenUnique(3.5, 4);
    RoundHalfEvenUnique(-2.5, -2);
    RoundHalfEvenUnique(2.4, 2);
    RoundHalfEvenUnique(2.6, 3);
  }

  // ---------------------------------------------------------------- ModifyStat

  /** The health change of `ModifyStat(Health, amount)`: a positive amount heals, any
      other is taken as damage of its negation. */
  function HealthAfter(h: Health, amount: real): Health {
    if amount > 0.0 then h.Heal(amount) else h.TakeDamage(-amount)
  }

  /** What `ModifyStat(id, amount)` leaves in the record: the switch over the
      identifiers, each case changing its own field. Unknown identifiers change nothing. */
  function ModifiedEntity(e: Entity, id: int, amount: real): (r: Entity)
    ensures !(0 <= id <= 20) ==> r == e
  {
    if id == HealthStat then e.(health := HealthAfter(e.health, amount))
    else if id == ManaStat then e.(mana := e.mana.ModifyStat(amount))
    else if id == StaminaStat then e.(stamina := e.stamina.ModifyStat(amount))
    else if id == StrengthStat then e.(strength := e.strength.ModifyStat(amount))
    else if id == AgilityStat then e.(agility := e.agility.ModifyStat(amount))
    else if id == IntelligenceStat then e.(intelligence := e.intelligence.ModifyStat(amount))
    else if id == DefenseStat then e.(defense := e.defense.ModifyStat(amount))
    else if id == SpeedStat then e.(speed := e.speed.ModifyStat(amount))
    else if id == AttackStat then e.(attack := e.attack.ModifyStat(amount))
    else if id == MagicPowerStat then e.(magicPower := e.magicPower.ModifyStat(amount))
    else if id == MagicDefenseStat then e.(magicDefense := e.magicDefense.ModifyStat(amount))
    else if id == CriticalHitChanceStat then e.(criticalHitChance := e.criticalHitChance.ModifyStat(amount))
    else if id == CriticalHitDamageStat then e.(criticalHitDamage := e.criticalHitDamage.ModifyStat(amount))
    else if id == LuckStat then e.(luck := e.luck.ModifyStat(amount))
    else if id == CharismaStat then e.(charisma := e.charisma.ModifyStat(amount))
    else if id == HungerStat then e.(hunger := e.hunger.ModifyStat(amount))
    else if id == ThirstStat then e.(thirst := e.thirst.ModifyStat(amount))
    else if id == EnergyStat then e.(energy := e.energy.ModifyStat(amount))
    else if id == RestStat then e.(rest := e.rest.ModifyStat(amount))
    else if id == ExperienceStat then e.(experience := e.experience.ModifyStat(amount))
    else if id == LevelStat then
      var l := e.levelStat.ModifyStat(amount);
      e.(levelStat := l, level := RoundHalfEven(l.currentValue))
    else e
  }

  /** The switch agrees with the lens: every stat field other than Level is read,
      changed by `ModifyStat` and written back; Level also resets the level number. */
  lemma ModifiedIsLensUpdate(e: Entity, id: int, amount: real)
    requires IsStatField(id)
    ensures var s := GetStatOf(e, id).ModifyStat(amount);
      ModifiedEntity(e, id, amount) ==
        if id == LevelStat then WithStat(e, id, s).(level := RoundHalfEven(s.currentValue))
        else WithStat(e, id, s)
  {
    var s := GetStatOf(e, id).ModifyStat(amount);
    if id == ManaStat {
      assert GetStatOf(e, id) == e.mana && WithStat(e, id, s) == e.(mana := s);
    } else if id == StaminaStat {
      assert GetStatOf(e, id) == e.stamina && WithStat(e, id, s) == e.(stamina := s);
    } else if id == StrengthStat {
      assert GetStatOf(e, id) == e.strength && WithStat(e, id, s) == e.(strength := s);
    } else if id == AgilityStat {
      assert GetStatOf(e, id) == e.agility && WithStat(e, id, s) == e.(agility := s);
    } else if id == IntelligenceStat {
      assert GetStatOf(e, id) == e.intelligence && WithStat(e, id, s) == e.(intelligence := s);
    } else if id == DefenseStat {
      assert GetStatOf(e, id) == e.defense && WithStat(e, id, s) == e.(defense := s);
    } else if id == SpeedStat {
      assert GetStatOf(e, id) == e.speed && WithStat(e, id, s) == e.(speed := s);
    } else if id == CriticalHitChanceStat {
      assert GetStatOf(e, id) == e.criticalHitChance && WithStat(e, id, s) == e.(criticalHitChance := s);
    } else if id == CriticalHitDamageStat {
      assert GetStatOf(e, id) == e.criticalHitDamage && WithStat(e, id, s) == e.(criticalHitDamage := s);
    } else if id == AttackStat {
      assert GetStatOf(e, id) == e.attack && WithStat(e, id, s) == e.(attack := s);
    } else if id == MagicPowerStat {
      assert GetStatOf(e, id) == e.magicPower && WithStat(e, id, s) == e.(magicPower := s);
    } else if id == MagicDefenseStat {
      assert GetStatOf(e, id) == e.magicDefense && WithStat(e, id, s) == e.(magicDefense := s);
    } else if id == ExperienceStat {
      assert GetStatOf(e, id) == e.experience && WithStat(e, id, s) == e.(experience := s);
    } else if id == LuckStat {
      assert GetStatOf(e, id) == e.luck && WithStat(e, id, s) == e.(luck := s);
    } else if id == CharismaStat {
      assert GetStatOf(e, id) == e.charisma && WithStat(e, id, s) == e.(charisma := s);
    } else if id == HungerStat {
      assert GetStatOf(e, id) == e.hunger && WithStat(e, id, s) == e.(hunger := s);
    } else if id == ThirstStat {
      assert GetStatOf(e, id) == e.thirst && WithStat(e, id, s) == e.(thirst := s);
    } else if id == EnergyStat {
      assert GetStatOf(e, id) == e.energy && WithStat(e, id, s) == e.(energy := s);
    } else if id == RestStat {
      assert GetStatOf(e, id) == e.rest && WithStat(e, id, s) == e.(rest := s);
    }
  }

  /** `ModifyStat` on a stat field changes that stat by `ModifyStat`'s clamped addition
      and nothing else but, for Level, the level number, which follows the new level stat
      rounded half to even. A stat whose range is well formed stays within it. */
  lemma ModifyStatEffect(e: Entity, id: int, j: int, amount: real)
    requires IsStatField(id)
    ensures var r := ModifiedEntity(e, id, amount);
      GetStatOf(r, id) == GetStatOf(e, id).ModifyStat(amount)
      && (j != id ==> GetStatOf(r, j) == GetStatOf(e, j))
      && r.health == e.health
      && (id != LevelStat ==> r == WithStat(e, id, GetStatOf(r, id)))
      && (id == LevelStat ==> r == WithStat(e, id, GetStatOf(r, id)).(level := RoundHalfEven(r.levelStat.currentValue)))
      && (GetStatOf(e, id).minValue <= GetStatOf(e, id).maxValue ==> GetStatOf(r, id).InRange())
  {
    var s' := GetStatOf(e, id).ModifyStat(amount);
    ModifiedIsLensUpdate(e, id, amount);
    LensGetPut(e, id, s');
    if j != id {
      LensIndependent(e, id, j, s');
    }
  }

  /** `ModifyStat(Health, amount)`: health heals or takes damage, never going below zero
      nor, when it starts within its maximum, above it; nothing else changes. */
  lemma ModifyHealthEffect(e: Entity, amount: real)
    ensures var r := ModifiedEntity(e, HealthStat, amount);
      r == e.(health := r.health) && (e.health.max >= 0.0 ==> r.health.current >= 0.0)
      && (amount > 0.0 && 0.0 <= e.health.current <= e.health.max ==> r.health.current <= e.health.max)
      && (amount > 0.0 && e.health.current + amount < e.health.max && e.health.current >= 0.0 ==>
            r.health.current == e.health.current + amount)
  {
  }

  /** Changing a stat field by an amount that stays within its range and then by the
      negated amount gives the record back (for Level, when the level already matched). */
  lemma ModifyStatUndo(e: Entity, id: int, amount: real)
    requires IsStatField(id)
    requires GetStatOf(e, id).minValue <= GetStatOf(e, id).currentValue + amount <= GetStatOf(e, id).maxValue
    requires GetStatOf(e, id).InRange()
    requires id == LevelStat ==> e.level == RoundHalfEven(e.levelStat.currentValue)
    ensures ModifiedEntity(ModifiedEntity(e, id, amount), id, -amount) == e
  {
    var s := GetStatOf(e, id);
    var s' := s.ModifyStat(amount);
    assert s'.ModifyStat(-amount) == s;
    ModifiedIsLensUpdate(e, id, amount);
    if id == LevelStat {
      assert ModifiedEntity(e, id, amount) == e.(levelStat := s', level := RoundHalfEven(s'.currentValue));
    } else {
      var m := WithStat(e, id, s');
      assert ModifiedEntity(e, id, amount) == m;
      LensGetPut(e, id, s');
      ModifiedIsLensUpdate(m, id, -amount);
      assert ModifiedEntity(m, id, -amount) == WithStat(m, id, s);
      LensPutPut(e, id, s', s);
      LensPutGet(e, id);
    }
  }

  // ---------------------------------------------------------------- needs

  /** `ModifyStat` on each need changes that need's field alone. */
  lemma ModifyHunger(e: Entity, a: real)
    ensures ModifiedEntity(e, HungerStat, a) == e.(hunger := e.hunger.ModifyStat(a))
  {
  }

  lemma ModifyThirst(e: Entity, a: real)
    ensures ModifiedEntity(e, ThirstStat, a) == e.(thirst := e.thirst.ModifyStat(a))
  {
  }

  lemma ModifyEnergy(e: Entity, a: real)
    ensures ModifiedEntity(e, EnergyStat, a) == e.(energy := e.energy.ModifyStat(a))
  {
  }

  lemma ModifyRest(e: Entity, a: real)
    ensures ModifiedEntity(e, RestStat, a) == e.(rest := e.rest.ModifyStat(a))
  {
  }

  /** The record after the four needs have decayed by the given amounts. */
  function Decayed(e: Entity, hunger: real, thirst: real, energy: real, rest: real): Entity {
    e.(hunger := e.hunger.ModifyStat(-hunger), thirst := e.thirst.ModifyStat(-thirst),
       energy := e.energy.ModifyStat(-energy), rest := e.rest.ModifyStat(-rest))
  }

  /** Decay is `ModifyStat` on hunger, thirst, energy and rest in turn, each by its
      negated amount. */
  lemma DecayedIsFourChanges(e: Entity, h: real, t: real, en: real, r: real)
    ensures Decayed(e, h, t, en, r) ==
      ModifiedEntity(ModifiedEntity(ModifiedEntity(ModifiedEntity(e, HungerStat, -h), ThirstStat, -t), EnergyStat, -en), RestStat, -r)
  {
    var e1 := ModifiedEntity(e, HungerStat, -h);
    ModifyHunger(e, -h);
    var e2 := ModifiedEntity(e1, ThirstStat, -t);
    ModifyThirst(e1, -t);
    var e3 := ModifiedEntity(e2, EnergyStat, -en);
    ModifyEnergy(e2, -en);
    ModifyRest(e3, -r);
  }

  /** `HasCriticalNeeds`: hunger or thirst at or below zero. */
  predicate HasCriticalNeeds(e: Entity) {
    GetStatOf(e, HungerStat).currentValue <= 0.0 || GetStatOf(e, ThirstStat).currentValue <= 0.0
  }

  /** `IsHealthy`: alive and above half of the maximum health. */
  predicate IsHealthy(e: Entity) {
    e.isAlive && e.health.current > e.health.max * 0.5
  }

  /** Decay lowers each need by its amount, clamped into the need's range, and changes no
      other stat, nor health, level or life. */
  lemma DecayEffect(e: Entity, h: real, t: real, en: real, r: real, j: int)
    ensures var d := Decayed(e, h, t, en, r);
      GetStatOf(d, HungerStat) == GetStatOf(e, HungerStat).ModifyStat(-h)
      && GetStatOf(d, ThirstStat) == GetStatOf(e, ThirstStat).ModifyStat(-t)
      && GetStatOf(d, EnergyStat) == GetStatOf(e, EnergyStat).ModifyStat(-en)
      && GetStatOf(d, RestStat) == GetStatOf(e, RestStat).ModifyStat(-r)
      && (!(17 <= j <= 20) ==> GetStatOf(d, j) == GetStatOf(e, j))
      && d.health == e.health && d.level == e.level && d.isAlive == e.isAlive
  {
    var d := Decayed(e, h, t, en, r);
    assert GetStatOf(d, HungerStat) == d.hunger && GetStatOf(d, ThirstStat) == d.thirst;
    assert GetStatOf(d, EnergyStat) == d.energy && GetStatOf(d, RestStat) == d.rest;
  }

  /** With non-negative decay, no need rises and each stays within its range; a hunger
      decay of at least the current hunger, on a range starting at zero, leaves critical
      needs. */
  lemma DecayBounds(e: Entity, h: real, t: real, en: real, r: real)
    requires 0.0 <= h && 0.0 <= t && 0.0 <= en && 0.0 <= r
    requires e.hunger.InRange() && e.thirst.InRange() && e.energy.InRange() && e.rest.InRange()
    ensures var d := Decayed(e, h, t, en, r);
      d.hunger.InRange() && d.thirst.InRange() && d.energy.InRange() && d.rest.InRange()
      && d.hunger.currentValue <= e.hunger.currentValue && d.thirst.currentValue <= e.thirst.currentValue
      && d.energy.currentValue <= e.energy.currentValue && d.rest.currentValue <= e.rest.currentValue
    ensures e.hunger.minValue == 0.0 && h >= e.hunger.currentValue ==> HasCriticalNeeds(Decayed(e, h, t, en, r))
  {
    DecayEffect(e, h, t, en, r, 0);
  }

  /** Eating a positive amount on a range from zero with room above clears the hunger
      part of critical needs: critical needs then remain exactly when thirst is at or
      below zero. */
  lemma EatingRelievesHunger(e: Entity, amount: real)
    requires amount > 0.0 && e.hunger.InRange() && e.hunger.minValue == 0.0 && e.hunger.maxValue > 0.0
    ensures HasCriticalNeeds(ModifiedEntity(e, HungerStat, amount)) <==> e.thirst.currentValue <= 0.0
  {
    ModifyStatEffect(e, HungerStat, ThirstStat, amount);
  }

  /** Damage that leaves no health makes the record unhealthy; a heal of at least the
      maximum makes a living record with positive maximum healthy. */
  lemma HealthyAfterHealing(e: Entity, amount: real)
    requires e.health.max > 0.0 && 0.0 <= e.health.current
    ensures e.isAlive && amount >= e.health.max ==> IsHealthy(ModifiedEntity(e, HealthStat, amount))
    ensures -amount >= e.health.current ==> !IsHealthy(ModifiedEntity(e, HealthStat, amount))
  {
  }

  // ---------------------------------------------------------------- derived values

  /** `GetCombatPower`: the mean of attack, defense, strength and agility. */
  function CombatPower(e: Entity): (p: real)
    ensures 4.0 * p == e.attack.currentValue + e.defense.currentValue + e.strength.currentValue + e.agility.currentValue
  {
    (e.attack.currentValue + e.defense.currentValue + e.strength.currentValue + e.agility.currentValue) / 4.0
  }

  /** `GetSocialPower`: the mean of charisma, intelligence and luck. */
  function SocialPower(e: Entity): (p: real)
    ensures 3.0 * p == e.charisma.currentValue + e.intelligence.currentValue + e.luck.currentValue
  {
    (e.charisma.currentValue + e.intelligence.currentValue + e.luck.currentValue) / 3.0
  }

  /** A mean lies within the bounds of what it averages. */
  lemma PowersBounded(e: Entity, lo: real, hi: real)
    requires forall id :: id in {AttackStat, DefenseStat, StrengthStat, AgilityStat} ==>
      lo <= GetStatOf(e, id).currentValue <= hi
    requires forall id :: id in {CharismaStat, IntelligenceStat, LuckStat} ==>
      lo <= GetStatOf(e, id).currentValue <= hi
    ensures lo <= CombatPower(e) <= hi && lo <= SocialPower(e) <= hi
  {
    assert GetStatOf(e, AttackStat) == e.attack && GetStatOf(e, DefenseStat) == e.defense;
    assert GetStatOf(e, StrengthStat) == e.strength && GetStatOf(e, AgilityStat) == e.agility;
    assert GetStatOf(e, CharismaStat) == e.charisma && GetStatOf(e, IntelligenceStat) == e.intelligence;
    assert GetStatOf(e, LuckStat) == e.luck;
  }

  /** `GetAge`: five years a level. */
  function AgeOf(e: Entity): (a: int)
    ensures e.level >= 0 ==> a >= 0 && a % 5 == 0
  {
    e.level * 5
  }

  /** `GetAvailableStates`: the state list, or none without one. */
  function AvailableStates(e: Entity): (r: seq<State>)
    ensures e.availableStates.Some? ==> r == e.availableStates.value
    ensures e.availableStates.None? ==> r == []
  {
    if e.availableStates.Some? then e.availableStates.value else []
  }
}

/** The component itself: one record field written back after every change, and the
    needs-decay configuration. */
module EntityComponents {
  import opened Stats
  import opened Entities
  import opened EntityStats

  // ---------------------------------------------------------------- the component

  class EntityDataComponent {
    var entityData: Entity
    var isInitialized: bool
    const enableNeedsDecay: bool
    const hungerDecayRate: real
    const thirstDecayRate: real
    const energyDecayRate: real
    const restDecayRate: real

    /** The serialized defaults: an empty record, not initialized, needs decay on at rates
        1, 1.5, 0.8 and 0.5 a second. */
    constructor()
      ensures entityData == DefaultEntity && !isInitialized && enableNeedsDecay
      ensures hungerDecayRate == 1.0 && thirstDecayRate == 1.5 && energyDecayRate == 0.8 && restDecayRate == 0.5
    {
      entityData := DefaultEntity;
      isInitialized := false;
      enableNeedsDecay := true;
      hungerDecayRate, thirstDecayRate, energyDecayRate, restDecayRate := 1.0, 1.5, 0.8, 0.5;
    }

    /** The `EntityData` setter: stores the record and marks the component initialized. */
    method SetEntityData(e: Entity)
      modifies this`entityData, this`isInitialized
      ensures entityData == e && isInitialized
    {
      entityData := e;
      isInitialized := true;
    }

    /** `ModifyStat`: the switch applied to a copy of the record, which is written back;
        on a need it changes that need's field alone. */
    method ModifyStat(id: int, amount: real)
      modifies this`entityData
      ensures entityData == ModifiedEntity(old(entityData), id, amount)
      ensures id == HungerStat ==> entityData == old(entityData).(hunger := old(entityData).hunger.ModifyStat(amount))
      ensures id == ThirstStat ==> entityData == old(entityData).(thirst := old(entityData).thirst.ModifyStat(amount))
      ensures id == EnergyStat ==> entityData == old(entityData).(energy := old(entityData).energy.ModifyStat(amount))
      ensures id == RestStat ==> entityData == old(entityData).(rest := old(entityData).rest.ModifyStat(amount))
    {
      var data := entityData;
      if id == HealthStat {
        if amount > 0.0 {
          data := data.(health := data.health.Heal(amount));
        } else {
          data := data.(health := data.health.TakeDamage(-amount));
        }
      } else if id == ManaStat {
        data := data.(mana := data.mana.ModifyStat(amount));
      } else if id == StaminaStat {
        data := data.(stamina := data.stamina.ModifyStat(amount));
      } else if id == StrengthStat {
        data := data.(strength := data.strength.ModifyStat(amount));
      } else if id == AgilityStat {
        data := data.(agility := data.agility.ModifyStat(amount));
      } else if id == IntelligenceStat {
        data := data.(intelligence := data.intelligence.ModifyStat(amount));
      } else if id == DefenseStat {
        data := data.(defense := data.defense.ModifyStat(amount));
      } else if id == SpeedStat {
        data := data.(speed := data.speed.ModifyStat(amount));
      } else if id == AttackStat {
        data := data.(attack := data.attack.ModifyStat(amount));
      } else if id == MagicPowerStat {
        data := data.(magicPower := data.magicPower.ModifyStat(amount));
      } else if id == MagicDefenseStat {
        data := data.(magicDefense := data.magicDefense.ModifyStat(amount));
      } else if id == CriticalHitChanceStat {
        data := data.(criticalHitChance := data.criticalHitChance.ModifyStat(amount));
      } else if id == CriticalHitDamageStat {
        data := data.(criticalHitDamage := data.criticalHitDamage.ModifyStat(amount));
      } else if id == LuckStat {
        data := data.(luck := data.luck.ModifyStat(amount));
      } else if id == CharismaStat {
        data := data.(charisma := data.charisma.ModifyStat(amount));
      } else if id == HungerStat {
        data := data.(hunger := data.hunger.ModifyStat(amount));
      } else if id == ThirstStat {
        data := data.(thirst := data.thirst.ModifyStat(amount));
      } else if id == EnergyStat {
        data := data.(energy := data.energy.ModifyStat(amount));
      } else if id == RestStat {
        data := data.(rest := data.rest.ModifyStat(amount));
      } else if id == ExperienceStat {
        data := data.(experience := data.experience.ModifyStat(amount));
      } else if id == LevelStat {
        data := data.(levelStat := data.levelStat.ModifyStat(amount));
        data := data.(level := RoundHalfEven(data.levelStat.currentValue));
      }
      entityData := data;
    }

    /** `ChangeState`: forwarded to the record; always reports success. */
    method ChangeState(id: int) returns (ok: bool)
      modifies this`entityData
      ensures ok && entityData == old(entityData).ChangeState(id)
    {
      entityData := entityData.ChangeState(id);
      ok := true;
    }

    /** `ApplyBuff`: forwarded to the record. */
    method ApplyBuff(b: Buff)
      modifies this`entityData
      ensures entityData == old(entityData).ApplyBuff(b)
    {
      entityData := entityData.ApplyBuff(b);
    }

    /** `RemoveBuff`: forwarded to the record. */
    method RemoveBuff(id: int)
      modifies this`entityData
      ensures entityData == old(entityData).WithoutBuff(id)
    {
      entityData := Entities.RemoveBuff(entityData, id);
    }

    /** `UpdateNeeds`: with decay on, each need loses its rate times the elapsed time
        through `ModifyStat`. */
    method UpdateNeeds(deltaTime: real)
      modifies this`entityData
      ensures !enableNeedsDecay ==> entityData == old(entityData)
      ensures enableNeedsDecay ==> entityData == Decayed(old(entityData), hungerDecayRate * deltaTime,
        thirstDecayRate * deltaTime, energyDecayRate * deltaTime, restDecayRate * deltaTime)
    {
      if !enableNeedsDecay {
        return;
      }
      ModifyStat(HungerStat, -(hungerDecayRate * deltaTime));
      ModifyStat(ThirstStat, -(thirstDecayRate * deltaTime));
      ModifyStat(EnergyStat, -(energyDecayRate * deltaTime));
      ModifyStat(RestStat, -(restDecayRate * deltaTime));
    }

    /** `EatFood`, `DrinkWater`, `RestoreEnergy` and `Sleep`: the need rises by the amount. */
    method EatFood(amount: real)
      modifies this`entityData
      ensures entityData == ModifiedEntity(old(entityData), HungerStat, amount)
    {
      ModifyStat(HungerStat, amount);
    }

    method DrinkWater(amount: real)
      modifies this`entityData
      ensures entityData == ModifiedEntity(old(entityData), ThirstStat, amount)
    {
      ModifyStat(ThirstStat, amount);
    }

    method RestoreEnergy(amount: real)
      modifies this`entityData
      ensures entityData == ModifiedEntity(old(entityData), EnergyStat, amount)
    {
      ModifyStat(EnergyStat, amount);
    }

    method Sleep(amount: real)
      modifies this`entityData
      ensures entityData == ModifiedEntity(old(entityData), RestStat, amount)
    {
      ModifyStat(RestStat, amount);
    }
  }
}
