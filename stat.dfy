// A stat: a current value kept in a [min, max] range by every setter, next to a base
// value. The struct's mutating members are functions from the old value to the new one.
module Stats {
  import opened UtilityStructs

  datatype StatType = Primary | Secondary | Tertiary

  /** `Mathf.Clamp(v, lo, hi)`. */
  function Clamp(v: real, lo: real, hi: real): (r: real)
    ensures lo <= hi ==> lo <= r <= hi
    ensures lo <= v <= hi ==> r == v
  {
    if v < lo then lo else if v > hi then hi else v
  }

  /** Clamping twice is clamping once. */
  lemma ClampIdempotent(v: real, lo: real, hi: real)
    requires lo <= hi
    ensures Clamp(Clamp(v, lo, hi), lo, hi) == Clamp(v, lo, hi)
  {
  }

  /** `statID` is the stat identifier's integer value. */
  datatype Stat = Stat(
    statID: int, statName: string, statDescription: string, statType: StatType,
    baseValue: real, currentValue: real, minValue: real, maxValue: real)
  {
    /** min <= current <= max. */
    predicate InRange() { minValue <= currentValue <= maxValue }

    /** `GetPercentage`: current / max, or 0 without a positive max. */
    function GetPercentage(): (r: real)
      ensures maxValue > 0.0 ==> r * maxValue == currentValue
      ensures maxValue <= 0.0 ==> r == 0.0
    {
      if maxValue > 0.0 then currentValue / maxValue else 0.0
    }

    /** `ModifyStat`: adds `amount`, then clamps into the range. */
    function ModifyStat(amount: real): (r: Stat)
      ensures r == this.(currentValue := Clamp(currentValue + amount, minValue, maxValue))
      ensures minValue <= maxValue ==> r.InRange()
    {
      this.(currentValue := Clamp(currentValue + amount, minValue, maxValue))
    }

    /** `SetCurrentValue`: the clamped value. */
    function SetCurrentValue(value: real): (r: Stat)
      ensures r == this.(currentValue := Clamp(value, minValue, maxValue))
      ensures minValue <= maxValue ==> r.InRange()
      ensures minValue <= value <= maxValue ==> r.currentValue == value
    {
      this.(currentValue := Clamp(value, minValue, maxValue))
    }

    /** `SetBaseValue(value, updateCurrent)`. */
    function SetBaseValue(value: real, updateCurrent: bool): (r: Stat)
      ensures !updateCurrent ==> r == this.(baseValue := value)
      ensures updateCurrent ==> r == this.(baseValue := value).SetCurrentValue(value)
    {
      var s := this.(baseValue := value);
      if updateCurrent then s.SetCurrentValue(value) else s
    }

    /** `RestoreToMax`. */
    function RestoreToMax(): (r: Stat)
      ensures r.IsAtMax() && r.GetMissingAmount() == 0.0
      ensures r == this.(currentValue := maxValue)
    {
      this.(currentValue := maxValue)
    }

    /** `RestoreToBase`. */
    function RestoreToBase(): (r: Stat)
      ensures r == this.(currentValue := baseValue)
    {
      this.(currentValue := baseValue)
    }

    /** `IsAtMax` / `IsFull` (`Mathf.Approximately` read as equality). */
    predicate IsAtMax() { currentValue == maxValue }

    /** `IsAtMin` / `IsEmpty`. */
    predicate IsAtMin() { currentValue == minValue }

    /** `GetMissingAmount`: how far current is below max. */
    function GetMissingAmount(): (r: real)
      ensures r == 0.0 <==> IsAtMax()
      ensures currentValue <= maxValue ==> r >= 0.0
    {
      maxValue - currentValue
    }

    /** `CalculateModifiedValue`: the modifiers applied to the base value. */
    function CalculateModifiedValue(modifiers: StatModifiers): (r: real)
      ensures modifiers == Identity ==> r == baseValue
    {
      modifiers.ApplyTo(baseValue)
    }

    /** `ApplyModifiers`: the modifiers applied to the current value, then clamped. */
    function ApplyModifiers(modifiers: StatModifiers): (r: Stat)
      ensures r == SetCurrentValue(modifiers.ApplyTo(currentValue))
      ensures minValue <= maxValue ==> r.InRange()
      ensures InRange() && modifiers == Identity ==> r == this
    {
      SetCurrentValue(modifiers.ApplyTo(currentValue))
    }

    /** `WithName`: rebuilt through the constructor, so current resets to base. */
    function WithName(newName: string): (r: Stat)
      ensures r == NewStat(statID, newName, baseValue, minValue, maxValue, statType, statDescription)
      ensures r.currentValue == baseValue && r.statName == newName
    {
      NewStat(statID, newName, baseValue, minValue, maxValue, statType, statDescription)
    }

    /** `WithRange`: rebuilt through the constructor, so current resets to base. */
    function WithRange(newMin: real, newMax: real): (r: Stat)
      ensures r == NewStat(statID, statName, baseValue, newMin, newMax, statType, statDescription)
      ensures r.currentValue == baseValue && r.minValue == newMin && r.maxValue == newMax
    {
      NewStat(statID, statName, baseValue, newMin, newMax, statType, statDescription)
    }
  }

  /** The constructor: current starts at base, without clamping. */
  function NewStat(id: int, name: string, baseVal: real, minVal: real, maxVal: real,
                   statType: StatType, description: string): (s: Stat)
    ensures s.currentValue == baseVal && s.baseValue == baseVal
    ensures s.minValue == minVal && s.maxValue == maxVal && s.statID == id && s.statName == name
    ensures s.InRange() <==> minVal <= baseVal <= maxVal
  {
    Stat(id, name, description, statType, baseVal, baseVal, minVal, maxVal)
  }

  /** The constructor does not clamp: a base above the range gives a stat out of range. */
  lemma ConstructorDoesNotClamp()
    ensures !NewStat(0, "Health", 150.0, 0.0, 100.0, Primary, "").InRange()
  {
  }

  /** Every setter brings a stat with an ordered range back into it, and setting the same
      value twice is setting it once. */
  lemma SettersRestoreRange(s: Stat, v: real, a: real, m: StatModifiers)
    requires s.minValue <= s.maxValue
    ensures s.ModifyStat(a).InRange() && s.SetCurrentValue(v).InRange()
    ensures s.ApplyModifiers(m).InRange() && s.SetBaseValue(v, true).InRange()
    ensures s.SetCurrentValue(v).SetCurrentValue(v) == s.SetCurrentValue(v)
  {
    ClampIdempotent(v, s.minValue, s.maxValue);
  }

  /** `ModifyStat` by an amount and back undoes itself while neither step hits a bound. */
  lemma ModifyStatInverse(s: Stat, a: real)
    requires s.InRange() && s.minValue <= s.currentValue + a <= s.maxValue
    ensures s.ModifyStat(a).ModifyStat(-a) == s
  {
  }

  /** `CreateHealth`, `CreateMana` and `CreateStamina`: full at `max` in [0, max]. The
      identifier constants are those of Health (0), Mana (1) and Stamina (2). */
  function CreateResource(id: int, name: string, max: real, description: string): (s: Stat)
    ensures s.statID == id && s.IsAtMax() && s.currentValue == max && s.minValue == 0.0
    ensures max >= 0.0 ==> s.InRange()
  {
    NewStat(id, name, max, 0.0, max, Primary, description)
  }
}
