// The small value types shared by entities: health, age, size and stat modifiers.
// Floats are reals; every member is a pure function of the struct's fields.
module UtilityStructs {

  function Min(a: real, b: real): real { if a <= b then a else b }
  function Max(a: real, b: real): real { if a >= b then a else b }

  // ---------------------------------------------------------------- Health

  datatype Health = Health(current: real, max: real)
  {
    /** `Percentage`: current / max, or 0 without a positive max. */
    function Percentage(): (r: real)
      ensures max > 0.0 ==> r * max == current
      ensures max <= 0.0 ==> r == 0.0
    {
      if max > 0.0 then current / max else 0.0
    }

    predicate IsAlive() { current > 0.0 }
    predicate IsHealthy() { Percentage() > 0.5 }
    predicate IsCritical() { Percentage() < 0.25 }

    /** `TakeDamage`: a new value floored at 0, through the constructor. */
    function TakeDamage(damage: real): (r: Health)
      ensures r.max == max
      ensures r.current == Max(0.0, current - damage)
      ensures damage >= 0.0 && 0.0 <= current <= max ==> 0.0 <= r.current <= max
    {
      NewHealth(max, Max(0.0, current - damage))
    }

    /** `Heal`: a new value capped at max, through the constructor (so a result below 0
        is read as "no current given" and becomes max). */
    function Heal(amount: real): (r: Health)
      ensures r.max == max
      ensures Min(max, current + amount) >= 0.0 ==> r.current == Min(max, current + amount)
      ensures amount >= 0.0 && 0.0 <= current <= max ==> 0.0 <= r.current <= max
    {
      NewHealth(max, Min(max, current + amount))
    }
  }

  /** The constructor: a negative current means "start at max". */
  function NewHealth(max: real, current: real): (h: Health)
    ensures h.max == max
    ensures current < 0.0 ==> h.current == max
    ensures current >= 0.0 ==> h.current == current
  {
    Health(if current < 0.0 then max else current, max)
  }

  /** Above half and below a quarter cannot hold together. */
  lemma HealthyAndCriticalExclusive(h: Health)
    ensures !(h.IsHealthy() && h.IsCritical())
  {
  }

  /** Damage that does not reach zero is undone by healing the same amount, and healing
      that does not reach max is undone by the same damage. */
  lemma DamageHealInverse(h: Health, x: real)
    requires 0.0 <= x && 0.0 <= h.current <= h.max
    ensures x <= h.current ==> h.TakeDamage(x).Heal(x) == h
    ensures h.current + x <= h.max ==> h.Heal(x).TakeDamage(x) == h
  {
  }

  /** Healing by so negative an amount that the capped value drops below zero restores
      full health instead: the constructor reads the negative value as "not given". */
  lemma HealBelowZeroRestoresFull(h: Health, amount: real)
    requires h.current + amount < 0.0
    ensures h.Heal(amount).current == h.max
  {
  }

  // ---------------------------------------------------------------- Stat modifiers

  /** Flat bonus, percentage bonus (1.0 = +100%) and multiplier. */
  datatype StatModifiers = StatModifiers(flatBonus: real, percentageBonus: real, multiplier: real)
  {
    /** `ApplyTo`: (base + flat) * (1 + percentage) * multiplier. */
    function ApplyTo(baseValue: real): (r: real)
      ensures this == Identity ==> r == baseValue
      ensures multiplier == 0.0 ==> r == 0.0
    {
      (baseValue + flatBonus) * (1.0 + percentageBonus) * multiplier
    }

    /** `CombineWith`: bonuses add, multipliers multiply. */
    function CombineWith(other: StatModifiers): (r: StatModifiers)
      ensures other == Identity ==> r == this
      ensures this == Identity ==> r == other
    {
      StatModifiers(flatBonus + other.flatBonus, percentageBonus + other.percentageBonus,
                    multiplier * other.multiplier)
    }
  }

  /** The constructor with its default arguments: no bonus and multiplier 1. */
  const Identity := StatModifiers(0.0, 0.0, 1.0)

  /** `new StatModifiers()` / `default`: every field zero, so the multiplier is 0. */
  const Zero := StatModifiers(0.0, 0.0, 0.0)

  /** Combining is commutative and associative with `Identity` as its unit. */
  lemma CombineMonoid(a: StatModifiers, b: StatModifiers, c: StatModifiers)
    ensures a.CombineWith(b) == b.CombineWith(a)
    ensures a.CombineWith(b).CombineWith(c) == a.CombineWith(b.CombineWith(c))
    ensures a.CombineWith(Identity) == a && Identity.CombineWith(a) == a
  {
  }

  /** The zero value absorbs every multiplier: combined with anything it still has
      multiplier 0, and applying it to any base gives 0. */
  lemma ZeroAbsorbs(a: StatModifiers, b: real)
    ensures Zero.CombineWith(a).multiplier == 0.0
    ensures Zero.CombineWith(a).ApplyTo(b) == 0.0
  {
  }

  // ---------------------------------------------------------------- Age

  datatype Age = Age(currentAge: int, maxAge: int, modifiers: StatModifiers)
  {
    /** `Percentage`: currentAge / maxAge as a real, or 0 without a positive maximum. */
    function Percentage(): (r: real)
      ensures maxAge > 0 ==> r * maxAge as real == currentAge as real
      ensures maxAge <= 0 ==> r == 0.0
    {
      if maxAge > 0 then currentAge as real / maxAge as real else 0.0
    }

    predicate IsYoung() { Percentage() < 0.25 }
    predicate IsAdult() { Percentage() >= 0.25 && Percentage() <= 0.75 }
    predicate IsElderly() { Percentage() > 0.75 }
  }

  /** The constructor: a negative current age means 0; the modifiers default to zero. */
  function NewAge(max: int, current: int, modifiers: StatModifiers): (a: Age)
    ensures a.maxAge == max && a.modifiers == modifiers
    ensures a.currentAge == (if current < 0 then 0 else current)
    ensures a.currentAge >= 0
  {
    Age(if current < 0 then 0 else current, max, modifiers)
  }

  /** Exactly one life stage holds. */
  lemma ExactlyOneLifeStage(a: Age)
    ensures a.IsYoung() || a.IsAdult() || a.IsElderly()
    ensures !(a.IsYoung() && a.IsAdult()) && !(a.IsYoung() && a.IsElderly())
    ensures !(a.IsAdult() && a.IsElderly())
  {
  }

  /** A newly built age with a positive maximum starts young. */
  lemma NewbornIsYoung(max: int, modifiers: StatModifiers)
    requires max > 0
    ensures NewAge(max, -1, modifiers).IsYoung()
  {
  }

  // ---------------------------------------------------------------- Entity size

  datatype SizeCategory = Tiny | Small | Medium | Large | Huge | Gargantuan

  datatype EntitySize = EntitySize(category: SizeCategory, width: real, height: real, length: real)
  {
    function Volume(): (v: real)
      ensures width >= 0.0 && height >= 0.0 && length >= 0.0 ==> v >= 0.0
    {
      width * height * length
    }
  }

  function CategoryRank(c: SizeCategory): int {
    match c
    case Tiny => 0
    case Small => 1
    case Medium => 2
    case Large => 3
    case Huge => 4
    case Gargantuan => 5
  }

  /** The side length the category constructor uses for every dimension. */
  function CategoryDimension(c: SizeCategory): (d: real)
    ensures d > 0.0
  {
    match c
    case Tiny => 0.5
    case Small => 1.0
    case Medium => 1.5
    case Large => 2.0
    case Huge => 3.0
    case Gargantuan => 4.0
  }

  /** `EntitySize(category)`: a cube of the category's side length. */
  function SizeOfCategory(c: SizeCategory): (s: EntitySize)
    ensures s.category == c
    ensures s.width == s.height == s.length == CategoryDimension(c)
  {
    var d := CategoryDimension(c);
    EntitySize(c, d, d, d)
  }

  /** The category of a largest dimension, by the thresholds 0.5, 1, 1.5, 2 and 3. */
  function CategoryOf(m: real): (c: SizeCategory)
    ensures m <= 0.5 <==> c == Tiny
    ensures m > 3.0 <==> c == Gargantuan
  {
    if m <= 0.5 then Tiny
    else if m <= 1.0 then Small
    else if m <= 1.5 then Medium
    else if m <= 2.0 then Large
    else if m <= 3.0 then Huge
    else Gargantuan
  }

  /** `EntitySize(width, height, length)`: the category follows the largest dimension. */
  function SizeOfDimensions(width: real, height: real, length: real): (s: EntitySize)
    ensures s.width == width && s.height == height && s.length == length
    ensures s.category == CategoryOf(Max(width, Max(height, length)))
  {
    EntitySize(CategoryOf(Max(width, Max(height, length))), width, height, length)
  }

  /** A larger largest dimension never gives a smaller category. */
  lemma CategoryMonotone(m1: real, m2: real)
    requires m1 <= m2
    ensures CategoryRank(CategoryOf(m1)) <= CategoryRank(CategoryOf(m2))
  {
  }

  /** The two constructors agree: rebuilding a category's cube from its dimensions gives
      back the same size. */
  lemma SizeConstructorsAgree(c: SizeCategory)
    ensures var d := CategoryDimension(c); SizeOfDimensions(d, d, d) == SizeOfCategory(c)
  {
  }
}
