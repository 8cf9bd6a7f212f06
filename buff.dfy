// A buff or debuff: a magnitude, a countdown for timed buffs (duration 0 or less means
// permanent) and a stack count. The struct's mutating members return the new value.
module Buffs {
  import opened UtilityStructs

  datatype BuffType = Temporary | Permanent | Conditional | Stackable | Unique

  /** `buffID` is the buff identifier's integer value. */
  datatype Buff = Buff(
    buffID: int, buffName: string, buffDescription: string, buffType: BuffType,
    magnitude: real, duration: real, remainingTime: real, isBeneficial: bool,
    isStackable: bool, stackCount: int, maxStacks: int, modifiers: StatModifiers,
    tags: seq<string>)
  {
    /** The stack count lies in [1, max(1, maxStacks)]. */
    predicate StacksInRange() {
      1 <= stackCount && (stackCount <= maxStacks || stackCount == 1)
    }

    predicate IsPermanent() { duration <= 0.0 }

    /** `IsExpired`: a timed buff whose time has run out; a permanent buff never expires. */
    function IsExpired(): (r: bool)
      ensures r ==> !IsPermanent() && remainingTime <= 0.0
      ensures IsPermanent() ==> !r
    {
      duration > 0.0 && remainingTime <= 0.0
    }

    /** `Update(deltaTime)`: the new buff and whether it is still active. */
    function Update(deltaTime: real): (r: (Buff, bool))
      ensures IsPermanent() ==> r == (this, true)
      ensures !IsPermanent() ==> r.0 == this.(remainingTime := remainingTime - deltaTime)
      ensures r.1 <==> !r.0.IsExpired()
    {
      if duration <= 0.0 then (this, true)
      else
        var b := this.(remainingTime := remainingTime - deltaTime);
        (b, b.remainingTime > 0.0)
    }

    /** `AddStack`: refused when not stackable or already at the maximum. */
    function AddStack(): (r: (Buff, bool))
      ensures r.1 <==> isStackable && stackCount < maxStacks
      ensures r.1 ==> r.0 == this.(stackCount := stackCount + 1)
      ensures !r.1 ==> r.0 == this
    {
      if !isStackable || stackCount >= maxStacks then (this, false)
      else (this.(stackCount := stackCount + 1), true)
    }

    /** `EffectiveMagnitude`: one magnitude per stack, so a single stack is the bare
        magnitude and more stacks of a non-negative magnitude never weaken it. */
    function EffectiveMagnitude(): (m: real)
      ensures stackCount == 1 ==> m == magnitude
      ensures StacksInRange() && magnitude >= 0.0 ==> m >= magnitude
      ensures stackCount == 0 ==> m == 0.0
    {
      magnitude * stackCount as real
    }

    /** `RemainingTimePercentage`: remaining / duration for a timed buff, 1 for a permanent one. */
    function RemainingTimePercentage(): (p: real)
      ensures IsPermanent() ==> p == 1.0
      ensures !IsPermanent() ==> p * duration == remainingTime
    {
      if duration > 0.0 then remainingTime / duration else 1.0
    }
  }

  /** The constructor: one stack, the full duration remaining, all-zero modifiers (`new
      StatModifiers()`), no tags. */
  function NewBuff(id: int, name: string, description: string, buffType: BuffType, magnitude: real,
                   duration: real, beneficial: bool, stackable: bool, maxStacks: int): (b: Buff)
    ensures b.stackCount == 1 && b.remainingTime == b.duration == duration
    ensures b.maxStacks == maxStacks && b.isStackable == stackable && b.isBeneficial == beneficial
    ensures b.magnitude == magnitude && b.modifiers == Zero && b.tags == []
    ensures b.StacksInRange() && !b.IsExpired()
    ensures b.RemainingTimePercentage() == 1.0
  {
    assert duration > 0.0 ==> duration / duration == 1.0;
    Buff(id, name, description, buffType, magnitude, duration, duration, beneficial,
         stackable, 1, maxStacks, Zero, [])
  }

  /** Every freshly built buff has its stacks in range, and `AddStack` and `Update` keep them so. */
  lemma StacksStayInRange(b: Buff, dt: real)
    requires b.StacksInRange()
    ensures b.AddStack().0.StacksInRange() && b.Update(dt).0.StacksInRange()
    ensures b.AddStack().0.stackCount <= if b.maxStacks > 1 then b.maxStacks else 1
  {
  }

  /** A successful stack adds exactly one magnitude to the effective magnitude; a refused one
      changes nothing. */
  lemma StackAddsMagnitude(b: Buff)
    ensures b.AddStack().1 ==> b.AddStack().0.EffectiveMagnitude() == b.EffectiveMagnitude() + b.magnitude
    ensures !b.AddStack().1 ==> b.AddStack().0.EffectiveMagnitude() == b.EffectiveMagnitude()
  {
    if b.AddStack().1 {
      assert (b.stackCount + 1) as real == b.stackCount as real + 1.0;
    }
  }

  /** Two updates of a timed buff count down as one update by their sum, and a permanent
      buff never expires. */
  lemma UpdatesCompose(b: Buff, d1: real, d2: real)
    ensures b.Update(d1).0.Update(d2).0 == b.Update(d1 + d2).0
    ensures b.IsPermanent() ==> b.Update(d1).1 && b.Update(d1).0.remainingTime == b.remainingTime
  {
  }
}
