// The three needs of a pop (hunger, thirst, rest) on a 0..100 scale, each decaying
// at its own rate per second and held within the scale.
module Needs {
  import opened Stats

  /** One need after `dt` seconds at `rate`, clamped to the scale. */
  function NeedDecayed(need: real, rate: real, dt: real): (r: real)
    ensures 0.0 <= r <= 100.0
    ensures 0.0 <= need - rate * dt <= 100.0 ==> r == need - rate * dt
  {
    Clamp(need - rate * dt, 0.0, 100.0)
  }

  /** Decay at a non-negative rate never raises an in-scale need, and no time passing
      leaves it as it was. */
  lemma DecayNeverRaises(need: real, rate: real, dt: real)
    requires 0.0 <= need <= 100.0
    ensures rate >= 0.0 && dt >= 0.0 ==> NeedDecayed(need, rate, dt) <= need
    ensures NeedDecayed(need, rate, 0.0) == need
  {
    if rate >= 0.0 && dt >= 0.0 {
      assert rate * dt >= 0.0;
    }
  }

  class NeedsComponent {
    var hunger: real
    var thirst: real
    var rest: real
    const hungerDecayRate: real
    const thirstDecayRate: real
    const restDecayRate: real

    predicate InScale()
      reads this
    {
      0.0 <= hunger <= 100.0 && 0.0 <= thirst <= 100.0 && 0.0 <= rest <= 100.0
    }

    /** The serialized defaults: all needs full, decaying at 1, 1.2 and 0.5 per second. */
    constructor()
      ensures hunger == 100.0 && thirst == 100.0 && rest == 100.0
      ensures hungerDecayRate == 1.0 && thirstDecayRate == 1.2 && restDecayRate == 0.5
      ensures InScale()
    {
      hunger, thirst, rest := 100.0, 100.0, 100.0;
      hungerDecayRate, thirstDecayRate, restDecayRate := 1.0, 1.2, 0.5;
    }

    /** `UpdateNeeds`: each need decays by its own rate, independently of the others, and
        all end within the scale. */
    method UpdateNeeds(deltaTime: real)
      modifies this`hunger, this`thirst, this`rest
      ensures hunger == NeedDecayed(old(hunger), hungerDecayRate, deltaTime)
      ensures thirst == NeedDecayed(old(thirst), thirstDecayRate, deltaTime)
      ensures rest == NeedDecayed(old(rest), restDecayRate, deltaTime)
      ensures InScale()
    {
      hunger := Clamp(hunger - hungerDecayRate * deltaTime, 0.0, 100.0);
      thirst := Clamp(thirst - thirstDecayRate * deltaTime, 0.0, 100.0);
      rest := Clamp(rest - restDecayRate * deltaTime, 0.0, 100.0);
    }
  }
}
