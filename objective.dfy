// A quest objective: progress towards a target, capped at the target on completion.
// The struct's mutating members are functions from the old value to the new one.
module Objectives {

  datatype Difficulty = Easy | Medium | Hard | Expert | Legendary

  /** The objective's identity, text, progress and difficulty (reward lists, tags, related
      NPCs and experience rewards are not modelled). `objectiveID` is the enum's value. */
  datatype Objective = Objective(
    objectiveID: int, objectiveName: string, description: string,
    isCompleted: bool, currentProgress: int, targetProgress: int, difficulty: Difficulty)
  {
    /** A completed objective sits exactly at its target. */
    predicate Consistent() {
      isCompleted ==> currentProgress == targetProgress
    }

    /** `UpdateProgress(amount)`: the new value, and whether this update completed it. */
    function UpdateProgress(amount: int): (r: (Objective, bool))
      ensures isCompleted ==> r == (this, false)
      ensures !isCompleted ==> (r.1 <==> currentProgress + amount >= targetProgress)
      ensures r.1 ==> r.0 == this.(currentProgress := targetProgress, isCompleted := true)
      ensures !isCompleted && !r.1 ==> r.0 == this.(currentProgress := currentProgress + amount)
      ensures r.0.targetProgress == targetProgress && r.0.objectiveID == objectiveID
    {
      if isCompleted then (this, false)
      else
        var progress := currentProgress + amount;
        if progress >= targetProgress then (this.(currentProgress := targetProgress, isCompleted := true), true)
        else (this.(currentProgress := progress), false)
    }

    /** `CompleteObjective`. */
    function CompleteObjective(): (r: Objective)
      ensures r.isCompleted && r.RemainingProgress() == 0 && r.Consistent()
      ensures r == this.(currentProgress := targetProgress, isCompleted := true)
    {
      this.(currentProgress := targetProgress, isCompleted := true)
    }

    /** `ResetObjective`. */
    function ResetObjective(): (r: Objective)
      ensures !r.isCompleted && r.currentProgress == 0 && r.Consistent()
      ensures r == this.(currentProgress := 0, isCompleted := false)
    {
      this.(currentProgress := 0, isCompleted := false)
    }

    /** `RemainingProgress`: never negative, and zero exactly when the target is reached. */
    function RemainingProgress(): (r: int)
      ensures r >= 0
      ensures r == 0 <==> currentProgress >= targetProgress
      ensures currentProgress <= targetProgress ==> currentProgress + r == targetProgress
    {
      if targetProgress - currentProgress > 0 then targetProgress - currentProgress else 0
    }

    /** `IsPartiallyCompleted`. */
    predicate IsPartiallyCompleted() {
      currentProgress > 0 && currentProgress < targetProgress
    }

    /** `ProgressPercentage`, as a fraction. */
    function ProgressPercentage(): (r: real)
      ensures targetProgress <= 0 ==> r == 0.0
      ensures targetProgress > 0 && 0 <= currentProgress <= targetProgress ==> 0.0 <= r <= 1.0
      ensures targetProgress > 0 && currentProgress == targetProgress ==> r == 1.0
    {
      if targetProgress > 0 then currentProgress as real / targetProgress as real else 0.0
    }
  }

  /** The constructor: no progress yet and not completed. */
  function NewObjective(id: int, name: string, description: string, targetProgress: int,
                        difficulty: Difficulty): (o: Objective)
    ensures o.currentProgress == 0 && !o.isCompleted && o.Consistent()
    ensures o.objectiveID == id && o.targetProgress == targetProgress && o.difficulty == difficulty
    ensures targetProgress > 0 ==> o.RemainingProgress() == targetProgress && !o.IsPartiallyCompleted()
  {
    Objective(id, name, description, false, 0, targetProgress, difficulty)
  }

  /** Every mutator keeps a completed objective at its target. */
  lemma MutatorsKeepConsistent(o: Objective, amount: int)
    requires o.Consistent()
    ensures o.UpdateProgress(amount).0.Consistent()
    ensures o.CompleteObjective().Consistent() && o.ResetObjective().Consistent()
  {
  }

  /** An update that reports completion leaves nothing remaining; one that does not leaves
      the objective open (or already closed before). */
  lemma UpdateProgressMeaning(o: Objective, amount: int)
    ensures o.UpdateProgress(amount).1 ==> o.UpdateProgress(amount).0.RemainingProgress() == 0
    ensures !o.isCompleted && !o.UpdateProgress(amount).1 ==> !o.UpdateProgress(amount).0.isCompleted
  {
  }

  /** A consistent objective that is partially done is not completed and has progress left. */
  lemma PartialIsOpen(o: Objective)
    requires o.Consistent() && o.IsPartiallyCompleted()
    ensures !o.isCompleted && o.RemainingProgress() > 0
  {
  }

  /** Updating a completed objective again changes nothing and reports nothing. */
  lemma CompletedIgnoresUpdates(o: Objective, a: int, b: int)
    requires o.UpdateProgress(a).1
    ensures o.UpdateProgress(a).0.UpdateProgress(b) == (o.UpdateProgress(a).0, false)
  {
  }

  /** `DifficultyMultiplier`. */
  function DifficultyMultiplier(d: Difficulty): (r: real)
    ensures r >= 1.0
    ensures d == Easy <==> r == 1.0
  {
    match d
    case Easy => 1.0
    case Medium => 1.25
    case Hard => 1.5
    case Expert => 2.0
    case Legendary => 3.0
  }

  function DifficultyRank(d: Difficulty): int {
    match d
    case Easy => 0
    case Medium => 1
    case Hard => 2
    case Expert => 3
    case Legendary => 4
  }

  /** A harder difficulty always pays a strictly larger multiplier. */
  lemma MultiplierIncreasing(a: Difficulty, b: Difficulty)
    requires DifficultyRank(a) < DifficultyRank(b)
    ensures DifficultyMultiplier(a) < DifficultyMultiplier(b)
  {
  }
}
