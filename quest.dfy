// A quest: a status state machine over a list of objectives and an integer completion
// percentage. The struct's mutating members are functions from the old value to the new one.
module Quests {
  import opened Objectives

  datatype QuestStatus = NotStarted | Available | InProgress | Completed | Failed | Abandoned | TurnedIn

  datatype QuestType =
    | Main | Side | Daily | Weekly | Seasonal | Event | Chain | Repeatable | Investigation
    | GatherResources | KillTarget | ExploreArea | SocialInteraction | CraftItem | DeliverItem
    | EscortNPC | DefendLocation | SurviveTime

  /** `questID` is the enum's value. A null objective list is modelled as the empty one:
      the only code that reads it treats both alike. Rewards are not modelled. */
  datatype Quest = Quest(
    questID: int, questName: string, description: string, status: QuestStatus,
    objectives: seq<Objective>, experienceReward: int, questCompletionPercentage: int,
    questType: QuestType)
  {
    predicate CanStart() { status == NotStarted || status == Available }
    predicate IsActive() { status == InProgress }
    predicate IsCompleted() { status == Completed || status == TurnedIn }
    predicate HasFailed() { status == Failed || status == Abandoned }

    /** `StartQuest`: only a quest that can start moves to InProgress. */
    function StartQuest(): (r: Quest)
      ensures CanStart() ==> r == this.(status := InProgress) && r.IsActive()
      ensures !CanStart() ==> r == this
    {
      if CanStart() then this.(status := InProgress) else this
    }

    /** `CompleteQuest`: Completed at 100 percent, from any status. */
    function CompleteQuest(): (r: Quest)
      ensures r.IsCompleted() && r.questCompletionPercentage == 100
      ensures r == this.(status := Completed, questCompletionPercentage := 100)
    {
      this.(status := Completed, questCompletionPercentage := 100)
    }

    /** `FailQuest`. */
    function FailQuest(): (r: Quest)
      ensures r.HasFailed() && r == this.(status := Failed)
    {
      this.(status := Failed)
    }

    /** `AbandonQuest`. */
    function AbandonQuest(): (r: Quest)
      ensures r.HasFailed() && r == this.(status := Abandoned)
    {
      this.(status := Abandoned)
    }
  }

  /** The constructor: not started, at 0 percent, of type GatherResources, with no objectives. */
  function NewQuest(id: int, name: string, description: string): (q: Quest)
    ensures q.status == NotStarted && q.questCompletionPercentage == 0
    ensures q.CanStart() && q.objectives == [] && q.questID == id
    ensures q.questType == GatherResources && q.experienceReward == 0
  {
    Quest(id, name, description, NotStarted, [], 0, 0, GatherResources)
  }

  /** The four status predicates never hold two at a time. */
  lemma StatusPredicatesExclusive(q: Quest)
    ensures !(q.CanStart() && q.IsActive()) && !(q.CanStart() && q.IsCompleted())
    ensures !(q.CanStart() && q.HasFailed()) && !(q.IsActive() && q.IsCompleted())
    ensures !(q.IsActive() && q.HasFailed()) && !(q.IsCompleted() && q.HasFailed())
  {
  }

  /** Starting, then completing or failing, each leave exactly one predicate true. */
  lemma TransitionsLandInOneState(q: Quest)
    requires q.CanStart()
    ensures q.StartQuest().IsActive() && !q.StartQuest().CanStart()
    ensures q.StartQuest().CompleteQuest().IsCompleted() && !q.StartQuest().CompleteQuest().IsActive()
    ensures q.StartQuest().FailQuest().HasFailed() && !q.StartQuest().FailQuest().IsActive()
  {
  }

  /** Number of completed objectives, counted from the back. */
  function CountCompleted(objs: seq<Objective>): (n: nat)
    ensures n <= |objs|
    decreases |objs|
  {
    if objs == [] then 0
    else CountCompleted(objs[..|objs| - 1]) + (if objs[|objs| - 1].isCompleted then 1 else 0)
  }

  /** All objectives are counted exactly when all are completed. */
  lemma {:induction false} CountCompletedAll(objs: seq<Objective>)
    ensures CountCompleted(objs) == |objs| <==> forall i :: 0 <= i < |objs| ==> objs[i].isCompleted
    decreases |objs|
  {
    if objs != [] {
      var n := |objs| - 1;
      CountCompletedAll(objs[..n]);
      assert forall i :: 0 <= i < n ==> objs[..n][i] == objs[i];
    }
  }

  /** The percentage `UpdateCompletionPercentage` stores: 0 for no objectives, otherwise
      `completed * 100 / count` in integer division (both operands are non-negative, so
      truncation and Dafny's division agree). */
  function CompletionPercent(objs: seq<Objective>): (p: int)
    ensures 0 <= p <= 100
  {
    if |objs| == 0 then 0 else CountCompleted(objs) * 100 / |objs|
  }

  /** The percentage is 100 exactly when there is at least one objective and all are done. */
  lemma CompletionPercentFull(objs: seq<Objective>)
    ensures CompletionPercent(objs) == 100 <==>
      |objs| > 0 && forall i :: 0 <= i < |objs| ==> objs[i].isCompleted
  {
    CountCompletedAll(objs);
    if |objs| > 0 {
      PercentBelowFull(CountCompleted(objs), |objs|);
    }
  }

  /** The sign facts about a product with a positive factor that the percentage needs. */
  lemma FactorSign(a: int, b: int)
    requires b > 0
    ensures a * b > 0 ==> a > 0
    ensures a * b < b ==> a < 1
    ensures a * b >= 0 ==> a >= 0
  {
  }

  /** `c * 100 / n` is 100 when c == n and below 100 when c < n. */
  lemma PercentBelowFull(c: nat, n: nat)
    requires 0 < n && c <= n
    ensures c * 100 / n == 100 <==> c == n
  {
    var q := c * 100 / n;
    var r := c * 100 % n;
    assert q * n + r == c * 100 && 0 <= r < n;
    if c == n {
      assert (100 - q) * n == r;
    } else {
      assert (100 - q) * n == 100 * n - c * 100 + r;
    }
    FactorSign(100 - q, n);
  }

  /** `UpdateCompletionPercentage`: counts the completed objectives, stores the percentage,
      and completes an InProgress quest whose objectives are all done. */
  method UpdateCompletionPercentage(q: Quest) returns (r: Quest)
    ensures 0 <= r.questCompletionPercentage <= 100
    ensures r.questCompletionPercentage == 100 <==>
      |q.objectives| > 0 && forall i :: 0 <= i < |q.objectives| ==> q.objectives[i].isCompleted
    ensures r.questCompletionPercentage == 100 && q.status == InProgress ==> r.status == Completed
    ensures !(r.questCompletionPercentage == 100 && q.status == InProgress) ==> r.status == q.status
    ensures r == q.(questCompletionPercentage := CompletionPercent(q.objectives), status := r.status)
  {
    if |q.objectives| == 0 {
      return q.(questCompletionPercentage := 0);
    }
    var completed := 0;
    var i := 0;
    while i < |q.objectives|
      invariant 0 <= i <= |q.objectives|
      invariant completed == CountCompleted(q.objectives[..i])
    {
      assert q.objectives[..i + 1][..i] == q.objectives[..i];
      if q.objectives[i].isCompleted {
        completed := completed + 1;
      }
      i := i + 1;
    }
    assert q.objectives[..i] == q.objectives;
    r := q.(questCompletionPercentage := completed * 100 / |q.objectives|);
    CompletionPercentFull(q.objectives);
    if r.questCompletionPercentage >= 100 && r.status == InProgress {
      r := r.CompleteQuest();
    }
  }
}
