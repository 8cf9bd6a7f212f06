// The quest repository: two lists, looked up, filtered, replaced and removed by ID.
// Quests and objectives are values, so every update reads an entry, changes the copy
// and writes it back at the same index.
module QuestRepositories {
  import opened ListStore
  import opened Objectives
  import opened Quests

  function QuestIdOf(q: Quest): int { q.questID }
  function ObjectiveIdOf(o: Objective): int { o.objectiveID }

  /** `default(Quest)`: every field zero, the enums at their first value, no objectives. */
  const DefaultQuest := Quest(0, "", "", NotStarted, [], 0, 0, Main)

  /** `default(Objective)`. */
  const DefaultObjective := Objective(0, "", "", false, 0, 0, Easy)

  /** The five quests `InitializeDefaultQuests` adds (IDs MainStory, Gathering, Crafting,
      Exploration and Social). */
  const DefaultQuests := [
    NewQuest(0, "The Beginning", "Start your journey in the world of Lineage"),
    NewQuest(4, "Gather Resources", "Collect basic materials for survival"),
    NewQuest(5, "Learn to Craft", "Create your first tool"),
    NewQuest(2, "Explore the World", "Discover new locations"),
    NewQuest(6, "Meet the Locals", "Interact with NPCs in the area")]

  /** The five objectives `InitializeDefaultObjectives` adds (IDs Collect, Craft,
      TalkToNPC, Explore and Defeat). */
  const DefaultObjectives := [
    NewObjective(0, "Collect Wood", "Gather 10 pieces of wood", 10, Easy),
    NewObjective(3, "Craft Tool", "Create a basic tool", 1, Easy),
    NewObjective(5, "Talk to Elder", "Speak with the village elder", 1, Easy),
    NewObjective(2, "Visit Forest", "Explore the nearby forest", 1, Easy),
    NewObjective(1, "Defeat Wolves", "Kill 3 wolves", 3, Medium)]

  /** The default lists have unique IDs, and every default entry starts fresh. */
  lemma DefaultsWellFormed()
    ensures UniqueKeys(DefaultQuests, QuestIdOf) && UniqueKeys(DefaultObjectives, ObjectiveIdOf)
    ensures forall i :: 0 <= i < |DefaultQuests| ==> DefaultQuests[i].CanStart()
    ensures forall i :: 0 <= i < |DefaultObjectives| ==>
      !DefaultObjectives[i].isCompleted && DefaultObjectives[i].currentProgress == 0
  {
  }

  /** The static class, as one object holding both lists. */
  class QuestRepository {
    var allQuests: seq<Quest>
    var allObjectives: seq<Objective>

    constructor ()
      ensures allQuests == [] && allObjectives == []
    {
      allQuests := [];
      allObjectives := [];
    }

    /** `GetQuestByID` (`FirstOrDefault`): the first quest with the ID, or the default. */
    function GetQuestByID(id: int): (r: Quest)
      reads this
      ensures HasKey(allQuests, QuestIdOf, id) ==>
        r.questID == id && r == allQuests[FindIndexBy(allQuests, QuestIdOf, id)]
      ensures !HasKey(allQuests, QuestIdOf, id) ==> r == DefaultQuest
    {
      var i := FindIndexBy(allQuests, QuestIdOf, id);
      if i >= 0 then allQuests[i] else DefaultQuest
    }

    /** `GetQuestsByStatus`: the quests with that status, in list order. */
    function GetQuestsByStatus(status: QuestStatus): (r: seq<Quest>)
      reads this
      ensures forall i :: 0 <= i < |r| ==> r[i].status == status && r[i] in allQuests
      ensures forall i :: 0 <= i < |allQuests| && allQuests[i].status == status ==> allQuests[i] in r
      ensures Subsequence(r, allQuests)
    {
      Filter(allQuests, (q: Quest) => q.status == status)
    }

    /** A quest appended to the list comes last among the quests of its status, after
        every quest that was listed before. */
    lemma QuestsByStatusAfterAppend(q: Quest, status: QuestStatus)
      ensures Filter(allQuests + [q], (x: Quest) => x.status == status) ==
        GetQuestsByStatus(status) + (if q.status == status then [q] else [])
    {
      FilterConcat(allQuests, [q], (x: Quest) => x.status == status);
      FilterSingleton(q, (x: Quest) => x.status == status);
    }

    /** `GetQuestsByType` (and `GetMainQuests`, `GetSideQuests` for Main and Side). */
    function GetQuestsByType(questType: QuestType): (r: seq<Quest>)
      reads this
      ensures forall i :: 0 <= i < |r| ==> r[i].questType == questType && r[i] in allQuests
      ensures forall i :: 0 <= i < |allQuests| && allQuests[i].questType == questType ==> allQuests[i] in r
      ensures Subsequence(r, allQuests)
    {
      Filter(allQuests, (q: Quest) => q.questType == questType)
    }

    /** `GetActiveQuests`: the InProgress quests. */
    function GetActiveQuests(): (r: seq<Quest>)
      reads this
      ensures forall i :: 0 <= i < |r| ==> r[i].IsActive() && r[i] in allQuests
      ensures forall i :: 0 <= i < |allQuests| && allQuests[i].IsActive() ==> allQuests[i] in r
      ensures Subsequence(r, allQuests)
    {
      Filter(allQuests, (q: Quest) => q.status == InProgress)
    }

    /** `GetCompletedQuests`: Completed and TurnedIn quests alike. */
    function GetCompletedQuests(): (r: seq<Quest>)
      reads this
      ensures forall i :: 0 <= i < |r| ==> r[i].IsCompleted() && r[i] in allQuests
      ensures forall i :: 0 <= i < |allQuests| && allQuests[i].IsCompleted() ==> allQuests[i] in r
      ensures Subsequence(r, allQuests)
    {
      Filter(allQuests, (q: Quest) => q.status == Completed || q.status == TurnedIn)
    }

    /** `GetAvailableQuests`: Available and NotStarted quests alike. */
    function GetAvailableQuests(): (r: seq<Quest>)
      reads this
      ensures forall i :: 0 <= i < |r| ==> r[i].CanStart() && r[i] in allQuests
      ensures forall i :: 0 <= i < |allQuests| && allQuests[i].CanStart() ==> allQuests[i] in r
      ensures Subsequence(r, allQuests)
    {
      Filter(allQuests, (q: Quest) => q.status == Available || q.status == NotStarted)
    }

    /** `AddOrUpdateQuest`: replaces the first quest with the same ID in place, or appends. */
    method AddOrUpdateQuest(quest: Quest)
      modifies this
      ensures allQuests == ReplaceOrAppend(old(allQuests), QuestIdOf, quest)
      ensures allObjectives == old(allObjectives)
      ensures old(UniqueKeys(allQuests, QuestIdOf)) ==>
        UniqueKeys(allQuests, QuestIdOf) && GetQuestByID(quest.questID) == quest
    {
      if UniqueKeys(allQuests, QuestIdOf) {
        ReplaceOrAppendUnique(allQuests, QuestIdOf, quest);
        ReplaceOrAppendLookup(allQuests, QuestIdOf, quest);
      }
      var i := FindIndexBy(allQuests, QuestIdOf, quest.questID);
      if i >= 0 {
        allQuests := allQuests[i := quest];
      } else {
        allQuests := allQuests + [quest];
      }
    }

    /** `RemoveQuest`: drops every quest with the ID; true when there was one. */
    method RemoveQuest(id: int) returns (removed: bool)
      modifies this
      ensures removed <==> HasKey(old(allQuests), QuestIdOf, id)
      ensures allQuests == RemoveAllBy(old(allQuests), QuestIdOf, id)
      ensures !HasKey(allQuests, QuestIdOf, id)
      ensures allObjectives == old(allObjectives)
    {
      var before := |allQuests|;
      allQuests := RemoveAllBy(allQuests, QuestIdOf, id);
      removed := |allQuests| < before;
    }

    /** `StartQuest`: the first quest with the ID, when it can start, becomes InProgress. */
    method StartQuest(id: int) returns (ok: bool)
      modifies this
      ensures ok <==> HasKey(old(allQuests), QuestIdOf, id) && old(GetQuestByID(id)).CanStart()
      ensures ok ==> allQuests == old(allQuests)[FindIndexBy(old(allQuests), QuestIdOf, id) :=
                                                   old(GetQuestByID(id)).(status := InProgress)]
      ensures !ok ==> allQuests == old(allQuests)
      ensures allObjectives == old(allObjectives)
    {
      var i := FindIndexBy(allQuests, QuestIdOf, id);
      if i >= 0 && allQuests[i].CanStart() {
        var quest := allQuests[i].StartQuest();
        allQuests := allQuests[i := quest];
        return true;
      }
      return false;
    }

    /** `CompleteQuest`: the first quest with the ID becomes Completed at 100 percent. */
    method CompleteQuest(id: int) returns (ok: bool)
      modifies this
      ensures ok <==> HasKey(old(allQuests), QuestIdOf, id)
      ensures ok ==> allQuests == old(allQuests)[FindIndexBy(old(allQuests), QuestIdOf, id) :=
                                                   old(GetQuestByID(id)).CompleteQuest()]
      ensures !ok ==> allQuests == old(allQuests)
      ensures allObjectives == old(allObjectives)
    {
      var i := FindIndexBy(allQuests, QuestIdOf, id);
      if i >= 0 {
        var quest := allQuests[i].CompleteQuest();
        allQuests := allQuests[i := quest];
        return true;
      }
      return false;
    }

    /** `FailQuest`: the first quest with the ID becomes Failed. */
    method FailQuest(id: int) returns (ok: bool)
      modifies this
      ensures ok <==> HasKey(old(allQuests), QuestIdOf, id)
      ensures ok ==> allQuests == old(allQuests)[FindIndexBy(old(allQuests), QuestIdOf, id) :=
                                                   old(GetQuestByID(id)).FailQuest()]
      ensures !ok ==> allQuests == old(allQuests)
      ensures allObjectives == old(allObjectives)
    {
      var i := FindIndexBy(allQuests, QuestIdOf, id);
      if i >= 0 {
        var quest := allQuests[i].FailQuest();
        allQuests := allQuests[i := quest];
        return true;
      }
      return false;
    }

    /** `GetObjectiveByID` (`FirstOrDefault`). */
    function GetObjectiveByID(id: int): (r: Objective)
      reads this
      ensures HasKey(allObjectives, ObjectiveIdOf, id) ==>
        r.objectiveID == id && r == allObjectives[FindIndexBy(allObjectives, ObjectiveIdOf, id)]
      ensures !HasKey(allObjectives, ObjectiveIdOf, id) ==> r == DefaultObjective
    {
      var i := FindIndexBy(allObjectives, ObjectiveIdOf, id);
      if i >= 0 then allObjectives[i] else DefaultObjective
    }

    /** `GetObjectivesByDifficulty`. */
    function GetObjectivesByDifficulty(d: Difficulty): (r: seq<Objective>)
      reads this
      ensures forall i :: 0 <= i < |r| ==> r[i].difficulty == d && r[i] in allObjectives
      ensures forall i :: 0 <= i < |allObjectives| && allObjectives[i].difficulty == d ==> allObjectives[i] in r
      ensures Subsequence(r, allObjectives)
    {
      Filter(allObjectives, (o: Objective) => o.difficulty == d)
    }

    /** `GetCompletedObjectives`. */
    function GetCompletedObjectives(): (r: seq<Objective>)
      reads this
      ensures forall i :: 0 <= i < |r| ==> r[i].isCompleted && r[i] in allObjectives
      ensures Subsequence(r, allObjectives)
    {
      Filter(allObjectives, (o: Objective) => o.isCompleted)
    }

    /** `GetIncompleteObjectives`. */
    function GetIncompleteObjectives(): (r: seq<Objective>)
      reads this
      ensures forall i :: 0 <= i < |r| ==> !r[i].isCompleted && r[i] in allObjectives
      ensures Subsequence(r, allObjectives)
    {
      Filter(allObjectives, (o: Objective) => !o.isCompleted)
    }

    /** Completed and incomplete objectives split the list between them. */
    lemma ObjectivesPartition()
      ensures multiset(GetCompletedObjectives()) + multiset(GetIncompleteObjectives()) == multiset(allObjectives)
      ensures |GetCompletedObjectives()| + |GetIncompleteObjectives()| == |allObjectives|
    {
      FilterPartition(allObjectives, (o: Objective) => o.isCompleted, (o: Objective) => !o.isCompleted);
    }

    /** `AddOrUpdateObjective`. */
    method AddOrUpdateObjective(objective: Objective)
      modifies this
      ensures allObjectives == ReplaceOrAppend(old(allObjectives), ObjectiveIdOf, objective)
      ensures allQuests == old(allQuests)
      ensures old(UniqueKeys(allObjectives, ObjectiveIdOf)) ==>
        UniqueKeys(allObjectives, ObjectiveIdOf) && GetObjectiveByID(objective.objectiveID) == objective
    {
      if UniqueKeys(allObjectives, ObjectiveIdOf) {
        ReplaceOrAppendUnique(allObjectives, ObjectiveIdOf, objective);
        ReplaceOrAppendLookup(allObjectives, ObjectiveIdOf, objective);
      }
      var i := FindIndexBy(allObjectives, ObjectiveIdOf, objective.objectiveID);
      if i >= 0 {
        allObjectives := allObjectives[i := objective];
      } else {
        allObjectives := allObjectives + [objective];
      }
    }

    /** `RemoveObjective`. */
    method RemoveObjective(id: int) returns (removed: bool)
      modifies this
      ensures removed <==> HasKey(old(allObjectives), ObjectiveIdOf, id)
      ensures allObjectives == RemoveAllBy(old(allObjectives), ObjectiveIdOf, id)
      ensures allQuests == old(allQuests)
    {
      var before := |allObjectives|;
      allObjectives := RemoveAllBy(allObjectives, ObjectiveIdOf, id);
      removed := |allObjectives| < before;
    }

    /** `UpdateObjectiveProgress`: updates the first objective with the ID, writes the copy
        back and reports whether this update completed it; false when there is none. */
    method UpdateObjectiveProgress(id: int, amount: int) returns (completed: bool)
      modifies this
      ensures !HasKey(old(allObjectives), ObjectiveIdOf, id) ==> !completed && allObjectives == old(allObjectives)
      ensures HasKey(old(allObjectives), ObjectiveIdOf, id) ==>
        var i := FindIndexBy(old(allObjectives), ObjectiveIdOf, id);
        var u := old(allObjectives)[i].UpdateProgress(amount);
        completed == u.1 && allObjectives == old(allObjectives)[i := u.0]
      ensures allQuests == old(allQuests)
    {
      var i := FindIndexBy(allObjectives, ObjectiveIdOf, id);
      if i >= 0 {
        var u := allObjectives[i].UpdateProgress(amount);
        allObjectives := allObjectives[i := u.0];
        return u.1;
      }
      return false;
    }

    /** `Initialize`: both lists replaced by the defaults. */
    method Initialize()
      modifies this
      ensures allQuests == DefaultQuests && allObjectives == DefaultObjectives
      ensures UniqueKeys(allQuests, QuestIdOf) && UniqueKeys(allObjectives, ObjectiveIdOf)
    {
      DefaultsWellFormed();
      allQuests := DefaultQuests;
      allObjectives := DefaultObjectives;
    }
  }
}
