// The skill repository: three lists (skills, buffs, stats), each looked up by ID with a
// default when missing, filtered, replaced-or-appended and removed by ID.
module SkillRepositories {
  import opened ListStore
  import opened UtilityStructs
  import opened Stats
  import opened Buffs

  /** `skillID` is the skill identifier's integer value (Combat 0 ... Blacksmithing 19);
      `skillName` and `skillType` are `SkillType` values, which use the same numbering. */
  datatype Skill = Skill(
    skillID: int, skillName: int, skillType: int, skillDescription: string,
    experience: real, level: int, tags: seq<string>)

  /** The constructor: the name is the type, no description, no tags. */
  function NewSkill(id: int, skillType: int, initialExperience: real, initialLevel: int): (s: Skill)
    ensures s.skillID == id && s.skillType == skillType && s.skillName == skillType
    ensures s.experience == initialExperience && s.level == initialLevel
    ensures s.skillDescription == "" && s.tags == []
  {
    Skill(id, skillType, skillType, "", initialExperience, initialLevel, [])
  }

  function SkillIdOf(s: Skill): int { s.skillID }
  function BuffIdOf(b: Buff): int { b.buffID }
  function StatIdOf(s: Stat): int { s.statID }

  /** `default(Skill)`, `default(Buff)` and `default(Stat)`: every field zero or empty. */
  const DefaultSkill := Skill(0, 0, 0, "", 0.0, 0, [])
  const DefaultBuff := Buff(0, "", "", Temporary, 0.0, 0.0, 0.0, false, false, 0, 0, Zero, [])
  const DefaultStat := Stat(0, "", "", Primary, 0.0, 0.0, 0.0, 0.0)

  /** `InitializeDefaultSkills`: one skill per type from Combat (0) to Art (9), each with
      the same ID as its type, no experience, level 1. */
  const DefaultSkills := [
    NewSkill(0, 0, 0.0, 1), NewSkill(1, 1, 0.0, 1), NewSkill(2, 2, 0.0, 1),
    NewSkill(3, 3, 0.0, 1), NewSkill(4, 4, 0.0, 1), NewSkill(5, 5, 0.0, 1),
    NewSkill(6, 6, 0.0, 1), NewSkill(7, 7, 0.0, 1), NewSkill(8, 8, 0.0, 1),
    NewSkill(9, 9, 0.0, 1)]

  /** `InitializeDefaultBuffs`: six timed, non-stackable buffs (IDs HealthRegen 0,
      ManaRegen 1, StrengthBoost 2, SpeedBoost 3, Poisoned 8 and Cursed 7). */
  const DefaultBuffs := [
    NewBuff(0, "Health Regeneration", "Gradually restores health over time", Temporary, 5.0, 60.0, true, false, 1),
    NewBuff(1, "Mana Regeneration", "Gradually restores mana over time", Temporary, 3.0, 60.0, true, false, 1),
    NewBuff(2, "Strength Boost", "Increases physical strength", Temporary, 10.0, 30.0, true, false, 1),
    NewBuff(3, "Speed Boost", "Increases movement speed", Temporary, 1.5, 20.0, true, false, 1),
    NewBuff(8, "Poisoned", "Gradually reduces health over time", Temporary, -2.0, 45.0, false, false, 1),
    NewBuff(7, "Cursed", "Reduces all stats", Temporary, -5.0, 120.0, false, false, 1)]

  /** `InitializeDefaultStats`: eight stats, current at base (IDs Health 0 ... Charisma 7). */
  const DefaultStats := [
    NewStat(0, "Health", 100.0, 0.0, 1000.0, Primary, "Current health points"),
    NewStat(1, "Mana", 50.0, 0.0, 500.0, Primary, "Current mana points"),
    NewStat(2, "Stamina", 100.0, 0.0, 200.0, Primary, "Current stamina points"),
    NewStat(3, "Strength", 10.0, 1.0, 100.0, Primary, "Physical power"),
    NewStat(4, "Dexterity", 10.0, 1.0, 100.0, Primary, "Agility and precision"),
    NewStat(5, "Intelligence", 10.0, 1.0, 100.0, Primary, "Mental capacity"),
    NewStat(6, "Wisdom", 10.0, 1.0, 100.0, Primary, "Perception and insight"),
    NewStat(7, "Charisma", 10.0, 1.0, 100.0, Primary, "Social influence")]

  /** The default skills are ten, with distinct IDs, each at level 1 with no experience. */
  lemma DefaultSkillsWellFormed()
    ensures |DefaultSkills| == 10 && UniqueKeys(DefaultSkills, SkillIdOf)
    ensures forall i :: 0 <= i < |DefaultSkills| ==>
      DefaultSkills[i].level == 1 && DefaultSkills[i].experience == 0.0
  {
  }

  /** The default buffs have distinct IDs and are fresh. */
  lemma DefaultBuffsWellFormed()
    ensures UniqueKeys(DefaultBuffs, BuffIdOf)
    ensures forall i :: 0 <= i < |DefaultBuffs| ==>
      !DefaultBuffs[i].IsExpired() && DefaultBuffs[i].StacksInRange()
  {
  }

  /** The default stats have distinct IDs and are in range. */
  lemma DefaultStatsWellFormed()
    ensures UniqueKeys(DefaultStats, StatIdOf)
    ensures forall i :: 0 <= i < |DefaultStats| ==> DefaultStats[i].InRange()
  {
  }

  /** The static class, as one object holding the three lists. */
  class SkillRepository {
    var allSkills: seq<Skill>
    var allBuffs: seq<Buff>
    var allStats: seq<Stat>

    constructor ()
      ensures allSkills == [] && allBuffs == [] && allStats == []
    {
      allSkills := [];
      allBuffs := [];
      allStats := [];
    }

    // ------------------------------------------------------------ skills

    /** `GetSkillByID` (`FirstOrDefault`): the first skill with the ID, or the default. */
    function GetSkillByID(id: int): (r: Skill)
      reads this
      ensures HasKey(allSkills, SkillIdOf, id) ==>
        r.skillID == id && r == allSkills[FindIndexBy(allSkills, SkillIdOf, id)]
      ensures !HasKey(allSkills, SkillIdOf, id) ==> r == DefaultSkill
    {
      var i := FindIndexBy(allSkills, SkillIdOf, id);
      if i >= 0 then allSkills[i] else DefaultSkill
    }

    /** `GetSkillsByType`: the skills of that type, in list order. */
    function GetSkillsByType(skillType: int): (r: seq<Skill>)
      reads this
      ensures forall i :: 0 <= i < |r| ==> r[i].skillType == skillType && r[i] in allSkills
      ensures forall i :: 0 <= i < |allSkills| && allSkills[i].skillType == skillType ==> allSkills[i] in r
      ensures Subsequence(r, allSkills)
    {
      Filter(allSkills, (s: Skill) => s.skillType == skillType)
    }

    /** `GetSkillsByMinLevel`: exactly the skills at or above the level, in list order. */
    function GetSkillsByMinLevel(minLevel: int): (r: seq<Skill>)
      reads this
      ensures forall i :: 0 <= i < |r| ==> r[i].level >= minLevel && r[i] in allSkills
      ensures forall i :: 0 <= i < |allSkills| && allSkills[i].level >= minLevel ==> allSkills[i] in r
      ensures |r| == |allSkills| <==> forall i :: 0 <= i < |allSkills| ==> allSkills[i].level >= minLevel
      ensures Subsequence(r, allSkills)
    {
      FilterShorter(allSkills, (s: Skill) => s.level >= minLevel);
      Filter(allSkills, (s: Skill) => s.level >= minLevel)
    }

    /** `AddOrUpdateSkill`: replaces the first skill with the same ID in place, or appends. */
    method AddOrUpdateSkill(skill: Skill)
      modifies this
      ensures allSkills == ReplaceOrAppend(old(allSkills), SkillIdOf, skill)
      ensures |allSkills| == |old(allSkills)| + (if HasKey(old(allSkills), SkillIdOf, skill.skillID) then 0 else 1)
      ensures allBuffs == old(allBuffs) && allStats == old(allStats)
      ensures old(UniqueKeys(allSkills, SkillIdOf)) ==>
        UniqueKeys(allSkills, SkillIdOf) && GetSkillByID(skill.skillID) == skill
    {
      if UniqueKeys(allSkills, SkillIdOf) {
        ReplaceOrAppendUnique(allSkills, SkillIdOf, skill);
        ReplaceOrAppendLookup(allSkills, SkillIdOf, skill);
      }
      var i := FindIndexBy(allSkills, SkillIdOf, skill.skillID);
      if i >= 0 {
        allSkills := allSkills[i := skill];
      } else {
        allSkills := allSkills + [skill];
      }
    }

    /** `RemoveSkill`: drops every skill with the ID; true when there was one. */
    method RemoveSkill(id: int) returns (removed: bool)
      modifies this
      ensures removed <==> HasKey(old(allSkills), SkillIdOf, id)
      ensures allSkills == RemoveAllBy(old(allSkills), SkillIdOf, id)
      ensures !HasKey(allSkills, SkillIdOf, id)
      ensures allBuffs == old(allBuffs) && allStats == old(allStats)
    {
      var before := |allSkills|;
      allSkills := RemoveAllBy(allSkills, SkillIdOf, id);
      removed := |allSkills| < before;
    }

    // ------------------------------------------------------------ buffs

    /** `GetBuffByID` (`FirstOrDefault`). */
    function GetBuffByID(id: int): (r: Buff)
      reads this
      ensures HasKey(allBuffs, BuffIdOf, id) ==>
        r.buffID == id && r == allBuffs[FindIndexBy(allBuffs, BuffIdOf, id)]
      ensures !HasKey(allBuffs, BuffIdOf, id) ==> r == DefaultBuff
    {
      var i := FindIndexBy(allBuffs, BuffIdOf, id);
      if i >= 0 then allBuffs[i] else DefaultBuff
    }

    /** `GetBuffsByType`. */
    function GetBuffsByType(buffType: BuffType): (r: seq<Buff>)
      reads this
      ensures forall i :: 0 <= i < |r| ==> r[i].buffType == buffType && r[i] in allBuffs
      ensures forall i :: 0 <= i < |allBuffs| && allBuffs[i].buffType == buffType ==> allBuffs[i] in r
      ensures Subsequence(r, allBuffs)
    {
      Filter(allBuffs, (b: Buff) => b.buffType == buffType)
    }

    /** `GetBeneficialBuffs`. */
    function GetBeneficialBuffs(): (r: seq<Buff>)
      reads this
      ensures forall i :: 0 <= i < |r| ==> r[i].isBeneficial && r[i] in allBuffs
      ensures forall i :: 0 <= i < |allBuffs| && allBuffs[i].isBeneficial ==> allBuffs[i] in r
      ensures Subsequence(r, allBuffs)
    {
      Filter(allBuffs, (b: Buff) => b.isBeneficial)
    }

    /** `GetDetrimentalBuffs`. */
    function GetDetrimentalBuffs(): (r: seq<Buff>)
      reads this
      ensures forall i :: 0 <= i < |r| ==> !r[i].isBeneficial && r[i] in allBuffs
      ensures forall i :: 0 <= i < |allBuffs| && !allBuffs[i].isBeneficial ==> allBuffs[i] in r
      ensures Subsequence(r, allBuffs)
    {
      Filter(allBuffs, (b: Buff) => !b.isBeneficial)
    }

    /** Beneficial and detrimental buffs split the list: every buff is in exactly one of
        them, each as often as in the list. */
    lemma BuffsPartition()
      ensures multiset(GetBeneficialBuffs()) + multiset(GetDetrimentalBuffs()) == multiset(allBuffs)
      ensures |GetBeneficialBuffs()| + |GetDetrimentalBuffs()| == |allBuffs|
      ensures forall b :: b in GetBeneficialBuffs() ==> b !in GetDetrimentalBuffs()
      ensures Subsequence(GetBeneficialBuffs(), allBuffs) && Subsequence(GetDetrimentalBuffs(), allBuffs)
    {
      FilterPartition(allBuffs, (b: Buff) => b.isBeneficial, (b: Buff) => !b.isBeneficial);
    }

    /** A buff appended to the list goes to the end of exactly one of the two queries,
        after everything they returned before. */
    lemma BuffsAfterAppend(b: Buff)
      ensures Filter(allBuffs + [b], (x: Buff) => x.isBeneficial) ==
        GetBeneficialBuffs() + (if b.isBeneficial then [b] else [])
      ensures Filter(allBuffs + [b], (x: Buff) => !x.isBeneficial) ==
        GetDetrimentalBuffs() + (if b.isBeneficial then [] else [b])
    {
      FilterConcat(allBuffs, [b], (x: Buff) => x.isBeneficial);
      FilterSingleton(b, (x: Buff) => x.isBeneficial);
      FilterConcat(allBuffs, [b], (x: Buff) => !x.isBeneficial);
      FilterSingleton(b, (x: Buff) => !x.isBeneficial);
    }

    /** `AddOrUpdateBuff`. */
    method AddOrUpdateBuff(buff: Buff)
      modifies this
      ensures allBuffs == ReplaceOrAppend(old(allBuffs), BuffIdOf, buff)
      ensures |allBuffs| == |old(allBuffs)| + (if HasKey(old(allBuffs), BuffIdOf, buff.buffID) then 0 else 1)
      ensures allSkills == old(allSkills) && allStats == old(allStats)
      ensures old(UniqueKeys(allBuffs, BuffIdOf)) ==>
        UniqueKeys(allBuffs, BuffIdOf) && GetBuffByID(buff.buffID) == buff
    {
      if UniqueKeys(allBuffs, BuffIdOf) {
        ReplaceOrAppendUnique(allBuffs, BuffIdOf, buff);
        ReplaceOrAppendLookup(allBuffs, BuffIdOf, buff);
      }
      var i := FindIndexBy(allBuffs, BuffIdOf, buff.buffID);
      if i >= 0 {
        allBuffs := allBuffs[i := buff];
      } else {
        allBuffs := allBuffs + [buff];
      }
    }

    /** `RemoveBuff`. */
    method RemoveBuff(id: int) returns (removed: bool)
      modifies this
      ensures removed <==> HasKey(old(allBuffs), BuffIdOf, id)
      ensures allBuffs == RemoveAllBy(old(allBuffs), BuffIdOf, id)
      ensures !HasKey(allBuffs, BuffIdOf, id)
      ensures allSkills == old(allSkills) && allStats == old(allStats)
    {
      var before := |allBuffs|;
      allBuffs := RemoveAllBy(allBuffs, BuffIdOf, id);
      removed := |allBuffs| < before;
    }

    // ------------------------------------------------------------ stats

    /** `GetStatByID` (`FirstOrDefault`). */
    function GetStatByID(id: int): (r: Stat)
      reads this
      ensures HasKey(allStats, StatIdOf, id) ==>
        r.statID == id && r == allStats[FindIndexBy(allStats, StatIdOf, id)]
      ensures !HasKey(allStats, StatIdOf, id) ==> r == DefaultStat
    {
      var i := FindIndexBy(allStats, StatIdOf, id);
      if i >= 0 then allStats[i] else DefaultStat
    }

    /** `AddOrUpdateStat`. */
    method AddOrUpdateStat(stat: Stat)
      modifies this
      ensures allStats == ReplaceOrAppend(old(allStats), StatIdOf, stat)
      ensures |allStats| == |old(allStats)| + (if HasKey(old(allStats), StatIdOf, stat.statID) then 0 else 1)
      ensures allSkills == old(allSkills) && allBuffs == old(allBuffs)
      ensures old(UniqueKeys(allStats, StatIdOf)) ==>
        UniqueKeys(allStats, StatIdOf) && GetStatByID(stat.statID) == stat
    {
      if UniqueKeys(allStats, StatIdOf) {
        ReplaceOrAppendUnique(allStats, StatIdOf, stat);
        ReplaceOrAppendLookup(allStats, StatIdOf, stat);
      }
      var i := FindIndexBy(allStats, StatIdOf, stat.statID);
      if i >= 0 {
        allStats := allStats[i := stat];
      } else {
        allStats := allStats + [stat];
      }
    }

    /** `RemoveStat`. */
    method RemoveStat(id: int) returns (removed: bool)
      modifies this
      ensures removed <==> HasKey(old(allStats), StatIdOf, id)
      ensures allStats == RemoveAllBy(old(allStats), StatIdOf, id)
      ensures !HasKey(allStats, StatIdOf, id)
      ensures allSkills == old(allSkills) && allBuffs == old(allBuffs)
    {
      var before := |allStats|;
      allStats := RemoveAllBy(allStats, StatIdOf, id);
      removed := |allStats| < before;
    }

    // ------------------------------------------------------------ initialization

    /** `Initialize`: each list cleared and refilled with its defaults. */
    method Initialize()
      modifies this
      ensures allSkills == DefaultSkills && allBuffs == DefaultBuffs && allStats == DefaultStats
      ensures UniqueKeys(allSkills, SkillIdOf) && UniqueKeys(allBuffs, BuffIdOf)
      ensures UniqueKeys(allStats, StatIdOf)
    {
      DefaultSkillsWellFormed();
      DefaultBuffsWellFormed();
      DefaultStatsWellFormed();
      allSkills := DefaultSkills;
      allBuffs := DefaultBuffs;
      allStats := DefaultStats;
    }
  }
}
