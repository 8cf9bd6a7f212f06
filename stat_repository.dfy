// The stat template repository: templates by identifier, a lowercase-name index, and a
// lazy-initialisation flag. The pure part states each operation on a `Registry` value; the
// class runs them on its fields, initialising first as every public member does.
module StatRepositories {
  import opened Wrappers
  import opened Text
  import opened Stats

  datatype Registry = Registry(templates: map<int, Stat>, nameLookup: map<string, int>, isInitialized: bool)

  /** Every name in the index points at a template whose lowercase name it is. */
  predicate Consistent(r: Registry) {
    forall k :: k in r.nameLookup ==>
      r.nameLookup[k] in r.templates && k == ToLower(r.templates[r.nameLookup[k]].statName)
  }

  /** The enum's name of a stat identifier (`statId.ToString()`); an undefined value prints
      as its number. */
  function StatIdName(id: int): string {
    match id
    case 0 => "Health"
    case 1 => "Mana"
    case 2 => "Stamina"
    case 3 => "Strength"
    case 4 => "Agility"
    case 5 => "Intelligence"
    case 6 => "Defense"
    case 7 => "Speed"
    case 8 => "CriticalHitChance"
    case 9 => "CriticalHitDamage"
    case 10 => "Attack"
    case 11 => "MagicPower"
    case 12 => "MagicDefense"
    case 13 => "Experience"
    case 14 => "Level"
    case 15 => "Luck"
    case 16 => "Charisma"
    case 17 => "Hunger"
    case 18 => "Thirst"
    case 19 => "Energy"
    case 20 => "Rest"
    case _ => IntToString(id)
  }

  /** The registration step itself: refused for a known identifier. */
  function Register(r: Registry, stat: Stat): (res: (Registry, bool))
    ensures res.1 <==> stat.statID !in r.templates
    ensures !res.1 ==> res.0 == r
    ensures res.1 ==> res.0.templates == r.templates[stat.statID := stat]
    ensures res.1 ==> res.0.nameLookup == r.nameLookup[ToLower(stat.statName) := stat.statID]
    ensures res.0.isInitialized == r.isInitialized
  {
    if stat.statID in r.templates then (r, false)
    else (r.(templates := r.templates[stat.statID := stat],
             nameLookup := r.nameLookup[ToLower(stat.statName) := stat.statID]), true)
  }

  /** `GetStat` once initialised: the template, or a fresh stat named after the identifier
      with base 0 in [0, 100]. */
  function Lookup(r: Registry, id: int): (s: Stat)
    ensures id in r.templates ==> s == r.templates[id]
    ensures id !in r.templates ==>
      s == NewStat(id, StatIdName(id), 0.0, 0.0, 100.0, Primary, "") && s.InRange()
  {
    if id in r.templates then r.templates[id] else NewStat(id, StatIdName(id), 0.0, 0.0, 100.0, Primary, "")
  }

  /** `GetStatByName` once initialised: nothing for an empty name, otherwise the template
      the lowercase name points at. */
  function LookupByName(r: Registry, name: string): (res: Option<Stat>)
    requires Consistent(r)
    ensures name == [] ==> res == None
    ensures res.Some? ==> ToLower(res.value.statName) == ToLower(name) && res.value in r.templates.Values
    ensures name != [] && ToLower(name) in r.nameLookup ==> res.Some?
  {
    if name == [] then None
    else if ToLower(name) in r.nameLookup then Some(r.templates[r.nameLookup[ToLower(name)]])
    else None
  }

  /** `UpdateStat` once initialised: refused for an unknown identifier; otherwise the old
      name leaves the index and the new one points here. */
  function Update(r: Registry, id: int, stat: Stat): (res: (Registry, bool))
    ensures res.1 <==> id in r.templates
    ensures !res.1 ==> res.0 == r
    ensures res.1 ==> res.0.templates == r.templates[id := stat]
    ensures res.1 ==>
      res.0.nameLookup == (r.nameLookup - {ToLower(r.templates[id].statName)})[ToLower(stat.statName) := id]
    ensures res.0.isInitialized == r.isInitialized
  {
    if id !in r.templates then (r, false)
    else
      var names := r.nameLookup - {ToLower(r.templates[id].statName)};
      (r.(templates := r.templates[id := stat], nameLookup := names[ToLower(stat.statName) := id]), true)
  }

  /** `RemoveStat` once initialised: the template and its name entry go. */
  function Remove(r: Registry, id: int): (res: (Registry, bool))
    ensures res.1 <==> id in r.templates
    ensures !res.1 ==> res.0 == r
    ensures res.1 ==> res.0.templates == r.templates - {id}
    ensures res.1 ==> res.0.nameLookup == r.nameLookup - {ToLower(r.templates[id].statName)}
    ensures res.0.isInitialized == r.isInitialized
  {
    if id !in r.templates then (r, false)
    else (r.(templates := r.templates - {id},
             nameLookup := r.nameLookup - {ToLower(r.templates[id].statName)}), true)
  }

  /** Registering keeps the name index consistent. */
  lemma RegisterKeepsConsistent(r: Registry, stat: Stat)
    requires Consistent(r)
    ensures Consistent(Register(r, stat).0)
  {
  }

  /** Updating keeps the name index consistent: the old name goes before the new one is
      added. */
  lemma UpdateKeepsConsistent(r: Registry, id: int, stat: Stat)
    requires Consistent(r)
    ensures Consistent(Update(r, id, stat).0)
  {
    var u := Update(r, id, stat).0;
    if id in r.templates {
      forall k | k in u.nameLookup
        ensures u.nameLookup[k] in u.templates && k == ToLower(u.templates[u.nameLookup[k]].statName)
      {
        if k != ToLower(stat.statName) {
          assert k in r.nameLookup && r.nameLookup[k] != id;
        }
      }
    }
  }

  /** Removing keeps the name index consistent: the removed template's name goes with it. */
  lemma RemoveKeepsConsistent(r: Registry, id: int)
    requires Consistent(r)
    ensures Consistent(Remove(r, id).0)
  {
    var d := Remove(r, id).0;
    if id in r.templates {
      forall k | k in d.nameLookup
        ensures d.nameLookup[k] in d.templates && k == ToLower(d.templates[d.nameLookup[k]].statName)
      {
        assert k in r.nameLookup && r.nameLookup[k] != id;
      }
    }
  }

  /** After a registration, both lookups find the new template. */
  lemma RegisterThenFind(r: Registry, stat: Stat)
    requires Consistent(r) && Register(r, stat).1 && stat.statName != []
    ensures Consistent(Register(r, stat).0)
    ensures Lookup(Register(r, stat).0, stat.statID) == stat
    ensures LookupByName(Register(r, stat).0, stat.statName) == Some(stat)
  {
    RegisterKeepsConsistent(r, stat);
  }

  /** After a removal, the identifier falls back to the fresh stat and no name points at it. */
  lemma RemoveThenMissing(r: Registry, id: int)
    requires Consistent(r)
    ensures var d := Remove(r, id).0;
      Lookup(d, id) == NewStat(id, StatIdName(id), 0.0, 0.0, 100.0, Primary, "")
      && forall k :: k in d.nameLookup ==> d.nameLookup[k] != id
  {
    RemoveKeepsConsistent(r, id);
  }

  /** Name lookup ignores letter case. */
  lemma LookupByNameIgnoresCase(r: Registry, a: string, b: string)
    requires Consistent(r) && ToLower(a) == ToLower(b)
    ensures LookupByName(r, a) == LookupByName(r, b)
  {
    assert |a| == |ToLower(a)| && |b| == |ToLower(b)|;
  }

  /** Registering a list in order. */
  function RegisterAll(r: Registry, stats: seq<Stat>): Registry
    decreases |stats|
  {
    if stats == [] then r else RegisterAll(Register(r, stats[0]).0, stats[1..])
  }

  /** The identifiers of a list of stats. */
  function Ids(stats: seq<Stat>): (ids: set<int>)
    ensures forall i :: 0 <= i < |stats| ==> stats[i].statID in ids
    ensures forall id :: id in ids ==> exists i :: 0 <= i < |stats| && stats[i].statID == id
    decreases |stats|
  {
    if stats == [] then {}
    else
      var rest := Ids(stats[1..]);
      assert forall i :: 1 <= i < |stats| ==> stats[i] == stats[1..][i - 1];
      {stats[0].statID} + rest
  }

  /** No identifier occurs twice in the list. */
  predicate DistinctIds(stats: seq<Stat>)
    decreases |stats|
  {
    stats == [] || (stats[0].statID !in Ids(stats[1..]) && DistinctIds(stats[1..]))
  }

  /** A list whose identifiers differ pairwise has distinct identifiers. */
  lemma {:induction false} PairwiseDistinct(stats: seq<Stat>)
    requires forall i, j :: 0 <= i < j < |stats| ==> stats[i].statID != stats[j].statID
    ensures DistinctIds(stats)
    decreases |stats|
  {
    if stats != [] {
      var rest := stats[1..];
      assert forall i, j :: 0 <= i < j < |rest| ==> rest[i] == stats[i + 1] && rest[j] == stats[j + 1];
      PairwiseDistinct(rest);
    }
  }

  /** Registering a list of distinct, unknown identifiers stores each of them, keeps the
      index consistent, and keeps what was there. */
  lemma {:induction false} RegisterAllDistinct(r: Registry, stats: seq<Stat>)
    requires Consistent(r) && DistinctIds(stats) && Ids(stats) !! r.templates.Keys
    ensures Consistent(RegisterAll(r, stats))
    ensures RegisterAll(r, stats).templates.Keys == r.templates.Keys + Ids(stats)
    ensures forall i :: 0 <= i < |stats| ==> RegisterAll(r, stats).templates[stats[i].statID] == stats[i]
    ensures forall id :: id in r.templates ==> RegisterAll(r, stats).templates[id] == r.templates[id]
    ensures RegisterAll(r, stats).isInitialized == r.isInitialized
    decreases |stats|
  {
    if stats != [] {
      var rest := stats[1..];
      var r1 := Register(r, stats[0]).0;
      RegisterKeepsConsistent(r, stats[0]);
      RegisterAllDistinct(r1, rest);
      var after := RegisterAll(r1, rest);
      assert after == RegisterAll(r, stats);
      forall i | 0 <= i < |stats|
        ensures after.templates[stats[i].statID] == stats[i]
      {
        if i > 0 {
          assert stats[i] == rest[i - 1];
        }
      }
    }
  }

  /** The templates `InitializeDefaultStats` registers, by position in its order. The
      arguments follow the constructor: identifier, name, base, min, max, type; the display
      descriptions are not part of this model. */
  function DefaultStatAt(i: int): Stat {
    match i
    case 0 => NewStat(0, "Health", 100.0, 0.0, 999.0, Primary, "")
    case 1 => NewStat(1, "Mana", 100.0, 0.0, 999.0, Primary, "")
    case 2 => NewStat(2, "Stamina", 100.0, 0.0, 999.0, Primary, "")
    case 3 => NewStat(3, "Strength", 10.0, 1.0, 999.0, Secondary, "")
    case 4 => NewStat(4, "Agility", 10.0, 1.0, 999.0, Secondary, "")
    case 5 => NewStat(5, "Intelligence", 10.0, 1.0, 999.0, Secondary, "")
    case 6 => NewStat(16, "Charisma", 10.0, 1.0, 999.0, Secondary, "")
    case 7 => NewStat(10, "Attack Power", 10.0, 0.0, 9999.0, Secondary, "")
    case 8 => NewStat(6, "Defense", 5.0, 0.0, 9999.0, Secondary, "")
    case 9 => NewStat(11, "Magic Power", 10.0, 0.0, 9999.0, Secondary, "")
    case 10 => NewStat(12, "Magic Defense", 5.0, 0.0, 9999.0, Secondary, "")
    case 11 => NewStat(7, "Speed", 10.0, 0.0, 999.0, Secondary, "")
    case 12 => NewStat(8, "Critical Hit Chance", 5.0, 0.0, 100.0, Secondary, "")
    case 13 => NewStat(9, "Critical Hit Damage", 150.0, 100.0, 999.0, Secondary, "")
    case 14 => NewStat(15, "Luck", 10.0, 0.0, 999.0, Secondary, "")
    case 15 => NewStat(14, "Level", 1.0, 1.0, 999.0, Tertiary, "")
    case 16 => NewStat(13, "Experience", 0.0, 0.0, 999999.0, Tertiary, "")
    case 17 => NewStat(17, "Hunger", 100.0, 0.0, 100.0, Primary, "")
    case 18 => NewStat(18, "Thirst", 100.0, 0.0, 100.0, Primary, "")
    case 19 => NewStat(19, "Energy", 100.0, 0.0, 100.0, Primary, "")
    case _ => NewStat(20, "Rest", 100.0, 0.0, 100.0, Primary, "")
  }

  /** The templates in registration order. */
  function DefaultStats(): seq<Stat> {
    seq(21, i => DefaultStatAt(i))
  }

  /** Where each default identifier sits in `DefaultStats()`. */
  function DefaultPosition(id: int): int {
    if id == 16 then 6 else if id == 10 then 7 else if id == 6 then 8
    else if 7 <= id <= 9 then id + 4 else if id == 11 || id == 12 then id - 2
    else if id == 15 then 14 else if id == 14 then 15 else if id == 13 then 16 else id
  }

  /** Each default's identifier maps back to its position. */
  lemma DefaultPositionInverse(i: nat)
    requires i < 21
    ensures DefaultPosition(DefaultStatAt(i).statID) == i
  {
    assert i == 0 || i == 1 || i == 2 || i == 3 || i == 4 || i == 5 || i == 6 || i == 7 || i == 8
      || i == 9 || i == 10 || i == 11 || i == 12 || i == 13 || i == 14 || i == 15 || i == 16
      || i == 17 || i == 18 || i == 19 || i == 20;
  }

  /** The 21 default identifiers are distinct: each has its own position. */
  lemma DefaultIdsDistinct()
    ensures |DefaultStats()| == 21
    ensures forall i, j :: 0 <= i < j < |DefaultStats()| ==> DefaultStats()[i].statID != DefaultStats()[j].statID
    ensures DistinctIds(DefaultStats())
  {
    forall i | 0 <= i < |DefaultStats()| ensures DefaultPosition(DefaultStats()[i].statID) == i {
      assert DefaultStats()[i] == DefaultStatAt(i);
      DefaultPositionInverse(i);
    }
    PairwiseDistinct(DefaultStats());
  }

  /** Registering distinct identifiers into an empty registry stores exactly them. */
  lemma RegisterAllFromEmpty(stats: seq<Stat>, flag: bool)
    requires DistinctIds(stats)
    ensures var r := RegisterAll(Registry(map[], map[], flag), stats);
      Consistent(r) && r.isInitialized == flag && r.templates.Keys == Ids(stats)
      && forall i :: 0 <= i < |stats| ==> r.templates[stats[i].statID] == stats[i]
  {
    var empty := Registry(map[], map[], flag);
    assert Consistent(empty) && empty.templates.Keys == {};
    RegisterAllDistinct(empty, stats);
    assert {} + Ids(stats) == Ids(stats);
  }

  /** The registry a completed initialisation leaves: the flag set first, then every
      default registered. */
  function DefaultRegistry(): (r: Registry)
    ensures Consistent(r) && r.isInitialized
    ensures r.templates.Keys == Ids(DefaultStats())
    ensures forall i :: 0 <= i < |DefaultStats()| ==> r.templates[DefaultStats()[i].statID] == DefaultStats()[i]
  {
    DefaultIdsDistinct();
    RegisterAllFromEmpty(DefaultStats(), true);
    RegisterAll(Registry(map[], map[], true), DefaultStats())
  }

  // ------------------------------------------------------------------ as written

  /** `EnsureInitialized` as written, with `fuel` bounding the call depth: `None` means the
      depth ran out before the call returned. */
  function EnsureInitializedAsWritten(r: Registry, fuel: nat): Option<Registry>
    decreases fuel, 0
  {
    if r.isInitialized then Some(r)
    else if fuel == 0 then None
    else InitializeAsWritten(fuel - 1)
  }

  /** `Initialize` as written: fresh maps, register the defaults, then set the flag. */
  function InitializeAsWritten(fuel: nat): Option<Registry>
    decreases fuel, 3
  {
    match RegisterAllAsWritten(Registry(map[], map[], false), DefaultStats(), fuel)
    case None => None
    case Some(r) => Some(r.(isInitialized := true))
  }

  function RegisterAllAsWritten(r: Registry, stats: seq<Stat>, fuel: nat): Option<Registry>
    decreases fuel, 2, |stats|
  {
    if stats == [] then Some(r)
    else
      match RegisterStatAsWritten(r, stats[0], fuel)
      case None => None
      case Some(p) => RegisterAllAsWritten(p.0, stats[1..], fuel)
  }

  /** `RegisterStat` as written: `EnsureInitialized` first, then the registration step. */
  function RegisterStatAsWritten(r: Registry, stat: Stat, fuel: nat): Option<(Registry, bool)>
    decreases fuel, 1
  {
    match EnsureInitializedAsWritten(r, fuel)
    case None => None
    case Some(r1) => Some(Register(r1, stat))
  }

  /** A registration list whose first step cannot initialise does not get past it. */
  lemma FirstRegistrationStuck(r: Registry, stats: seq<Stat>, fuel: nat)
    requires stats != [] && EnsureInitializedAsWritten(r, fuel) == None
    ensures RegisterAllAsWritten(r, stats, fuel) == None
  {
  }

  /** As written, initialisation never returns, however deep the stack: the first default
      registration re-enters `EnsureInitialized` while the flag is still clear. */
  lemma {:induction false} InitializeNeverReturns(fuel: nat)
    ensures InitializeAsWritten(fuel) == None
    ensures forall r: Registry :: !r.isInitialized ==> EnsureInitializedAsWritten(r, fuel) == None
    decreases fuel
  {
    var empty := Registry(map[], map[], false);
    if fuel > 0 {
      InitializeNeverReturns(fuel - 1);
      assert EnsureInitializedAsWritten(empty, fuel) == InitializeAsWritten(fuel - 1);
    }
    assert EnsureInitializedAsWritten(empty, fuel) == None;
    assert |DefaultStats()| == 21;
    FirstRegistrationStuck(empty, DefaultStats(), fuel);
  }

  // ------------------------------------------------------------------ corrected

  /** The static class as one object; the flag is set before the defaults are registered,
      so registering during initialisation does not re-enter it. */
  class StatRepository {
    var templates: map<int, Stat>
    var nameLookup: map<string, int>
    var isInitialized: bool

    function State(): Registry
      reads this
    {
      Registry(templates, nameLookup, isInitialized)
    }

    /** The maps are null until first used; they read as empty. */
    constructor ()
      ensures State() == Registry(map[], map[], false) && Consistent(State())
    {
      templates := map[];
      nameLookup := map[];
      isInitialized := false;
    }

    /** `Initialize`: fresh maps, the flag, then each default registered in order. */
    method Initialize()
      modifies this
      ensures State() == DefaultRegistry()
    {
      templates := map[];
      nameLookup := map[];
      isInitialized := true;
      RegisterEach(DefaultStats());
      assert State() == RegisterAll(Registry(map[], map[], true), DefaultStats());
    }

    /** The registration loop of `InitializeDefaultStats`, over any list. */
    method RegisterEach(stats: seq<Stat>)
      modifies this
      ensures State() == RegisterAll(old(State()), stats)
    {
      var i := 0;
      while i < |stats|
        invariant 0 <= i <= |stats|
        invariant RegisterAll(State(), stats[i..]) == RegisterAll(old(State()), stats)
      {
        var ok := RegisterStep(stats[i]);
        assert stats[i..][1..] == stats[i + 1..];
        i := i + 1;
      }
    }

    /** The registration step on the fields. */
    method RegisterStep(stat: Stat) returns (ok: bool)
      modifies this
      ensures (State(), ok) == Register(old(State()), stat)
    {
      if stat.statID in templates {
        return false;
      }
      templates := templates[stat.statID := stat];
      nameLookup := nameLookup[ToLower(stat.statName) := stat.statID];
      ok := true;
    }

    /** `EnsureInitialized`: initialises once. */
    method EnsureInitialized()
      modifies this
      ensures old(isInitialized) ==> State() == old(State())
      ensures !old(isInitialized) ==> State() == DefaultRegistry()
      ensures isInitialized
    {
      if !isInitialized {
        Initialize();
      }
    }

    /** `RegisterStat`: refused for an identifier already present. */
    method RegisterStat(stat: Stat) returns (ok: bool)
      modifies this
      ensures var before := if old(isInitialized) then old(State()) else DefaultRegistry();
        (State(), ok) == Register(before, stat)
      ensures old(Consistent(State())) ==> Consistent(State())
    {
      EnsureInitialized();
      if Consistent(State()) { RegisterKeepsConsistent(State(), stat); }
      ok := RegisterStep(stat);
    }

    /** `GetStat`. */
    method GetStat(id: int) returns (s: Stat)
      modifies this
      ensures old(isInitialized) ==> State() == old(State())
      ensures !old(isInitialized) ==> State() == DefaultRegistry()
      ensures s == Lookup(State(), id)
    {
      EnsureInitialized();
      s := Lookup(State(), id);
    }

    /** `GetStatByName`. */
    method GetStatByName(name: string) returns (s: Option<Stat>)
      requires Consistent(State())
      modifies this
      ensures old(isInitialized) ==> State() == old(State())
      ensures !old(isInitialized) ==> State() == DefaultRegistry()
      ensures Consistent(State()) && s == LookupByName(State(), name)
    {
      EnsureInitialized();
      s := LookupByName(State(), name);
    }

    /** `UpdateStat`. */
    method UpdateStat(id: int, stat: Stat) returns (ok: bool)
      modifies this
      ensures var before := if old(isInitialized) then old(State()) else DefaultRegistry();
        (State(), ok) == Update(before, id, stat)
      ensures old(Consistent(State())) ==> Consistent(State())
    {
      EnsureInitialized();
      if Consistent(State()) { UpdateKeepsConsistent(State(), id, stat); }
      ok := UpdateStep(id, stat);
    }

    /** The body of `UpdateStat` after initialisation. */
    method UpdateStep(id: int, stat: Stat) returns (ok: bool)
      modifies this
      ensures (State(), ok) == Update(old(State()), id, stat)
    {
      if id !in templates {
        return false;
      }
      var oldName := ToLower(templates[id].statName);
      nameLookup := nameLookup - {oldName};
      templates := templates[id := stat];
      nameLookup := nameLookup[ToLower(stat.statName) := id];
      ok := true;
    }

    /** `RemoveStat`. */
    method RemoveStat(id: int) returns (ok: bool)
      modifies this
      ensures var before := if old(isInitialized) then old(State()) else DefaultRegistry();
        (State(), ok) == Remove(before, id)
      ensures old(Consistent(State())) ==> Consistent(State())
    {
      EnsureInitialized();
      if Consistent(State()) { RemoveKeepsConsistent(State(), id); }
      ok := RemoveStep(id);
    }

    /** The body of `RemoveStat` after initialisation. */
    method RemoveStep(id: int) returns (ok: bool)
      modifies this
      ensures (State(), ok) == Remove(old(State()), id)
    {
      if id !in templates {
        return false;
      }
      var name := ToLower(templates[id].statName);
      templates := templates - {id};
      nameLookup := nameLookup - {name};
      ok := true;
    }

    /** `Clear`: both maps emptied and the flag cleared, so the next use initialises again. */
    method Clear()
      modifies this
      ensures State() == Registry(map[], map[], false) && Consistent(State())
    {
      templates := map[];
      nameLookup := map[];
      isInitialized := false;
    }
  }
}
