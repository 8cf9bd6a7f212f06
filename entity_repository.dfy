// The entity template repository: templates by ID, a case-insensitive name map, ID lists
// by entity type and by faction, and a counter for `CreateEntityTemplate`. `EntityStore`
// is the repository's state as a value with one function per operation; the class
// `EntityRepository` holds the same fields and performs each operation step by step.
module EntityRepositories {
  import opened Text
  import opened ListStore
  import opened Entities

  function Max0(n: int): nat { if n < 0 then 0 else n }

  // ---------------------------------------------------------------- the type index

  /** The type loop of `RegisterEntityTemplate`: in order, `id` is appended to the list of
      each of `types` that has a list; a type without one is skipped. */
  function AddToTypes(index: map<EntityType, seq<int>>, types: seq<EntityType>, id: int): (r: map<EntityType, seq<int>>)
    ensures r.Keys == index.Keys
    decreases |types|
  {
    if types == [] then index
    else
      var prev := AddToTypes(index, types[..|types| - 1], id);
      var t := types[|types| - 1];
      if t in prev then prev[t := prev[t] + [id]] else prev
  }

  /** The type loop of `RemoveEntityTemplate`: in order, the first `id` leaves the list of
      each of `types` that has a list. */
  function RemoveFromTypes(index: map<EntityType, seq<int>>, types: seq<EntityType>, id: int): (r: map<EntityType, seq<int>>)
    ensures r.Keys == index.Keys
    decreases |types|
  {
    if types == [] then index
    else
      var prev := RemoveFromTypes(index, types[..|types| - 1], id);
      var t := types[|types| - 1];
      if t in prev then prev[t := RemoveFirst(prev[t], id)] else prev
  }

  /** Each list gains `id` once per time its type is listed; nothing else changes. */
  lemma {:induction false} AddToTypesCount(index: map<EntityType, seq<int>>, types: seq<EntityType>, id: int)
    ensures forall t, x :: t in index ==>
      multiset(AddToTypes(index, types, id)[t])[x] == multiset(index[t])[x] + (if x == id then multiset(types)[t] else 0)
    decreases |types|
  {
    if types != [] {
      var init := types[..|types| - 1];
      var last := types[|types| - 1];
      assert types == init + [last];
      AddToTypesCount(index, init, id);
    }
  }

  /** Each list loses one `id` per time its type is listed, as far as it has them; nothing
      else changes. */
  lemma {:induction false} RemoveFromTypesCount(index: map<EntityType, seq<int>>, types: seq<EntityType>, id: int)
    ensures forall t, x :: t in index ==>
      multiset(RemoveFromTypes(index, types, id)[t])[x] ==
        if x == id then Max0(multiset(index[t])[id] as int - multiset(types)[t]) else multiset(index[t])[x]
    decreases |types|
  {
    if types != [] {
      var init := types[..|types| - 1];
      var last := types[|types| - 1];
      assert types == init + [last];
      RemoveFromTypesCount(index, init, id);
      var prev := RemoveFromTypes(index, init, id);
      if last in prev && id in prev[last] {
        assert multiset(RemoveFirst(prev[last], id)) + multiset{id} == multiset(prev[last]);
      }
    }
  }

  /** One empty list per entity type, as `Initialize` creates them. */
  const EmptyTypeLists: map<EntityType, seq<int>> :=
    map[Boss := [], Minion := [], NPC := [], PlayerControlled := [], Animal := [], Monster := []]

  lemma EveryTypeListed()
    ensures forall t :: t in EmptyTypeLists && EmptyTypeLists[t] == []
  {
    forall t ensures t in EmptyTypeLists && EmptyTypeLists[t] == [] {
      match t
      case Boss =>
      case Minion =>
      case NPC =>
      case PlayerControlled =>
      case Animal =>
      case Monster =>
    }
  }

  // ---------------------------------------------------------------- the repository state

  datatype EntityStore = EntityStore(
    templates: map<int, Entity>, nameLookup: map<string, int>,
    byType: map<EntityType, seq<int>>, byFaction: map<string, seq<int>>,
    nextEntityID: int, isInitialized: bool)
  {
    /** How often entry `x` belongs in the list of type `t`: once per listing of `t` in
        its template's types. */
    function TypeCount(x: int, t: EntityType): nat {
      if x in templates then multiset(templates[x].entityType)[t] else 0
    }

    /** Whether entry `x` belongs in the list of faction `f`. */
    function FactionCount(x: int, f: string): nat {
      if x in templates && templates[x].entityFaction == f then 1 else 0
    }

    /** The invariant the operations keep: every template is stored under its own ID;
        every name entry, keyed by the case-folded name, points at a template with that
        name; every type list holds exactly the templates listing that type, as often as
        they list it; every faction list holds exactly the templates of that faction, and
        every template with a faction has a list. */
    ghost predicate Valid() {
      IdsMatch() && NamesExact() && TypesExact() && FactionsExact()
    }

    predicate IdsMatch() {
      forall id :: id in templates ==> templates[id].entityID == id
    }

    predicate NamesExact() {
      forall n :: n in nameLookup ==>
        nameLookup[n] in templates && ToLower(templates[nameLookup[n]].entityName) == n
    }

    ghost predicate TypesExact() {
      forall t, x :: t in byType ==> multiset(byType[t])[x] == TypeCount(x, t)
    }

    ghost predicate FactionsExact() {
      "" !in byFaction
      && (forall f, x :: f in byFaction ==> multiset(byFaction[f])[x] == FactionCount(x, f))
      && (forall x :: x in templates && templates[x].entityFaction != "" ==>
            templates[x].entityFaction in byFaction)
    }

    /** The updates the invariant survives: a new ID, or a template with the stored
        one's types and faction. */
    predicate KeepsIndexes(e: Entity) {
      e.entityID in templates ==>
        templates[e.entityID].entityType == e.entityType && templates[e.entityID].entityFaction == e.entityFaction
    }

    /** A type-list entry that `ValidateRepository` accepts. */
    predicate EntryConsistent(t: EntityType, id: int) {
      id in templates && t in templates[id].entityType
    }

    /** What `ValidateRepository` checks: every name entry names a template, and every
        type-list entry is a template that lists the type. */
    predicate PassesValidation() {
      (forall n :: n in nameLookup ==> nameLookup[n] in templates)
      && (forall t, i :: t in byType && 0 <= i < |byType[t]| ==> EntryConsistent(t, byType[t][i]))
    }

    /** `GetEntityByID`: the template, or the default for an unknown ID. */
    function GetEntityByID(id: int): (r: Entity)
      ensures id in templates ==> r == templates[id]
      ensures id !in templates ==> r == DefaultEntity
    {
      if id in templates then templates[id] else DefaultEntity
    }

    /** `GetEntityByName`: the template the case-folded name maps to, or the default. */
    function GetEntityByName(name: string): (r: Entity)
      ensures ToLower(name) !in nameLookup ==> r == DefaultEntity
      ensures Valid() && ToLower(name) in nameLookup ==>
        r in templates.Values && EqualsIgnoreCase(r.entityName, name)
    {
      if ToLower(name) in nameLookup then GetEntityByID(nameLookup[ToLower(name)]) else DefaultEntity
    }

    /** `Initialize`: a second call does nothing; the first starts every map afresh with
        one empty list per entity type and sets the flag. The counter is not reset. */
    function Initialize(): (r: EntityStore)
      ensures isInitialized ==> r == this
      ensures !isInitialized ==>
        r.isInitialized && r.templates == map[] && r.nameLookup == map[] && r.byFaction == map[]
        && r.nextEntityID == nextEntityID
        && forall t :: t in r.byType && r.byType[t] == []
    {
      if isInitialized then this
      else
        EveryTypeListed();
        this.(templates := map[], nameLookup := map[], byType := EmptyTypeLists,
                 byFaction := map[], isInitialized := true)
    }

    /** `CreateEntityTemplate`: a basic entity with the counter's ID, the one given type,
        the faction, Common rarity, spawn chance 100 and level 1. The counter advances; the
        template is not registered. */
    function CreateEntityTemplate(name: string, entityType: EntityType, faction: string): (r: (EntityStore, Entity))
      ensures r.0 == this.(nextEntityID := nextEntityID + 1)
      ensures r.1.entityID == nextEntityID && r.1.entityName == name
      ensures r.1.entityType == [entityType] && r.1.entityFaction == faction
      ensures r.1.rarity == Common && r.1.spawnChance == 100.0 && r.1.level == 1
      ensures r.1.activeBuffs == [] && r.1.tags == [] && r.1.currentState == IdleState
    {
      var e := BasicEntity(name, nextEntityID);
      (this.(nextEntityID := nextEntityID + 1),
       e.(entityType := [entityType], entityFaction := faction, rarity := Common,
          spawnChance := 100.0, level := 1))
    }

    /** `UpdateEntityTemplate`: refused for an unknown ID; otherwise the template is
        replaced and, when its name changed (case-sensitively), the old name's entry goes
        and the new name's entry points at it. The type and faction lists are left as
        they are. */
    function UpdateEntityTemplate(entity: Entity): (EntityStore, bool) {
      var id := entity.entityID;
      if id !in templates then (this, false)
      else
        var prior := templates[id];
        var names := if prior.entityName != entity.entityName
                     then (nameLookup - {ToLower(prior.entityName)})[ToLower(entity.entityName) := id]
                     else nameLookup;
        (this.(templates := templates[id := entity], nameLookup := names), true)
    }

    /** `RegisterEntityTemplate`: an existing ID is an update; otherwise the template is
        stored, its case-folded name maps to it, its ID joins the list of each of its
        types that has one, and, with a faction, the faction's list (created if need be). */
    function RegisterEntityTemplate(entity: Entity): (EntityStore, bool) {
      var id := entity.entityID;
      if id in templates then UpdateEntityTemplate(entity)
      else
        (this.(templates := templates[id := entity],
               nameLookup := nameLookup[ToLower(entity.entityName) := id],
               byType := AddToTypes(byType, entity.entityType, id),
               byFaction := if entity.entityFaction != "" then AppendAt(byFaction, entity.entityFaction, id)
                            else byFaction), true)
    }

    /** `RemoveEntityTemplate`: refused for an unknown ID; otherwise the template, its
        case-folded name's entry, one copy of its ID per listed type and its faction
        entry go. */
    function RemoveEntityTemplate(id: int): (EntityStore, bool) {
      if id !in templates then (this, false)
      else
        var e := templates[id];
        var f := e.entityFaction;
        (this.(templates := templates - {id}, nameLookup := nameLookup - {ToLower(e.entityName)},
               byType := RemoveFromTypes(byType, e.entityType, id),
               byFaction := if f != "" && f in byFaction then RemoveAt(byFaction, f, id) else byFaction), true)
    }

    /** `ClearAllTemplates`: every map emptied, the type lists included, and the counter
        back at 1; the flag stays as it was. */
    function ClearAllTemplates(): (r: EntityStore)
      ensures r.templates == map[] && r.nameLookup == map[] && r.byType == map[] && r.byFaction == map[]
      ensures r.nextEntityID == 1 && r.isInitialized == isInitialized
    {
      this.(templates := map[], nameLookup := map[], byType := map[], byFaction := map[], nextEntityID := 1)
    }
  }

  /** The static fields before `Initialize`, with the (null) maps read as empty. */
  const EmptyEntityStore := EntityStore(map[], map[], map[], map[], 1, false)

  // ---------------------------------------------------------------- properties

  /** The invariant is stronger than `ValidateRepository`'s check: a valid store passes. */
  lemma ValidPassesValidation(s: EntityStore)
    requires s.Valid()
    ensures s.PassesValidation()
  {
    forall t, i | t in s.byType && 0 <= i < |s.byType[t]|
      ensures s.EntryConsistent(t, s.byType[t][i])
    {
      var x := s.byType[t][i];
      assert multiset(s.byType[t])[x] > 0;
    }
  }

  /** `Initialize` and `ClearAllTemplates` leave a valid store; after `ClearAllTemplates`
      no type has a list, so a later registration joins no type list, and the flag stays
      set. */
  lemma InitializeAndClearValid(s: EntityStore, e: Entity)
    requires s.Valid()
    ensures s.Initialize().Valid() && EmptyEntityStore.Valid()
    ensures s.ClearAllTemplates().Valid()
    ensures s.isInitialized ==> s.ClearAllTemplates().isInitialized
    ensures s.ClearAllTemplates().RegisterEntityTemplate(e).0.byType == map[]
    ensures s.ClearAllTemplates().RegisterEntityTemplate(e).0.templates == map[e.entityID := e]
  {
    var c := s.ClearAllTemplates();
    assert AddToTypes(c.byType, e.entityType, e.entityID).Keys == {};
  }

  /** Registering a template with a new ID, or re-registering one with the same types and
      faction, keeps the store valid. */
  lemma RegisterKeepsValid(s: EntityStore, e: Entity)
    requires s.Valid()
    requires s.KeepsIndexes(e)
    ensures s.RegisterEntityTemplate(e).0.Valid()
  {
    var id := e.entityID;
    if id in s.templates {
      UpdateKeepsValid(s, e);
    } else {
      RegisterKeepsTypes(s, e);
      RegisterKeepsFactions(s, e);
    }
  }

  lemma RegisterKeepsTypes(s: EntityStore, e: Entity)
    requires s.TypesExact() && e.entityID !in s.templates
    ensures s.RegisterEntityTemplate(e).0.TypesExact()
  {
    var id := e.entityID;
    var r := s.RegisterEntityTemplate(e).0;
    AddToTypesCount(s.byType, e.entityType, id);
    forall t, x | t in r.byType ensures multiset(r.byType[t])[x] == r.TypeCount(x, t) {
      assert multiset(s.byType[t])[x] == s.TypeCount(x, t);
    }
  }

  lemma RegisterKeepsFactions(s: EntityStore, e: Entity)
    requires s.FactionsExact() && e.entityID !in s.templates
    ensures s.RegisterEntityTemplate(e).0.FactionsExact()
  {
    var r := s.RegisterEntityTemplate(e).0;
    var f := e.entityFaction;
    forall g, x | g in r.byFaction ensures multiset(r.byFaction[g])[x] == r.FactionCount(x, g) {
      if g in s.byFaction {
        assert multiset(s.byFaction[g])[x] == s.FactionCount(x, g);
      } else {
        assert g == f && s.FactionCount(x, f) == 0;
      }
    }
  }

  /** A registration with a new ID stores the template, finds it by ID and by name, puts
      its ID in each existing type list once per listing and in its faction's list; every
      other template is unchanged. */
  lemma RegisterOutcome(s: EntityStore, e: Entity)
    requires s.Valid() && e.entityID !in s.templates
    ensures var (r, ok) := s.RegisterEntityTemplate(e);
      ok && r.GetEntityByID(e.entityID) == e && r.GetEntityByName(e.entityName) == e
      && r.templates.Keys == s.templates.Keys + {e.entityID}
      && (forall id :: id in s.templates ==> r.GetEntityByID(id) == s.GetEntityByID(id))
      && r.byType.Keys == s.byType.Keys
      && (forall t :: t in r.byType ==> multiset(r.byType[t])[e.entityID] == multiset(e.entityType)[t])
      && (e.entityFaction != "" ==> e.entityFaction in r.byFaction && e.entityID in r.byFaction[e.entityFaction])
      && r.nextEntityID == s.nextEntityID
  {
    AddToTypesCount(s.byType, e.entityType, e.entityID);
    var r := s.RegisterEntityTemplate(e).0;
    forall t | t in r.byType ensures multiset(r.byType[t])[e.entityID] == multiset(e.entityType)[t] {
      assert multiset(s.byType[t])[e.entityID] == 0;
    }
  }

  /** An update that keeps the types and the faction keeps the store valid. */
  lemma UpdateKeepsValid(s: EntityStore, e: Entity)
    requires s.Valid()
    requires s.KeepsIndexes(e)
    ensures s.UpdateEntityTemplate(e).0.Valid()
  {
    var id := e.entityID;
    if id in s.templates {
      var r := s.UpdateEntityTemplate(e).0;
      forall t, x | t in r.byType ensures multiset(r.byType[t])[x] == r.TypeCount(x, t) {
        assert r.TypeCount(x, t) == s.TypeCount(x, t);
      }
      forall f, x | f in r.byFaction ensures multiset(r.byFaction[f])[x] == r.FactionCount(x, f) {
        assert r.FactionCount(x, f) == s.FactionCount(x, f);
      }
      forall n | n in r.nameLookup
        ensures r.nameLookup[n] in r.templates && ToLower(r.templates[r.nameLookup[n]].entityName) == n
      {
      }
    }
  }

  /** `UpdateEntityTemplate`: refused exactly for an unknown ID; otherwise the template is
      replaced, found by its (new) name, and every index other than the name map is
      untouched. */
  lemma UpdateOutcome(s: EntityStore, e: Entity)
    requires s.Valid()
    ensures var (r, ok) := s.UpdateEntityTemplate(e);
      (ok <==> e.entityID in s.templates) && (!ok ==> r == s)
    ensures e.entityID in s.templates ==>
      var r := s.UpdateEntityTemplate(e).0;
      r.GetEntityByID(e.entityID) == e && r.templates.Keys == s.templates.Keys
      && r.byType == s.byType && r.byFaction == s.byFaction && r.nextEntityID == s.nextEntityID
      && (forall id :: id in s.templates && id != e.entityID ==> r.GetEntityByID(id) == s.GetEntityByID(id))
      && (s.templates[e.entityID].entityName != e.entityName ==> r.GetEntityByName(e.entityName) == e)
    ensures s.RegisterEntityTemplate(e) == (if e.entityID in s.templates then s.UpdateEntityTemplate(e)
                                            else s.RegisterEntityTemplate(e))
  {
  }

  /** Removing a template keeps the store valid. */
  lemma RemoveKeepsValid(s: EntityStore, id: int)
    requires s.Valid()
    ensures s.RemoveEntityTemplate(id).0.Valid()
  {
    if id in s.templates {
      var e := s.templates[id];
      var r := s.RemoveEntityTemplate(id).0;
      RemoveFromTypesCount(s.byType, e.entityType, id);
      forall t, x | t in r.byType ensures multiset(r.byType[t])[x] == r.TypeCount(x, t) {
        assert multiset(s.byType[t])[x] == s.TypeCount(x, t);
      }
      var f := e.entityFaction;
      if f != "" {
        assert multiset(s.byFaction[f])[id] == 1;
        assert multiset(RemoveFirst(s.byFaction[f], id)) + multiset{id} == multiset(s.byFaction[f]);
      }
      forall g, x | g in r.byFaction ensures multiset(r.byFaction[g])[x] == r.FactionCount(x, g) {
        assert multiset(s.byFaction[g])[x] == s.FactionCount(x, g);
      }
    }
  }

  /** `RemoveEntityTemplate`: refused exactly for an unknown ID; otherwise the ID is gone
      from the templates, from every type and faction list and from the name map, and
      every other template is unchanged. */
  lemma RemoveOutcome(s: EntityStore, id: int)
    requires s.Valid()
    ensures var (r, ok) := s.RemoveEntityTemplate(id); (ok <==> id in s.templates) && (!ok ==> r == s)
    ensures id in s.templates ==>
      var r := s.RemoveEntityTemplate(id).0;
      r.templates.Keys == s.templates.Keys - {id} && r.GetEntityByID(id) == DefaultEntity
      && (forall j :: j in r.templates ==> r.GetEntityByID(j) == s.GetEntityByID(j))
      && (forall t :: t in r.byType ==> id !in r.byType[t])
      && (forall f :: f in r.byFaction ==> id !in r.byFaction[f])
      && (forall n :: n in r.nameLookup ==> r.nameLookup[n] != id)
  {
    if id in s.templates {
      RemoveKeepsValid(s, id);
      var r := s.RemoveEntityTemplate(id).0;
      forall t | t in r.byType ensures id !in r.byType[t] {
        assert multiset(r.byType[t])[id] == r.TypeCount(id, t) == 0;
      }
      forall f | f in r.byFaction ensures id !in r.byFaction[f] {
        assert multiset(r.byFaction[f])[id] == r.FactionCount(id, f) == 0;
      }
    }
  }

  /** Registering a template with a new ID and removing it again restores the templates,
      the type lists up to order, the faction lists except that a list the registration
      created stays behind empty, and, when no template had its name (ignoring case), the
      name map. */
  lemma RegisterThenRemove(s: EntityStore, e: Entity)
    requires s.TypesExact() && s.FactionsExact() && e.entityID !in s.templates
    ensures var r := s.RegisterEntityTemplate(e).0.RemoveEntityTemplate(e.entityID).0;
      r.templates == s.templates && r.byType.Keys == s.byType.Keys
      && r.byFaction == (if e.entityFaction != "" && e.entityFaction !in s.byFaction
                         then s.byFaction[e.entityFaction := []] else s.byFaction)
      && (forall t :: t in s.byType ==> multiset(r.byType[t]) == multiset(s.byType[t]))
      && (ToLower(e.entityName) !in s.nameLookup ==> r.nameLookup == s.nameLookup)
  {
    RoundTripTemplates(s, e);
    RoundTripTypes(s, e);
    RoundTripFactions(s, e);
  }

  lemma RoundTripTemplates(s: EntityStore, e: Entity)
    requires e.entityID !in s.templates
    ensures var r := s.RegisterEntityTemplate(e).0.RemoveEntityTemplate(e.entityID).0;
      r.templates == s.templates && (ToLower(e.entityName) !in s.nameLookup ==> r.nameLookup == s.nameLookup)
  {
    var id := e.entityID;
    var a := s.RegisterEntityTemplate(e).0;
    assert a.templates == s.templates[id := e];
    assert a.nameLookup == s.nameLookup[ToLower(e.entityName) := id];
    var r := a.RemoveEntityTemplate(id).0;
    assert r.templates == a.templates - {id};
    assert r.nameLookup == a.nameLookup - {ToLower(e.entityName)};
  }

  lemma RoundTripTypes(s: EntityStore, e: Entity)
    requires s.TypesExact() && e.entityID !in s.templates
    ensures var r := s.RegisterEntityTemplate(e).0.RemoveEntityTemplate(e.entityID).0;
      r.byType.Keys == s.byType.Keys && forall t :: t in s.byType ==> multiset(r.byType[t]) == multiset(s.byType[t])
  {
    var id := e.entityID;
    var a := s.RegisterEntityTemplate(e).0;
    assert a.templates[id] == e;
    forall t | t in s.byType ensures id !in s.byType[t] {
      assert multiset(s.byType[t])[id] == s.TypeCount(id, t) == 0;
    }
    TypesRoundTrip(s.byType, e.entityType, id);
  }

  lemma RoundTripFactions(s: EntityStore, e: Entity)
    requires s.FactionsExact() && e.entityID !in s.templates
    ensures var r := s.RegisterEntityTemplate(e).0.RemoveEntityTemplate(e.entityID).0;
      r.byFaction == (if e.entityFaction != "" && e.entityFaction !in s.byFaction
                      then s.byFaction[e.entityFaction := []] else s.byFaction)
  {
    var id := e.entityID;
    var a := s.RegisterEntityTemplate(e).0;
    assert a.templates[id] == e;
    var f := e.entityFaction;
    if f != "" {
      if f in s.byFaction {
        assert multiset(s.byFaction[f])[id] == s.FactionCount(id, f) == 0;
      }
      AppendThenRemoveAt(s.byFaction, f, id);
    }
  }

  /** The type loops of registration and removal cancel, up to order, for an ID no list
      held. */
  lemma TypesRoundTrip(index: map<EntityType, seq<int>>, types: seq<EntityType>, id: int)
    requires forall t :: t in index ==> id !in index[t]
    ensures RemoveFromTypes(AddToTypes(index, types, id), types, id).Keys == index.Keys
    ensures forall t :: t in index ==>
      multiset(RemoveFromTypes(AddToTypes(index, types, id), types, id)[t]) == multiset(index[t])
  {
    var a := AddToTypes(index, types, id);
    var r := RemoveFromTypes(a, types, id);
    AddToTypesCount(index, types, id);
    RemoveFromTypesCount(a, types, id);
    forall t | t in index ensures multiset(r[t]) == multiset(index[t]) {
      assert multiset(index[t])[id] == 0;
      forall x ensures multiset(r[t])[x] == multiset(index[t])[x] {
        assert multiset(a[t])[x] == multiset(index[t])[x] + (if x == id then multiset(types)[t] else 0);
      }
    }
  }

  /** A template stored under the counter's ID by `CreateEntityTemplate` and then
      registered is found by ID and by name, with its one type's list holding it. */
  lemma CreateThenRegister(s: EntityStore, name: string, t: EntityType, faction: string)
    requires s.Valid() && s.nextEntityID !in s.templates
    ensures var (s1, e) := s.CreateEntityTemplate(name, t, faction);
      var (r, ok) := s1.RegisterEntityTemplate(e);
      ok && r.GetEntityByID(s.nextEntityID) == e && r.GetEntityByName(name) == e
      && r.nextEntityID == s.nextEntityID + 1 && r.Valid()
      && (t in s.byType ==> t in r.byType && s.nextEntityID in r.byType[t])
  {
    var (s1, e) := s.CreateEntityTemplate(name, t, faction);
    assert s1.Valid();
    RegisterOutcome(s1, e);
    RegisterKeepsValid(s1, e);
    var r := s1.RegisterEntityTemplate(e).0;
    if t in s.byType {
      assert multiset(e.entityType)[t] == 1;
      assert multiset(r.byType[t])[e.entityID] == 1;
    }
  }

  // ---------------------------------------------------------------- an update that breaks validation

  /** A template of type Boss, and the same template changed to Minion. */
  const Ogre := BasicEntity("Ogre", 1).(entityType := [Boss])
  const OgreAsMinion := Ogre.(entityType := [Minion])

  /** `UpdateEntityTemplate` leaves the type lists alone, so changing a registered
      template's type leaves its ID in the old type's list: the store then fails
      `ValidateRepository`'s check, although it passed before. */
  lemma TypeChangingUpdateFailsValidation()
    ensures EmptyEntityStore.Initialize().RegisterEntityTemplate(Ogre).0.PassesValidation()
    ensures !EmptyEntityStore.Initialize().RegisterEntityTemplate(Ogre).0.UpdateEntityTemplate(OgreAsMinion).0.PassesValidation()
  {
    var s := EmptyEntityStore.Initialize();
    assert s.Valid();
    RegisterKeepsValid(s, Ogre);
    var a := s.RegisterEntityTemplate(Ogre).0;
    ValidPassesValidation(a);
    var types: seq<EntityType> := [Boss];
    assert types[..0] == [];
    assert a.byType[Boss] == [1];
    var b := a.UpdateEntityTemplate(OgreAsMinion).0;
    assert b.byType[Boss] == [1] && b.templates[1] == OgreAsMinion;
    assert !b.EntryConsistent(Boss, b.byType[Boss][0]);
  }

  // ---------------------------------------------------------------- the repository

  /** The static class's fields, updated in place by each operation. */
  class EntityRepository {
    var templates: map<int, Entity>
    var nameLookup: map<string, int>
    var byType: map<EntityType, seq<int>>
    var byFaction: map<string, seq<int>>
    var nextEntityID: int
    var isInitialized: bool

    function State(): EntityStore
      reads this
    {
      EntityStore(templates, nameLookup, byType, byFaction, nextEntityID, isInitialized)
    }

    /** A stored template with the entity's ID, if any, has its types and faction. */
    predicate KeepsIndexes(entity: Entity)
      reads this
    {
      State().KeepsIndexes(entity)
    }

    /** The fields' initial values. */
    constructor()
      ensures State() == EmptyEntityStore
    {
      templates, nameLookup, byType, byFaction := map[], map[], map[], map[];
      nextEntityID, isInitialized := 1, false;
    }

    /** `Initialize`, without the default templates. */
    method Initialize()
      modifies this
      ensures State() == old(State()).Initialize()
    {
      if isInitialized {
        return;
      }
      templates, nameLookup, byFaction := map[], map[], map[];
      byType := map[];
      byType := byType[Boss := []][Minion := []][NPC := []];
      byType := byType[PlayerControlled := []][Animal := []][Monster := []];
      isInitialized := true;
    }

    /** `CreateEntityTemplate`. */
    method CreateEntityTemplate(name: string, entityType: EntityType, faction: string) returns (entity: Entity)
      modifies this
      ensures (State(), entity) == old(State()).CreateEntityTemplate(name, entityType, faction)
    {
      entity := BasicEntity(name, nextEntityID);
      nextEntityID := nextEntityID + 1;
      entity := entity.(entityType := [entityType], entityFaction := faction, rarity := Common,
                        spawnChance := 100.0, level := 1);
    }

    /** The type loop of `RegisterEntityTemplate`. */
    method AddToTypeLists(types: seq<EntityType>, id: int)
      modifies this`byType
      ensures byType == AddToTypes(old(byType), types, id)
    {
      var i := 0;
      while i < |types|
        invariant 0 <= i <= |types|
        invariant byType == AddToTypes(old(byType), types[..i], id)
      {
        assert types[..i + 1][..i] == types[..i];
        var t := types[i];
        if t in byType {
          byType := byType[t := byType[t] + [id]];
        }
        i := i + 1;
      }
      assert types[..|types|] == types;
    }

    /** The type loop of `RemoveEntityTemplate`. */
    method RemoveFromTypeLists(types: seq<EntityType>, id: int)
      modifies this`byType
      ensures byType == RemoveFromTypes(old(byType), types, id)
    {
      var i := 0;
      while i < |types|
        invariant 0 <= i <= |types|
        invariant byType == RemoveFromTypes(old(byType), types[..i], id)
      {
        assert types[..i + 1][..i] == types[..i];
        var t := types[i];
        if t in byType {
          byType := byType[t := RemoveFirst(byType[t], id)];
        }
        i := i + 1;
      }
      assert types[..|types|] == types;
    }

    /** The faction step of `RegisterEntityTemplate`. */
    method AddToFactionList(f: string, id: int)
      modifies this`byFaction
      ensures byFaction == if f != "" then AppendAt(old(byFaction), f, id) else old(byFaction)
    {
      if f != "" {
        if f !in byFaction {
          byFaction := byFaction[f := []];
        }
        byFaction := byFaction[f := byFaction[f] + [id]];
      }
    }

    /** The faction step of `RemoveEntityTemplate`. */
    method RemoveFromFactionList(f: string, id: int)
      modifies this`byFaction
      ensures byFaction == if f != "" && f in old(byFaction) then RemoveAt(old(byFaction), f, id) else old(byFaction)
    {
      if f != "" && f in byFaction {
        byFaction := byFaction[f := RemoveFirst(byFaction[f], id)];
      }
    }

    /** `UpdateEntityTemplate`. */
    method UpdateEntityTemplate(entity: Entity) returns (ok: bool)
      modifies this
      ensures (State(), ok) == old(State()).UpdateEntityTemplate(entity)
      ensures old(State().Valid()) && old(KeepsIndexes(entity)) ==> State().Valid()
    {
      if State().Valid() && KeepsIndexes(entity) {
        UpdateKeepsValid(State(), entity);
      }
      var id := entity.entityID;
      if id !in templates {
        return false;
      }
      var prior := templates[id];
      templates := templates[id := entity];
      if prior.entityName != entity.entityName {
        nameLookup := nameLookup - {ToLower(prior.entityName)};
        nameLookup := nameLookup[ToLower(entity.entityName) := id];
      }
      ok := true;
    }

    /** `RegisterEntityTemplate`. */
    method RegisterEntityTemplate(entity: Entity) returns (ok: bool)
      modifies this
      ensures (State(), ok) == old(State()).RegisterEntityTemplate(entity)
      ensures old(State().Valid()) && old(KeepsIndexes(entity)) ==> State().Valid()
    {
      var id := entity.entityID;
      if id in templates {
        ok := UpdateEntityTemplate(entity);
        return;
      }
      if State().Valid() {
        RegisterKeepsValid(State(), entity);
      }
      ghost var target := State().RegisterEntityTemplate(entity).0;
      templates := templates[id := entity];
      nameLookup := nameLookup[ToLower(entity.entityName) := id];
      AddToTypeLists(entity.entityType, id);
      AddToFactionList(entity.entityFaction, id);
      ok := true;
      assert State() == target;
    }

    /** `RemoveEntityTemplate`. */
    method RemoveEntityTemplate(id: int) returns (ok: bool)
      modifies this
      ensures (State(), ok) == old(State()).RemoveEntityTemplate(id)
      ensures old(State().Valid()) ==> State().Valid()
    {
      if State().Valid() {
        RemoveKeepsValid(State(), id);
      }
      if id !in templates {
        return false;
      }
      ghost var target := State().RemoveEntityTemplate(id).0;
      var entity := templates[id];
      templates := templates - {id};
      nameLookup := nameLookup - {ToLower(entity.entityName)};
      RemoveFromTypeLists(entity.entityType, id);
      RemoveFromFactionList(entity.entityFaction, id);
      ok := true;
      assert State() == target;
    }

    /** `ClearAllTemplates`. */
    method ClearAllTemplates()
      modifies this
      ensures State() == old(State()).ClearAllTemplates()
    {
      templates, nameLookup, byType, byFaction := map[], map[], map[], map[];
      nextEntityID := 1;
    }

    /** `ValidateRepository`: every name entry, then every entry of every type list, is
        checked; the answer is whether all passed. Nothing changes. */
    method ValidateRepository() returns (ok: bool)
      ensures ok <==> State().PassesValidation()
    {
      ok := true;
      var names := nameLookup.Keys;
      while names != {}
        invariant names <= nameLookup.Keys
        invariant ok <==> forall n :: n in nameLookup.Keys - names ==> nameLookup[n] in templates
        decreases names
      {
        var n :| n in names;
        if nameLookup[n] !in templates {
          ok := false;
        }
        names := names - {n};
      }
      ghost var namesOk := ok;
      assert namesOk <==> forall n :: n in nameLookup ==> nameLookup[n] in templates;
      var types := byType.Keys;
      while types != {}
        invariant types <= byType.Keys
        invariant ok <==> namesOk && forall t, i :: t in byType.Keys - types && 0 <= i < |byType[t]| ==>
          State().EntryConsistent(t, byType[t][i])
        decreases types
      {
        var t :| t in types;
        var list := byType[t];
        ghost var before := ok;
        var j := 0;
        while j < |list|
          invariant 0 <= j <= |list|
          invariant ok <==> before && forall i :: 0 <= i < j ==> State().EntryConsistent(t, list[i])
        {
          var id := list[j];
          if id in templates {
            if t !in templates[id].entityType {
              ok := false;
            }
          } else {
            ok := false;
          }
          j := j + 1;
        }
        types := types - {t};
      }
    }
  }
}
