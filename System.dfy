// Systems and the system manager. GetStaticTypeID keeps a separate counter per
// system type, each starting at 0, so every system type gets id 0 and the
// manager's id map holds at most one system: the one registered last. The
// virtual OnCreate/OnDestroy/Update calls are recorded in a log.

module Systems {
  import opened Base
  import opened Components
  import CM = ComponentManager
  import EM = EntityManager

  /** System<Derived>::GetStaticTypeID state: one counter and one cached id per system type. */
  class SystemTypeIDs {
    var counters: map<string, nat>
    var ids: map<string, nat>

    /** A type's counter is 1 once its id is cached, and 0 (or absent) before. */
    ghost predicate Valid()
      reads this
    {
      && ids.Keys <= counters.Keys
      && (forall t | t in ids :: ids[t] == 0)
      && forall t | t in counters :: counters[t] == if t in ids then 1 else 0
    }

    constructor()
      ensures Valid() && ids == map[]
    {
      counters := map[];
      ids := map[];
    }

    /** `static id = s_counter++` with a per-type s_counter. */
    method GetStaticTypeID(t: string) returns (id: nat)
      requires Valid()
      modifies this
      ensures Valid() && id == 0
      ensures ids == old(ids)[t := id]
    {
      if t in ids {
        id := ids[t];
      } else {
        var counter := if t in counters then counters[t] else 0;
        id := counter;
        counters := counters[t := counter + 1];
        ids := ids[t := id];
      }
    }
  }

  /** A registered system: the ISystem enabled flag plus the ECSSystem manager references. */
  class ISystem {
    const name: string
    var enabled: bool
    var em: EM.EntityManager?
    var cm: CM.ComponentManager?

    /** A new system is enabled and has no managers yet. */
    constructor(name: string)
      ensures this.name == name && enabled && em == null && cm == null
    {
      this.name := name;
      enabled := true;
      em := null;
      cm := null;
    }
  }

  type EntityID = EM.EntityID

  // The ECSSystem helpers, on the manager references a system holds.

  /** ECSSystem::GetEntitiesWith: empty without an entity manager. */
  method EcsGetEntitiesWith(em: EM.EntityManager?, types: seq<TypeName>) returns (r: seq<EntityID>)
    ensures em == null ==> r == []
    ensures NoDup(r)
    ensures em != null ==> forall e :: e in r <==> EM.Selected(em.entities, em.components.pools, types, e)
  {
    if em == null {
      return [];
    }
    r := em.GetEntitiesWith(types);
  }

  /** ECSSystem::GetComponent: None without a component manager (the lookup may create an empty pool). */
  method EcsGetComponent(cm: CM.ComponentManager?, t: TypeName, e: EntityID) returns (r: Option<Component>)
    modifies cm
    ensures r == CM.Lookup(old(CM.PoolsOf(cm)), t, e)
    ensures CM.SameContents(old(CM.PoolsOf(cm)), CM.PoolsOf(cm))
    ensures cm != null ==> cm.hooks == old(cm.hooks)
  {
    if cm == null {
      return None;
    }
    r := cm.GetComponent(t, e);
  }

  /** ECSSystem::HasComponent: false without a component manager. */
  predicate EcsHasComponent(cm: CM.ComponentManager?, t: TypeName, e: EntityID)
    reads cm
  {
    cm != null && cm.HasComponent(t, e)
  }

  /** A call of one of a system's virtual hooks. */
  datatype SystemCall =
    | Created(system: ISystem)
    | Destroyed(system: ISystem)
    | Updated(system: ISystem, deltaTime: real)

  /** The Update calls UpdateSystems makes: the enabled systems, in order. */
  function UpdateCalls(systems: seq<ISystem>, dt: real): (r: seq<SystemCall>)
    reads systems
    ensures |r| <= |systems|
  {
    if systems == [] then []
    else (if systems[0].enabled then [Updated(systems[0], dt)] else []) + UpdateCalls(systems[1..], dt)
  }

  /** UpdateSystems updates exactly the enabled systems, each with the frame's delta time, and skips
      the disabled ones. */
  lemma {:induction false} UpdateCallsExactlyEnabled(systems: seq<ISystem>, dt: real)
    ensures forall c | c in UpdateCalls(systems, dt) :: c.Updated? && c.system in systems && c.system.enabled && c.deltaTime == dt
    ensures forall s | s in systems :: Updated(s, dt) in UpdateCalls(systems, dt) <==> s.enabled
  {
    if systems != [] {
      UpdateCallsExactlyEnabled(systems[1..], dt);
      forall s | s in systems
        ensures Updated(s, dt) in UpdateCalls(systems, dt) <==> s.enabled
      {
        if s != systems[0] {
          assert s in systems[1..];
        }
      }
    }
  }

  /** The OnDestroy calls, in order. */
  function DestroyCalls(systems: seq<ISystem>): (r: seq<SystemCall>)
    ensures |r| == |systems|
    ensures forall i | 0 <= i < |r| :: r[i] == Destroyed(systems[i])
  {
    if systems == [] then [] else DestroyCalls(systems[..|systems| - 1]) + [Destroyed(systems[|systems| - 1])]
  }

  class SystemManager {
    var systems: seq<ISystem>
    var systemMap: map<nat, ISystem>
    const entityManager: EM.EntityManager?
    const componentManager: CM.ComponentManager?
    const typeIDs: SystemTypeIDs
    var calls: seq<SystemCall>

    /** Each system is owned once, the id map only points at owned systems, and since every type's
        id is 0 it has at most that one entry. */
    ghost predicate Valid()
      reads this, typeIDs
    {
      && typeIDs.Valid()
      && NoDup(systems)
      && systemMap.Keys <= {0}
      && forall k | k in systemMap :: systemMap[k] in systems
    }

    constructor(entityManager: EM.EntityManager?, componentManager: CM.ComponentManager?, typeIDs: SystemTypeIDs)
      requires typeIDs.Valid()
      ensures Valid()
      ensures this.entityManager == entityManager && this.componentManager == componentManager && this.typeIDs == typeIDs
      ensures systems == [] && systemMap == map[] && calls == []
    {
      this.entityManager := entityManager;
      this.componentManager := componentManager;
      this.typeIDs := typeIDs;
      systems := [];
      systemMap := map[];
      calls := [];
    }

    /** RegisterSystem<T>: an ECSSystem gets both managers; OnCreate runs once; the list gains the system
        at the end, and the type id (always 0) now maps to it, replacing any earlier system. */
    method RegisterSystem(typeName: string, isECS: bool) returns (s: ISystem)
      requires Valid()
      modifies this, typeIDs
      ensures Valid() && fresh(s)
      ensures s.name == typeName && s.enabled
      ensures isECS ==> s.em == entityManager && s.cm == componentManager
      ensures !isECS ==> s.em == null && s.cm == null
      ensures systems == old(systems) + [s]
      ensures systemMap == old(systemMap)[0 := s]
      ensures calls == old(calls) + [Created(s)]
    {
      s := new ISystem(typeName);
      if isECS {
        s.em := entityManager;
        s.cm := componentManager;
      }
      calls := calls + [Created(s)];
      var id := typeIDs.GetStaticTypeID(typeName);
      systemMap := systemMap[id := s];
      systems := systems + [s];
    }

    /** GetSystem<T>: the system mapped under T's id, or null. */
    method GetSystem(typeName: string) returns (r: ISystem?)
      requires Valid()
      modifies typeIDs
      ensures Valid()
      ensures 0 in systemMap ==> r == systemMap[0]
      ensures 0 !in systemMap ==> r == null
    {
      var id := typeIDs.GetStaticTypeID(typeName);
      r := if id in systemMap then systemMap[id] else null;
    }

    /** RemoveSystem<T>: when T's id is mapped, OnDestroy and removal of that system from the list,
        then the map entry is erased. */
    method RemoveSystem(typeName: string)
      requires Valid()
      modifies this, typeIDs
      ensures Valid()
      ensures 0 !in old(systemMap) ==> systems == old(systems) && systemMap == old(systemMap) && calls == old(calls)
      ensures 0 in old(systemMap) ==>
                && systemMap == old(systemMap) - {0}
                && (exists i | 0 <= i < |old(systems)| :: old(systems)[i] == old(systemMap)[0] && systems == RemoveAt(old(systems), i))
                && calls == old(calls) + [Destroyed(old(systemMap)[0])]
    {
      var id := typeIDs.GetStaticTypeID(typeName);
      if id in systemMap {
        var target := systemMap[id];
        var i := 0;
        while i < |systems| && systems[i] != target
          invariant 0 <= i <= |systems|
          invariant forall j | 0 <= j < i :: systems[j] != target
        {
          i := i + 1;
        }
        if i < |systems| {
          calls := calls + [Destroyed(target)];
          RemoveAtKeepsNoDup(systems, i);
          systems := RemoveAt(systems, i);
        }
        systemMap := systemMap - {id};
      }
    }

    /** UpdateSystems: Update on each enabled system, in registration order. */
    method UpdateSystems(dt: real)
      modifies `calls
      ensures calls == old(calls) + UpdateCalls(systems, dt)
    {
      var i := 0;
      while i < |systems|
        invariant 0 <= i <= |systems|
        invariant calls == old(calls) + UpdateCalls(systems[..i], dt)
      {
        UpdateCallsSnoc(systems[..i + 1], dt);
        assert systems[..i + 1][..i] == systems[..i];
        ghost var next := UpdateCalls(systems[..i + 1], dt);
        if systems[i].enabled {
          calls := calls + [Updated(systems[i], dt)];
        }
        assert calls == old(calls) + next;
        i := i + 1;
      }
      assert systems[..i] == systems;
    }

    /** SetSystemEnabled(typeID): changes the flag of the mapped system only. */
    method SetSystemEnabled(typeID: nat, enabled: bool)
      modifies if typeID in systemMap then {systemMap[typeID]} else {}
      ensures typeID in systemMap ==> systemMap[typeID].enabled == enabled
      ensures typeID in systemMap ==> systemMap[typeID].em == old(systemMap[typeID].em) && systemMap[typeID].cm == old(systemMap[typeID].cm)
    {
      if typeID in systemMap {
        systemMap[typeID].enabled := enabled;
      }
    }

    /** ~SystemManager: OnDestroy on every system, in list order. */
    method DestroyAll()
      modifies `calls
      ensures calls == old(calls) + DestroyCalls(systems)
    {
      var i := 0;
      while i < |systems|
        invariant 0 <= i <= |systems|
        invariant calls == old(calls) + DestroyCalls(systems[..i])
      {
        assert systems[..i + 1][..i] == systems[..i];
        calls := calls + [Destroyed(systems[i])];
        i := i + 1;
      }
      assert systems[..i] == systems;
    }
  }

  /** As written, registering two different system types leaves the id map with only the second:
      GetSystem of the first type answers the second system. */
  method SecondRegistrationHidesFirst(m: SystemManager, first: string, second: string)
    returns (a: ISystem, b: ISystem, found: ISystem?)
    requires m.Valid() && first != second
    modifies m, m.typeIDs
    ensures a.name == first && b.name == second && a != b
    ensures found == b && found != a
  {
    a := m.RegisterSystem(first, false);
    b := m.RegisterSystem(second, false);
    found := m.GetSystem(first);
  }

  /** The evident intent of GetStaticTypeID: one counter shared by every system type, so each type
      gets its own id the first time it asks and keeps it. */
  class SharedTypeIDs {
    var counter: nat
    var ids: map<string, nat>

    /** Issued ids are below the counter and pairwise different. */
    ghost predicate Valid()
      reads this
    {
      && (forall t | t in ids :: ids[t] < counter)
      && forall t, u | t in ids && u in ids && t != u :: ids[t] != ids[u]
    }

    constructor()
      ensures Valid() && ids == map[] && counter == 0
    {
      counter := 0;
      ids := map[];
    }

    /** A known type gets its cached id back; a new type gets the next id, which no other type has. */
    method GetStaticTypeID(t: string) returns (id: nat)
      requires Valid()
      modifies this
      ensures Valid()
      ensures ids == old(ids)[t := id]
      ensures t in old(ids) ==> id == old(ids)[t]
      ensures t !in old(ids) ==> forall u | u in old(ids) :: old(ids)[u] != id
    {
      if t in ids {
        id := ids[t];
      } else {
        id := counter;
        counter := counter + 1;
        ids := ids[t := id];
      }
    }
  }

  /** With the shared counter, two different types always get two different ids, so a map keyed by
      them keeps a system for each. */
  method DistinctTypesDistinctIds(ids: SharedTypeIDs, first: string, second: string)
    returns (a: nat, b: nat)
    requires ids.Valid() && first != second
    modifies ids
    ensures ids.Valid() && a != b
    ensures first in ids.ids && second in ids.ids && ids.ids[first] == a && ids.ids[second] == b
  {
    a := ids.GetStaticTypeID(first);
    assert first in ids.ids && ids.ids[first] == a;
    b := ids.GetStaticTypeID(second);
  }

  /** Splitting off the last system: UpdateCalls is a left-to-right filter. */
  lemma {:induction false} UpdateCallsSnoc(systems: seq<ISystem>, dt: real)
    requires systems != []
    ensures UpdateCalls(systems, dt) == UpdateCalls(systems[..|systems| - 1], dt)
                                        + (if systems[|systems| - 1].enabled then [Updated(systems[|systems| - 1], dt)] else [])
  {
    if |systems| > 1 {
      UpdateCallsSnoc(systems[1..], dt);
      assert systems[1..][..|systems[1..]| - 1] == systems[..|systems| - 1][1..];
    }
  }

  lemma RemoveAtKeepsNoDup<T>(s: seq<T>, i: nat)
    requires NoDup(s) && i < |s|
    ensures NoDup(RemoveAt(s, i))
    ensures forall x | x in RemoveAt(s, i) :: x in s && x != s[i]
  {
    var r := RemoveAt(s, i);
    forall a, b | 0 <= a < b < |r|
      ensures r[a] != r[b]
    {
      var a' := if a < i then a else a + 1;
      var b' := if b < i then b else b + 1;
      assert r[a] == s[a'] && r[b] == s[b'];
    }
  }
}
