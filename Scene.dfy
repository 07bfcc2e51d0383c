// The scene: it owns one component manager, one entity manager wired to it and
// one system manager wired to both, and gates or forwards to them. A YAML scene
// node is modelled by the fields the scene reads from it; component data and
// the YAML text itself are not modelled.

module Scenes {
  import opened Base
  import opened Components
  import CM = ComponentManager
  import EM = EntityManager
  import Systems
  import Entities

  type EntityID = EM.EntityID

  /** The keys of an entity node the scene reads: "name", "active" and "parent" (absent keys are None). */
  datatype EntityNode = EntityNode(name: Option<string>, active: Option<bool>, parent: Option<EntityID>)

  /** The keys of a scene node: "name", "id", "active" and the "entities" sequence (None when it is
      missing or not a sequence). */
  datatype SceneNode = SceneNode(name: Option<string>, id: Option<u32>, active: Option<bool>, entities: Option<seq<EntityNode>>)

  /** The nodes DeserializeEntity turns into entities: the ones with a name, in order. */
  function Named(nodes: seq<EntityNode>): (r: seq<EntityNode>)
    ensures |r| <= |nodes|
    ensures forall n | n in r :: n in nodes && n.name.Some?
  {
    if nodes == [] then []
    else Named(nodes[..|nodes| - 1]) + (if nodes[|nodes| - 1].name.Some? then [nodes[|nodes| - 1]] else [])
  }

  /** The entity DeserializeEntity makes from a named node: its name, and its "active" value when present. */
  function InfoOf(id: EntityID, node: EntityNode): (i: EM.EntityInfo)
    requires node.name.Some?
    ensures i.id == id && i.name == node.name.value && i.parent == EM.INVALID_ENTITY_ID && i.children == []
    ensures i.active == (node.active.None? || node.active.value)
  {
    var info := EM.NewInfo(id, node.name.value);
    if node.active.Some? then info.(active := node.active.value) else info
  }

  /** The parent id the second pass gives an entity, or its current one when the node has none. */
  function ParentAfter(node: EntityNode, current: EntityID): (p: EntityID)
    ensures node.parent.Some? ==> p == node.parent.value
    ensures node.parent.None? ==> p == current
  {
    if node.parent.Some? then node.parent.value else current
  }

  /** The entity table the first pass builds: entity ids[i] made from node ns[i]. */
  function Table(ids: seq<EntityID>, ns: seq<EntityNode>): (t: map<EntityID, EM.EntityInfo>)
    requires |ids| == |ns| && forall n | n in ns :: n.name.Some?
    ensures forall k :: k in t <==> k in ids
  {
    if ids == [] then map[]
    else Table(ids[..|ids| - 1], ns[..|ns| - 1])[ids[|ids| - 1] := InfoOf(ids[|ids| - 1], ns[|ns| - 1])]
  }

  /** Every entity of the first pass's table has no parent and no children. */
  lemma {:induction false} TableUnlinked(ids: seq<EntityID>, ns: seq<EntityNode>)
    requires |ids| == |ns| && forall n | n in ns :: n.name.Some?
    ensures forall k | k in Table(ids, ns) :: Table(ids, ns)[k].parent == EM.INVALID_ENTITY_ID && Table(ids, ns)[k].children == []
  {
    if ids != [] {
      assert forall n | n in ns[..|ns| - 1] :: n in ns;
      TableUnlinked(ids[..|ids| - 1], ns[..|ns| - 1]);
    }
  }

  /** The first pass's id-to-node map. */
  function Sources(ids: seq<EntityID>, ns: seq<EntityNode>): (t: map<EntityID, EntityNode>)
    requires |ids| == |ns|
    ensures forall k :: k in t <==> k in ids
  {
    if ids == [] then map[]
    else Sources(ids[..|ids| - 1], ns[..|ns| - 1])[ids[|ids| - 1] := ns[|ns| - 1]]
  }

  /** With distinct ids, entry ids[i] of both maps comes from node ns[i]. */
  lemma {:induction false} TableAt(ids: seq<EntityID>, ns: seq<EntityNode>, i: nat)
    requires |ids| == |ns| && (forall n | n in ns :: n.name.Some?) && NoDup(ids) && i < |ids|
    ensures Table(ids, ns)[ids[i]] == InfoOf(ids[i], ns[i])
    ensures Sources(ids, ns)[ids[i]] == ns[i]
  {
    var m := |ids| - 1;
    if i < m {
      assert NoDup(ids[..m]);
      assert forall n | n in ns[..m] :: n in ns;
      TableAt(ids[..m], ns[..m], i);
      assert ids[i] != ids[m];
    }
  }

  /** The entities after loading: exactly ids, distinct, one per named node, with its name, its
      "active" value (default true) and its "parent" value (default none); each children list holds,
      once each and in the second pass's order, the loaded entities whose node names that id as parent. */
  ghost predicate Loaded(ents: map<EntityID, EM.EntityInfo>, ids: seq<EntityID>, named: seq<EntityNode>)
  {
    && |ids| == |named|
    && NoDup(ids)
    && (forall k :: k in ents <==> k in ids)
    && (forall i | 0 <= i < |ids| ::
         && ids[i] in ents
         && named[i].name.Some?
         && ents[ids[i]].name == named[i].name.value
         && ents[ids[i]].active == (named[i].active.None? || named[i].active.value)
         && ents[ids[i]].parent == (if named[i].parent.Some? then named[i].parent.value else EM.INVALID_ENTITY_ID)
         && NoDup(ents[ids[i]].children))
    && forall i, j | 0 <= i < |ids| && 0 <= j < |ids| ::
         ids[j] in ents[ids[i]].children <==> named[j].parent == Some(ids[i])
  }

  /** As written, the second pass takes a saved "parent" value as an id of the new numbering. A
      fresh manager hands out ids 1 and 2; if the parent of the second node was saved as 5, the
      loaded child gets parent 5, which names no entity, and the entity made from the first node
      does not list it as a child. */
  lemma StaleParentAfterReload(ents: map<EntityID, EM.EntityInfo>, named: seq<EntityNode>)
    requires Loaded(ents, [1, 2], named)
    requires named[1].parent == Some(5)
    ensures ents[2].parent == 5 && 5 !in ents
    ensures 2 !in ents[1].children
  {
    assert [1, 2][1] == 2 && [1, 2][0] == 1;
  }

  /** The first position of `savedId` among the saved ids. */
  function SavedIndex(saved: seq<EntityID>, savedId: EntityID): (r: Option<nat>)
    ensures r.Some? ==> r.value < |saved| && saved[r.value] == savedId
    ensures r.None? ==> savedId !in saved
  {
    if saved == [] then None
    else if saved[0] == savedId then Some(0)
    else
      var rest := SavedIndex(saved[1..], savedId);
      if rest.Some? then Some(rest.value + 1) else None
  }

  /** The evident intent: a node's saved parent id translated into the new numbering, through the
      node saved under that id, or no parent when no loaded node was saved under it. */
  function Renumbered(node: EntityNode, saved: seq<EntityID>, ids: seq<EntityID>): EntityNode
    requires |saved| == |ids|
  {
    if node.parent.None? then node
    else
      var i := SavedIndex(saved, node.parent.value);
      if i.None? then node.(parent := None) else node.(parent := Some(ids[i.value]))
  }

  function RenumberedAll(named: seq<EntityNode>, saved: seq<EntityID>, ids: seq<EntityID>): (r: seq<EntityNode>)
    requires |saved| == |ids|
    ensures |r| == |named|
    ensures forall j | 0 <= j < |named| :: r[j] == Renumbered(named[j], saved, ids)
  {
    seq(|named|, j requires 0 <= j < |named| => Renumbered(named[j], saved, ids))
  }

  /** With the saved ids translated, a reload reproduces the saved hierarchy under the new ids: a
      loaded entity lists another as a child exactly when the other's node named the first's saved
      id as its parent, and that child's parent is the first's new id. */
  lemma RenumberedReloadKeepsHierarchy(ents: map<EntityID, EM.EntityInfo>, ids: seq<EntityID>,
                                       named: seq<EntityNode>, saved: seq<EntityID>)
    requires |saved| == |ids| && NoDup(saved)
    requires Loaded(ents, ids, RenumberedAll(named, saved, ids))
    ensures forall i, j | 0 <= i < |ids| && 0 <= j < |ids| ::
              ids[j] in ents[ids[i]].children <==> named[j].parent == Some(saved[i])
    ensures forall i, j | 0 <= i < |ids| && 0 <= j < |ids| && named[j].parent == Some(saved[i]) ::
              ents[ids[j]].parent == ids[i]
  {
    var r := RenumberedAll(named, saved, ids);
    forall i, j | 0 <= i < |ids| && 0 <= j < |ids|
      ensures r[j].parent == Some(ids[i]) <==> named[j].parent == Some(saved[i])
    {
      if named[j].parent.Some? {
        var k := SavedIndex(saved, named[j].parent.value);
        if k.Some? {
          assert ids[k.value] == ids[i] <==> k.value == i;
        }
      }
    }
  }

  /** The second pass has handled every created entity but those in `pending`: the ids, names and
      active flags of E0 stay, a handled entity has the parent its node names, if any, and each
      children list holds, once each, the handled entities whose node names it as parent. */
  ghost predicate Relinked(E: map<EntityID, EM.EntityInfo>, E0: map<EntityID, EM.EntityInfo>,
                           created: map<EntityID, EntityNode>, pending: set<EntityID>)
  {
    && E.Keys == E0.Keys
    && (forall k | k in E :: E[k].name == E0[k].name && E[k].active == E0[k].active)
    && (forall k | k in E ::
          E[k].parent == if k in created && k !in pending then ParentAfter(created[k], E0[k].parent) else E0[k].parent)
    && (forall p | p in E :: NoDup(E[p].children))
    && (forall p, c | p in E :: c in E[p].children <==> c in created && c !in pending && created[c].parent == Some(p))
  }

  lemma RelinkStep(E: map<EntityID, EM.EntityInfo>, E1: map<EntityID, EM.EntityInfo>,
                   E0: map<EntityID, EM.EntityInfo>, created: map<EntityID, EntityNode>,
                   pending: set<EntityID>, k: EntityID)
    requires k in pending && k in created && created[k].parent.Some? && k in E0
    requires Relinked(E, E0, created, pending)
    requires E1 == (if k != EM.INVALID_ENTITY_ID && k in E then EM.SetParentOf(E, k, created[k].parent.value) else E)
    requires k != EM.INVALID_ENTITY_ID && EM.INVALID_ENTITY_ID !in E0 && E0[k].parent == EM.INVALID_ENTITY_ID
    ensures Relinked(E1, E0, created, pending - {k})
  {
    var q := created[k].parent.value;
    forall x | x in E1
      ensures E1[x].name == E0[x].name && E1[x].active == E0[x].active
      ensures E1[x].parent == if x in created && x !in pending - {k} then ParentAfter(created[x], E0[x].parent) else E0[x].parent
      ensures E1[x].children == E[x].children + (if x == q then [k] else [])
    {
      assert E1[x].name == E[x].name && E1[x].active == E[x].active;
      assert E1[x].parent == if x == k then created[k].parent.value else E[x].parent;
    }
    forall x | x in E1
      ensures NoDup(E1[x].children)
    {
      if x == q {
        assert k !in E[x].children;
      }
    }
  }

  lemma RelinkSkip(E: map<EntityID, EM.EntityInfo>, E0: map<EntityID, EM.EntityInfo>,
                   created: map<EntityID, EntityNode>, pending: set<EntityID>, k: EntityID)
    requires k in pending && k in created && created[k].parent.None?
    requires Relinked(E, E0, created, pending)
    ensures Relinked(E, E0, created, pending - {k})
  {
  }

  /** The two passes together: a table built by the first pass, then relinked by the second, is Loaded. */
  lemma LinkedLoaded(E1: map<EntityID, EM.EntityInfo>, E2: map<EntityID, EM.EntityInfo>,
                     created: map<EntityID, EntityNode>, ids: seq<EntityID>, named: seq<EntityNode>)
    requires |ids| == |named| && NoDup(ids) && (forall n | n in named :: n.name.Some?)
    requires E1 == Table(ids, named) && created == Sources(ids, named)
    requires Relinked(E2, E1, created, {})
    ensures Loaded(E2, ids, named)
  {
    LoadedLinks(E1, E2, created, ids, named);
    LoadedFields(E1, E2, created, ids, named);
    assert forall k :: k in E2 <==> k in ids;
    LoadedOf(E2, ids, named);
  }

  /** Loaded, gathered from its parts. */
  lemma LoadedOf(E2: map<EntityID, EM.EntityInfo>, ids: seq<EntityID>, named: seq<EntityNode>)
    requires |ids| == |named| && NoDup(ids) && (forall n | n in named :: n.name.Some?)
    requires forall k :: k in E2 <==> k in ids
    requires forall p | p in E2 :: NoDup(E2[p].children)
    requires forall i | 0 <= i < |ids| ::
               && ids[i] in E2
               && E2[ids[i]].name == named[i].name.value
               && E2[ids[i]].active == (named[i].active.None? || named[i].active.value)
               && E2[ids[i]].parent == (if named[i].parent.Some? then named[i].parent.value else EM.INVALID_ENTITY_ID)
    requires forall i, j | 0 <= i < |ids| && 0 <= j < |ids| ::
               ids[j] in E2[ids[i]].children <==> named[j].parent == Some(ids[i])
    ensures Loaded(E2, ids, named)
  {
    forall i | 0 <= i < |ids|
      ensures named[i].name.Some?
    {
      assert named[i] in named;
    }
  }

  /** After the relinking, each entity's children are exactly the nodes naming it as parent. */
  lemma LoadedLinks(E1: map<EntityID, EM.EntityInfo>, E2: map<EntityID, EM.EntityInfo>,
                    created: map<EntityID, EntityNode>, ids: seq<EntityID>, named: seq<EntityNode>)
    requires |ids| == |named| && NoDup(ids) && (forall n | n in named :: n.name.Some?)
    requires E1 == Table(ids, named) && created == Sources(ids, named)
    requires Relinked(E2, E1, created, {})
    ensures forall i, j | 0 <= i < |ids| && 0 <= j < |ids| ::
              ids[j] in E2[ids[i]].children <==> named[j].parent == Some(ids[i])
  {
    forall i, j | 0 <= i < |ids| && 0 <= j < |ids|
      ensures ids[j] in E2[ids[i]].children <==> named[j].parent == Some(ids[i])
    {
      TableAt(ids, named, j);
    }
  }

  /** After the relinking, each entity has its node's name, flag and parent. */
  lemma LoadedFields(E1: map<EntityID, EM.EntityInfo>, E2: map<EntityID, EM.EntityInfo>,
                     created: map<EntityID, EntityNode>, ids: seq<EntityID>, named: seq<EntityNode>)
    requires |ids| == |named| && NoDup(ids) && (forall n | n in named :: n.name.Some?)
    requires E1 == Table(ids, named) && created == Sources(ids, named)
    requires Relinked(E2, E1, created, {})
    ensures forall i | 0 <= i < |ids| ::
              && ids[i] in E2
              && E2[ids[i]].name == named[i].name.value
              && E2[ids[i]].active == (named[i].active.None? || named[i].active.value)
              && E2[ids[i]].parent == (if named[i].parent.Some? then named[i].parent.value else EM.INVALID_ENTITY_ID)
  {
    forall i | 0 <= i < |ids|
      ensures && ids[i] in E2
              && E2[ids[i]].name == named[i].name.value
              && E2[ids[i]].active == (named[i].active.None? || named[i].active.value)
              && E2[ids[i]].parent == (if named[i].parent.Some? then named[i].parent.value else EM.INVALID_ENTITY_ID)
    {
      assert named[i] in named;
      TableAt(ids, named, i);
    }
  }

  class Scene {
    const componentManager: CM.ComponentManager
    const entityManager: EM.EntityManager
    const systemManager: Systems.SystemManager
    var name: string
    var id: u32
    var active: bool

    /** Initialize's wiring: the entity manager uses this scene's component manager, and the system
        manager uses both. */
    ghost predicate Valid()
      reads this, entityManager, systemManager, systemManager.typeIDs
    {
      && entityManager.Valid()
      && entityManager.components == componentManager
      && systemManager.Valid()
      && systemManager.entityManager == entityManager
      && systemManager.componentManager == componentManager
    }

    /** Scene(name = "Scene", id = 0): active, with fresh empty managers. */
    constructor(name: string := "Scene", id: u32 := 0)
      ensures Valid()
      ensures this.name == name && this.id == id && active
      ensures fresh(componentManager) && fresh(entityManager) && fresh(systemManager)
      ensures componentManager.pools == map[] && entityManager.entities == map[] && systemManager.systems == []
    {
      this.name := name;
      this.id := id;
      active := true;
      var cm := new CM.ComponentManager();
      var em := new EM.EntityManager(cm);
      var typeIDs := new Systems.SystemTypeIDs();
      componentManager := cm;
      entityManager := em;
      systemManager := new Systems.SystemManager(em, cm, typeIDs);
    }

    /** CreateEntity(name = "Entity"): a valid handle on this scene's managers for the new entity. */
    method CreateEntity(name: string := EM.DefaultEntityName) returns (e: Entities.Entity)
      requires Valid()
      requires entityManager.availableIDs == [] ==> entityManager.nextID != 0
      modifies entityManager
      ensures Valid()
      ensures e.em == entityManager && e.cm == componentManager && e.IsValid()
      ensures e.id !in old(entityManager.entities)
      ensures entityManager.entities == old(entityManager.entities)[e.id := EM.NewInfo(e.id, name)]
    {
      var eid := entityManager.CreateEntity(name);
      e := Entities.Entity(eid, entityManager, componentManager);
    }

    /** DestroyEntity(const Entity&): only for a handle that is valid (on its own manager). */
    method DestroyEntity(entity: Entities.Entity)
      requires Valid()
      modifies entityManager, componentManager
      ensures Valid()
      ensures old(entity.IsValid()) ==> !entityManager.IsValid(entity.id)
      ensures old(entity.IsValid()) ==>
                EM.Destroyed(old(entityManager.entities), entityManager.entities) == EM.Subtree(old(entityManager.entities), entity.id)
      ensures old(entity.IsValid()) ==>
                && entityManager.entities == EM.TearDownOf(old(entityManager.entities), entity.id).ents
                && entityManager.availableIDs ==
                   old(entityManager.availableIDs) + EM.TearDownOf(old(entityManager.entities), entity.id).queued
      ensures EM.TornDown(old(entityManager.entities), old(entityManager.availableIDs), old(componentManager.pools), old(componentManager.hooks),
                          entityManager.entities, entityManager.availableIDs, componentManager.pools, componentManager.hooks)
      ensures !old(entity.IsValid()) ==>
                && entityManager.entities == old(entityManager.entities)
                && entityManager.availableIDs == old(entityManager.availableIDs)
                && componentManager.pools == old(componentManager.pools)
                && componentManager.hooks == old(componentManager.hooks)
    {
      if entity.IsValid() {
        entityManager.DestroyEntity(entity.GetID());
      } else {
        EM.TornDownNone(entityManager.entities, entityManager.availableIDs, componentManager.pools, componentManager.hooks);
      }
    }

    /** DestroyEntity(EntityID): straight to the entity manager, which ignores invalid ids. */
    method DestroyEntityByID(entityID: EntityID)
      requires Valid()
      modifies entityManager, componentManager
      ensures Valid() && !entityManager.IsValid(entityID)
      ensures EM.Destroyed(old(entityManager.entities), entityManager.entities) == EM.Subtree(old(entityManager.entities), entityID)
      ensures entityManager.entities == EM.TearDownOf(old(entityManager.entities), entityID).ents
      ensures entityManager.availableIDs ==
              old(entityManager.availableIDs) + EM.TearDownOf(old(entityManager.entities), entityID).queued
      ensures EM.TornDown(old(entityManager.entities), old(entityManager.availableIDs), old(componentManager.pools), old(componentManager.hooks),
                          entityManager.entities, entityManager.availableIDs, componentManager.pools, componentManager.hooks)
      ensures !old(entityManager.IsValid(entityID)) ==>
                entityManager.entities == old(entityManager.entities) && componentManager.pools == old(componentManager.pools)
    {
      entityManager.DestroyEntity(entityID);
    }

    /** GetEntity: a handle on this scene's managers for a live id, the invalid handle otherwise. */
    function GetEntity(entityID: EntityID): (e: Entities.Entity)
      reads this, entityManager
      ensures entityManager.IsValid(entityID) ==> e == Entities.Entity(entityID, entityManager, componentManager) && e.IsValid()
      ensures !entityManager.IsValid(entityID) ==> e == Entities.Invalid() && !e.IsValid()
    {
      if entityManager.IsValid(entityID) then Entities.Entity(entityID, entityManager, componentManager)
      else Entities.Invalid()
    }

    /** GetAllEntities: one handle per live entity, in the map's (unspecified) order. */
    method GetAllEntities() returns (r: seq<Entities.Entity>)
      ensures forall h | h in r :: h.em == entityManager && h.cm == componentManager
      ensures forall k :: (exists h | h in r :: h.id == k) <==> k in entityManager.entities
      ensures forall i, j | 0 <= i < j < |r| :: r[i].id != r[j].id
    {
      r := [];
      var remaining := entityManager.entities.Keys;
      while remaining != {}
        invariant remaining <= entityManager.entities.Keys
        invariant forall h | h in r :: h.em == entityManager && h.cm == componentManager
        invariant forall k :: (exists h | h in r :: h.id == k) <==> k in entityManager.entities && k !in remaining
        invariant forall i, j | 0 <= i < j < |r| :: r[i].id != r[j].id
        decreases remaining
      {
        var k :| k in remaining;
        r := r + [Entities.Entity(k, entityManager, componentManager)];
        remaining := remaining - {k};
      }
    }

    /** GetEntitiesWith<Ts...>: a handle for each id the entity manager selects, in its order. */
    method GetEntitiesWith(types: seq<TypeName>) returns (r: seq<Entities.Entity>)
      requires Valid()
      ensures forall h | h in r :: h.em == entityManager && h.cm == componentManager
      ensures forall k :: (exists h | h in r :: h.id == k) <==>
                EM.Selected(entityManager.entities, componentManager.pools, types, k)
      ensures forall i, j | 0 <= i < j < |r| :: r[i].id != r[j].id
    {
      var ids := entityManager.GetEntitiesWith(types);
      r := [];
      var i := 0;
      while i < |ids|
        invariant 0 <= i <= |ids|
        invariant |r| == i
        invariant forall j | 0 <= j < i :: r[j] == Entities.Entity(ids[j], entityManager, componentManager)
      {
        r := r + [Entities.Entity(ids[i], entityManager, componentManager)];
        i := i + 1;
      }
      forall k
        ensures (exists h | h in r :: h.id == k) <==> k in ids
      {
        if k in ids {
          var j :| 0 <= j < |ids| && ids[j] == k;
          assert r[j] in r;
        }
      }
    }

    /** Update: the systems run only while the scene is active. */
    method Update(dt: real)
      modifies systemManager`calls
      ensures active ==> systemManager.calls == old(systemManager.calls) + Systems.UpdateCalls(systemManager.systems, dt)
      ensures !active ==> systemManager.calls == old(systemManager.calls)
    {
      if active {
        systemManager.UpdateSystems(dt);
      }
    }

    /** Clear: destroys every entity. */
    method Clear()
      requires Valid()
      modifies entityManager, componentManager
      ensures Valid() && entityManager.entities == map[]
      ensures entityManager.nextID == old(entityManager.nextID)
      ensures EM.TornDown(old(entityManager.entities), old(entityManager.availableIDs), old(componentManager.pools), old(componentManager.hooks),
                          entityManager.entities, entityManager.availableIDs, componentManager.pools, componentManager.hooks)
      ensures componentManager.pools == CM.WithoutEntities(old(componentManager.pools), old(entityManager.entities).Keys)
    {
      entityManager.Clear();
      assert EM.Destroyed(old(entityManager.entities), entityManager.entities) == old(entityManager.entities).Keys;
    }

    /** Deserialize: take the scene fields that are present, then reload the entities. */
    method Deserialize(node: SceneNode) returns (ghost ids: seq<EntityID>)
      requires Valid()
      requires entityManager.nextID != 0
      requires node.entities.Some? ==> entityManager.nextID as int + |node.entities.value| < 0x1_0000_0000
      modifies this, entityManager, componentManager
      ensures Valid()
      ensures name == (if node.name.Some? then node.name.value else old(name))
      ensures id == (if node.id.Some? then node.id.value else old(id))
      ensures active == (if node.active.Some? then node.active.value else old(active))
      ensures node.entities.None? ==> ids == [] && entityManager.entities == map[]
      ensures node.entities.Some? ==> Loaded(entityManager.entities, ids, Named(node.entities.value))
      ensures componentManager.pools == CM.WithoutEntities(old(componentManager.pools), old(entityManager.entities).Keys)
      ensures EM.HooksFor(old(componentManager.pools), old(componentManager.hooks), componentManager.hooks,
                          old(entityManager.entities).Keys)
    {
      if node.name.Some? {
        name := node.name.value;
      }
      if node.id.Some? {
        id := node.id.value;
      }
      if node.active.Some? {
        active := node.active.value;
      }
      ids := LoadEntities(node.entities);
    }

    /** Deserialize's entity part: clear every entity, then (when "entities" is a sequence) create one
        entity per named node in a first pass and set the parents in a second pass, so a parent may be
        created after its child. Component data is not modelled. */
    method LoadEntities(nodes: Option<seq<EntityNode>>) returns (ghost ids: seq<EntityID>)
      requires Valid()
      requires entityManager.nextID != 0
      requires nodes.Some? ==> entityManager.nextID as int + |nodes.value| < 0x1_0000_0000
      modifies entityManager, componentManager
      ensures Valid()
      ensures nodes.None? ==> ids == [] && entityManager.entities == map[]
      ensures nodes.Some? ==> Loaded(entityManager.entities, ids, Named(nodes.value))
      ensures componentManager.pools == CM.WithoutEntities(old(componentManager.pools), old(entityManager.entities).Keys)
      ensures EM.HooksFor(old(componentManager.pools), old(componentManager.hooks), componentManager.hooks,
                          old(entityManager.entities).Keys)
    {
      Clear();
      assert EM.Destroyed(old(entityManager.entities), entityManager.entities) == old(entityManager.entities).Keys;
      ghost var P1, H1 := componentManager.pools, componentManager.hooks;
      ids := [];
      if nodes.Some? {
        var created;
        ghost var named := Named(nodes.value);
        created, ids := CreateNamed(nodes.value);
        ghost var E1 := entityManager.entities;
        TableUnlinked(ids, named);
        assert created.Keys == E1.Keys;
        LinkParents(created);
        LinkedLoaded(E1, entityManager.entities, created, ids, named);
      }
      assert componentManager.pools == P1 && componentManager.hooks == H1;
    }

    /** The first pass: DeserializeEntity on every node of a cleared scene, recording the created ids. */
    method CreateNamed(nodes: seq<EntityNode>) returns (created: map<EntityID, EntityNode>, ghost ids: seq<EntityID>)
      requires entityManager.Valid() && entityManager.entities == map[]
      requires entityManager.nextID != 0 && entityManager.nextID as int + |nodes| < 0x1_0000_0000
      modifies entityManager`entities, entityManager`availableIDs, entityManager`nextID
      ensures entityManager.Valid()
      ensures |ids| == |Named(nodes)| && NoDup(ids)
      ensures entityManager.entities == Table(ids, Named(nodes))
      ensures created == Sources(ids, Named(nodes))
    {
      created := map[];
      ids := [];
      ghost var n0 := entityManager.nextID;
      var i := 0;
      while i < |nodes|
        invariant 0 <= i <= |nodes|
        invariant entityManager.Valid()
        invariant n0 <= entityManager.nextID && entityManager.nextID as int <= n0 as int + i
        invariant |ids| == |Named(nodes[..i])| && NoDup(ids)
        invariant entityManager.entities == Table(ids, Named(nodes[..i]))
        invariant created == Sources(ids, Named(nodes[..i]))
      {
        TakeSnoc(nodes, i);
        created, ids := CreateOne(nodes[i], nodes[..i], created, ids);
        i := i + 1;
      }
      assert nodes[..i] == nodes;
    }

    /** One iteration of the first pass. */
    method CreateOne(node: EntityNode, ghost done: seq<EntityNode>, created0: map<EntityID, EntityNode>,
                     ghost ids0: seq<EntityID>)
      returns (created: map<EntityID, EntityNode>, ghost ids: seq<EntityID>)
      requires entityManager.Valid() && entityManager.nextID != 0
      requires |ids0| == |Named(done)| && NoDup(ids0)
      requires entityManager.entities == Table(ids0, Named(done)) && created0 == Sources(ids0, Named(done))
      modifies entityManager`entities, entityManager`availableIDs, entityManager`nextID
      ensures entityManager.Valid()
      ensures entityManager.nextID == old(entityManager.nextID) || entityManager.nextID == AddU32(old(entityManager.nextID), 1)
      ensures |ids| == |Named(done + [node])| && NoDup(ids)
      ensures entityManager.entities == Table(ids, Named(done + [node]))
      ensures created == Sources(ids, Named(done + [node]))
    {
      assert (done + [node])[..|done|] == done;
      var eid := DeserializeEntity(node);
      if eid != EM.INVALID_ENTITY_ID {
        created := created0[eid := node];
        ids := ids0 + [eid];
        assert ids[..|ids| - 1] == ids0;
        assert Named(done + [node]) == Named(done) + [node];
      } else {
        created, ids := created0, ids0;
        assert Named(done + [node]) == Named(done);
      }
    }

    /** EntityManager::DeserializeEntity: INVALID_ENTITY_ID for a node without a name; otherwise a new
        entity with that name, made inactive when the node says so. */
    method DeserializeEntity(node: EntityNode) returns (eid: EntityID)
      requires entityManager.Valid()
      requires entityManager.availableIDs == [] ==> entityManager.nextID != 0
      modifies entityManager`entities, entityManager`availableIDs, entityManager`nextID
      ensures entityManager.Valid()
      ensures node.name.None? ==>
                eid == EM.INVALID_ENTITY_ID && entityManager.entities == old(entityManager.entities)
                && entityManager.nextID == old(entityManager.nextID)
      ensures node.name.Some? ==> eid != EM.INVALID_ENTITY_ID && eid !in old(entityManager.entities)
      ensures node.name.Some? ==> entityManager.entities == old(entityManager.entities)[eid := InfoOf(eid, node)]
      ensures node.name.Some? ==>
                entityManager.nextID == old(entityManager.nextID) || entityManager.nextID == AddU32(old(entityManager.nextID), 1)
    {
      if node.name.None? {
        return EM.INVALID_ENTITY_ID;
      }
      eid := entityManager.CreateEntity(node.name.value);
      if node.active.Some? {
        entityManager.SetEntityActive(eid, node.active.value);
      }
    }

    /** The second pass: SetParent for every created entity whose node names a parent, in the map's
        (unspecified) order. Names and active flags stay; only parent ids and children lists change. */
    method LinkParents(created: map<EntityID, EntityNode>)
      requires entityManager.Valid()
      requires created.Keys == entityManager.entities.Keys
      requires forall k | k in entityManager.entities ::
                 entityManager.entities[k].parent == EM.INVALID_ENTITY_ID && entityManager.entities[k].children == []
      modifies entityManager`entities
      ensures entityManager.Valid()
      ensures Relinked(entityManager.entities, old(entityManager.entities), created, {})
    {
      var pending := created.Keys;
      ghost var E0 := entityManager.entities;
      while pending != {}
        invariant entityManager.Valid()
        invariant pending <= created.Keys
        invariant Relinked(entityManager.entities, E0, created, pending)
        invariant created.Keys == E0.Keys && EM.INVALID_ENTITY_ID !in E0
        invariant forall x | x in E0 :: E0[x].parent == EM.INVALID_ENTITY_ID
        decreases pending
      {
        var k :| k in pending;
        LinkOne(k, created, pending, E0);
        pending := pending - {k};
      }
    }

    /** One iteration of the second pass. */
    method LinkOne(k: EntityID, created: map<EntityID, EntityNode>, ghost pending: set<EntityID>,
                   ghost E0: map<EntityID, EM.EntityInfo>)
      requires entityManager.Valid()
      requires k in pending && pending <= created.Keys
      requires Relinked(entityManager.entities, E0, created, pending)
      requires created.Keys == E0.Keys && EM.INVALID_ENTITY_ID !in E0
      requires forall x | x in E0 :: E0[x].parent == EM.INVALID_ENTITY_ID
      modifies entityManager`entities
      ensures entityManager.Valid()
      ensures Relinked(entityManager.entities, E0, created, pending - {k})
    {
      var node := created[k];
      ghost var E := entityManager.entities;
      if node.parent.Some? {
        entityManager.SetParent(k, node.parent.value);
        RelinkStep(E, entityManager.entities, E0, created, pending, k);
      } else {
        RelinkSkip(E, E0, created, pending, k);
      }
    }
  }

  /** A new scene is named "Scene", has id 0 and is active. */
  method DefaultScene() returns (s: Scene)
    ensures s.name == "Scene" && s.id == 0 && s.active
    ensures s.Valid()
  {
    s := new Scene();
  }
}
