// The Entity handle: an id plus (possibly null) references to the entity and
// component managers. It has value semantics (copyable, compared by id), so it
// is a datatype; Destroy, which resets the handle's own id, returns the reset
// handle. The handle's component operations go to its own component manager,
// which need not be its entity manager's.

module Entities {
  import opened Base
  import opened Components
  import CM = ComponentManager
  import EM = EntityManager

  type EntityID = EM.EntityID

  datatype Entity = Entity(id: EntityID, em: EM.EntityManager?, cm: CM.ComponentManager?)
  {
    /** IsValid: a non-zero id, a manager, and the manager reports the id live. */
    predicate IsValid()
      reads em
    {
      id != EM.INVALID_ENTITY_ID && em != null && em.IsValid(id)
    }

    /** ==, != and < look at the ids alone. */
    predicate Equals(other: Entity) { id == other.id }
    predicate NotEquals(other: Entity) { id != other.id }
    predicate Less(other: Entity) { id < other.id }

    function GetName(): (name: string)
      reads em
      ensures em == null ==> name == ""
      ensures em != null && id in em.entities ==> name == em.entities[id].name
      ensures em != null && id !in em.entities ==> name == ""
    {
      if em != null then em.GetEntityName(id) else ""
    }

    function IsActive(): (b: bool)
      reads em
      ensures b <==> em != null && id in em.entities && em.entities[id].active
    {
      em != null && em.IsEntityActive(id)
    }

    method SetName(name: string)
      requires em != null ==> em.Valid()
      modifies em
      ensures em != null ==> em.Valid()
      ensures em != null && id in old(em.entities) ==> em.entities == old(em.entities)[id := old(em.entities)[id].(name := name)]
      ensures em != null && id !in old(em.entities) ==> em.entities == old(em.entities)
    {
      if em != null {
        em.SetEntityName(id, name);
      }
    }

    method SetActive(active: bool)
      requires em != null ==> em.Valid()
      modifies em
      ensures em != null ==> em.Valid()
      ensures em != null && id in old(em.entities) ==> em.entities == old(em.entities)[id := old(em.entities)[id].(active := active)]
      ensures em != null && id !in old(em.entities) ==> em.entities == old(em.entities)
    {
      if em != null {
        em.SetEntityActive(id, active);
      }
    }

    /** AddComponent<T>: None, and nothing changes, on an invalid handle or without a component manager. */
    method AddComponent(t: TypeName, c: Component) returns (r: Option<Component>)
      requires IsValid() && cm != null ==> !cm.HasComponent(t, id)
      modifies cm
      ensures !(old(IsValid()) && cm != null) ==> r.None?
      ensures cm != null && !old(IsValid()) ==> cm.pools == old(cm.pools) && cm.hooks == old(cm.hooks)
      ensures old(IsValid()) && cm != null ==> r == Some(c) && cm.HasComponent(t, id)
      ensures old(IsValid()) && cm != null ==> cm.pools == old(cm.pools)[t := CM.PoolOf(old(cm.pools), t)[id := c]]
      ensures old(IsValid()) && cm != null ==> cm.hooks == old(cm.hooks) + [CM.OnCreate(t, id)]
    {
      if !IsValid() || cm == null {
        return None;
      }
      var added := cm.AddComponent(t, id, c);
      r := Some(added);
    }

    /** GetComponent<T>: None on an invalid handle, without a component manager, or when absent. */
    method GetComponent(t: TypeName) returns (r: Option<Component>)
      modifies cm
      ensures r.None? <==> !(old(IsValid()) && cm != null && old(cm.HasComponent(t, id)))
      ensures r.Some? ==> cm != null && r.value == old(cm.pools)[t][id]
      ensures cm != null ==> cm.pools == if old(IsValid()) then old(cm.pools)[t := CM.PoolOf(old(cm.pools), t)] else old(cm.pools)
      ensures cm != null ==> cm.hooks == old(cm.hooks)
      ensures cm != null ==> forall u, e :: CM.Has(cm.pools, u, e) <==> CM.Has(old(cm.pools), u, e)
    {
      if !IsValid() || cm == null {
        return None;
      }
      r := cm.GetComponent(t, id);
    }

    predicate HasComponent(t: TypeName)
      reads em, cm
    {
      IsValid() && cm != null && cm.HasComponent(t, id)
    }

    method RemoveComponent(t: TypeName)
      modifies cm
      ensures cm != null && old(IsValid()) ==> cm.pools == old(cm.pools)[t := CM.PoolOf(old(cm.pools), t) - {id}]
      ensures cm != null && old(IsValid()) ==>
                cm.hooks == old(cm.hooks) + (if CM.Has(old(cm.pools), t, id) then [CM.OnDestroy(t, id)] else [])
      ensures cm != null && !old(IsValid()) ==> cm.pools == old(cm.pools) && cm.hooks == old(cm.hooks)
    {
      if IsValid() && cm != null {
        cm.RemoveComponent(t, id);
      }
    }

    /** GetParent: a handle on the same managers for a non-zero parent id, else the default handle. */
    function GetParent(): (p: Entity)
      reads em
      ensures IsValid() && em.entities[id].parent != EM.INVALID_ENTITY_ID ==>
                p == Entity(em.entities[id].parent, em, cm)
      ensures !IsValid() || em.entities[id].parent == EM.INVALID_ENTITY_ID ==> p == Invalid()
    {
      if !IsValid() then Invalid()
      else
        var parentID := em.GetParent(id);
        if parentID != EM.INVALID_ENTITY_ID then Entity(parentID, em, cm) else Invalid()
    }

    /** SetParent(Entity): only when both handles are valid. */
    method SetParent(parent: Entity)
      requires em != null ==> em.Valid()
      modifies em
      ensures em != null ==> em.Valid()
      ensures old(IsValid()) && old(parent.IsValid()) ==> em.entities == EM.SetParentOf(old(em.entities), id, parent.id)
      ensures !(old(IsValid()) && old(parent.IsValid())) && em != null ==> em.entities == old(em.entities)
    {
      if IsValid() && em != null && parent.IsValid() {
        em.SetParent(id, parent.GetID());
      }
    }

    /** SetParent(EntityID): only when this handle is valid; the id itself is not checked. */
    method SetParentId(parentID: EntityID)
      requires em != null ==> em.Valid()
      modifies em
      ensures em != null ==> em.Valid()
      ensures old(IsValid()) ==> em.entities == EM.SetParentOf(old(em.entities), id, parentID)
      ensures !old(IsValid()) && em != null ==> em.entities == old(em.entities)
    {
      if IsValid() && em != null {
        em.SetParent(id, parentID);
      }
    }

    function GetID(): (r: EntityID)
      ensures r == id
    {
      id
    }

    /** GetChildren: one handle on the same managers per listed child, in list order. */
    method GetChildren() returns (children: seq<Entity>)
      ensures !IsValid() ==> children == []
      ensures IsValid() ==> |children| == |em.entities[id].children|
      ensures IsValid() ==> forall i | 0 <= i < |children| :: children[i] == Entity(em.entities[id].children[i], em, cm)
    {
      children := [];
      if !IsValid() || em == null {
        return;
      }
      var childIDs := em.GetChildren(id);
      var i := 0;
      while i < |childIDs|
        invariant 0 <= i <= |childIDs|
        invariant |children| == i
        invariant forall j | 0 <= j < i :: children[j] == Entity(childIDs[j], em, cm)
      {
        children := children + [Entity(childIDs[i], em, cm)];
        i := i + 1;
      }
    }

    /** AddChild: makes this the child's parent when the child is valid (SetParent then checks this). */
    method AddChild(child: Entity)
      requires child.em != null ==> child.em.Valid()
      modifies child.em
      ensures child.em != null ==> child.em.Valid()
      ensures old(child.IsValid()) && old(IsValid()) ==> child.em.entities == EM.SetParentOf(old(child.em.entities), child.id, id)
      ensures !(old(child.IsValid()) && old(IsValid())) && child.em != null ==> child.em.entities == old(child.em.entities)
    {
      if child.IsValid() {
        child.SetParent(this);
      }
    }

    /** RemoveChild: detaches the child only when its parent handle compares equal to this one. */
    method RemoveChild(child: Entity)
      requires child.em != null ==> child.em.Valid()
      modifies child.em
      ensures child.em != null ==> child.em.Valid()
      ensures old(child.IsValid()) && old(child.GetParent()).Equals(this) ==>
                child.em.entities == EM.SetParentOf(old(child.em.entities), child.id, EM.INVALID_ENTITY_ID)
      ensures !(old(child.IsValid()) && old(child.GetParent()).Equals(this)) && child.em != null ==>
                child.em.entities == old(child.em.entities)
    {
      if child.IsValid() && child.GetParent().Equals(this) {
        child.SetParentId(EM.INVALID_ENTITY_ID);
      }
    }

    /** Destroy: destroys the entity and its subtree and returns the handle with id 0; an invalid
        handle is returned as is. */
    method Destroy() returns (after: Entity)
      requires em != null ==> em.Valid()
      modifies if em != null then {em, em.components} else {}
      ensures em != null ==> em.Valid()
      ensures old(IsValid()) ==> after == this.(id := EM.INVALID_ENTITY_ID) && !em.IsValid(id)
      ensures old(IsValid()) ==> EM.Destroyed(old(em.entities), em.entities) == EM.Subtree(old(em.entities), id)
      ensures em != null ==> EM.TornDown(old(em.entities), old(em.availableIDs), old(em.components.pools), old(em.components.hooks),
                                         em.entities, em.availableIDs, em.components.pools, em.components.hooks)
      ensures old(IsValid()) ==> em.entities == EM.TearDownOf(old(em.entities), id).ents &&
                                 em.availableIDs == old(em.availableIDs) + EM.TearDownOf(old(em.entities), id).queued
      ensures !old(IsValid()) ==> after == this
      ensures !old(IsValid()) && em != null ==> em.entities == old(em.entities) && em.availableIDs == old(em.availableIDs)
    {
      after := this;
      if IsValid() && em != null {
        em.DestroyEntity(id);
        after := this.(id := EM.INVALID_ENTITY_ID);
      } else if em != null {
        EM.TornDownNone(em.entities, em.availableIDs, em.components.pools, em.components.hooks);
      }
    }
  }

  /** Entity::Invalid(), also the default-constructed handle. */
  function Invalid(): (e: Entity)
    ensures e.id == EM.INVALID_ENTITY_ID && !e.IsValid()
  {
    Entity(EM.INVALID_ENTITY_ID, null, null)
  }

  /** The comparisons see only ids: handles on different managers with one id are equal, and
      == / != / < behave as on the ids, so < is a strict total order up to ==. */
  lemma ComparisonsUseIds(a: Entity, b: Entity, c: Entity)
    ensures a.Equals(b) <==> a.id == b.id
    ensures a.NotEquals(b) <==> !a.Equals(b)
    ensures a.Less(b) ==> !b.Less(a) && !a.Equals(b)
    ensures a.Less(b) && b.Less(c) ==> a.Less(c)
    ensures a.Less(b) || b.Less(a) || a.Equals(b)
    ensures a.Equals(a.(em := null, cm := null))
  {
  }

  /** A valid handle names a live entity of its manager. */
  lemma ValidHandleIsLive(e: Entity)
    requires e.IsValid()
    ensures e.em != null && e.id in e.em.entities && e.id != EM.INVALID_ENTITY_ID
  {
  }
}
