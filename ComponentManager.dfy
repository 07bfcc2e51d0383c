// Component pools and the component manager. One pool per component type maps
// an entity id to that entity's component of the type; pools are created on
// first use. std::unordered_map iteration order is unspecified, so every loop
// over a map picks its next key arbitrarily. Pools are keyed by the type's
// name, which stands for its ComponentTypeID (GetID is injective, see
// Components.AssignIdKeepsIdsFresh). The virtual OnCreate/OnDestroy/OnUpdate
// hooks are recorded in a log instead of being run.

module ComponentManager {
  import opened Base
  import opened Components

  type EntityID = u32
  type Pool = map<EntityID, Component>
  type Pools = map<TypeName, Pool>

  /** A call of one of a component's lifecycle hooks. */
  datatype Hook =
    | OnCreate(typeName: TypeName, entity: EntityID)
    | OnDestroy(typeName: TypeName, entity: EntityID)
    | OnUpdate(typeName: TypeName, entity: EntityID, deltaTime: real)

  /** The pool for `t`, or an empty one when it has not been created. */
  function PoolOf(pools: Pools, t: TypeName): Pool
  {
    if t in pools then pools[t] else map[]
  }

  /** Entity `e` has a component of type `t`. */
  predicate Has(pools: Pools, t: TypeName, e: EntityID)
  {
    t in pools && e in pools[t]
  }

  /** Every pool with the entities in `gone` removed. */
  function WithoutEntities(pools: Pools, gone: set<EntityID>): (r: Pools)
    ensures r.Keys == pools.Keys
    ensures forall t, e :: Has(r, t, e) <==> Has(pools, t, e) && e !in gone
    ensures forall t, e | Has(r, t, e) :: Has(pools, t, e) && r[t][e] == pools[t][e]
  {
    map t | t in pools :: pools[t] - gone
  }

  /** One pool of WithoutEntities is that pool without the entities. */
  lemma PoolOfWithout(pools: Pools, gone: set<EntityID>, t: TypeName)
    ensures PoolOf(WithoutEntities(pools, gone), t) == PoolOf(pools, t) - gone
  {
  }

  /** Removing two sets of entities one after the other removes their union. */
  lemma WithoutEntitiesTwice(pools: Pools, a: set<EntityID>, b: set<EntityID>)
    ensures WithoutEntities(WithoutEntities(pools, a), b) == WithoutEntities(pools, a + b)
  {
    var l := WithoutEntities(WithoutEntities(pools, a), b);
    var r := WithoutEntities(pools, a + b);
    forall t | t in l
      ensures l[t] == r[t]
    {
      assert l[t] == pools[t] - a - b;
    }
  }

  lemma WithoutNoEntities(pools: Pools)
    ensures WithoutEntities(pools, {}) == pools
  {
    var r := WithoutEntities(pools, {});
    forall t | t in r
      ensures r[t] == pools[t]
    {
      assert pools[t] - {} == pools[t];
    }
  }

  /** The component of type `t` of entity `e`, if any: what GetComponent returns. */
  function Lookup(pools: Pools, t: TypeName, e: EntityID): (r: Option<Component>)
    ensures r.Some? <==> Has(pools, t, e)
    ensures r.Some? ==> r.value == pools[t][e]
  {
    if Has(pools, t, e) then Some(pools[t][e]) else None
  }

  /** Two pool tables that hold the same components; they may differ in empty pools. */
  ghost predicate SameContents(a: Pools, b: Pools)
  {
    forall t :: PoolOf(a, t) == PoolOf(b, t)
  }

  /** Tables with the same contents answer every lookup alike. */
  lemma SameContentsLookups(a: Pools, b: Pools)
    requires SameContents(a, b)
    ensures forall t, e :: Lookup(a, t, e) == Lookup(b, t, e)
  {
    forall t, e
      ensures Lookup(a, t, e) == Lookup(b, t, e)
    {
      assert PoolOf(a, t) == PoolOf(b, t);
    }
  }

  /** The pools of a possibly null manager: none at all when it is null. */
  function PoolsOf(cm: ComponentManager?): (p: Pools)
    reads cm
    ensures cm != null ==> p == cm.pools
    ensures cm == null ==> p == map[]
  {
    if cm == null then map[] else cm.pools
  }

  /** The OnUpdate calls made on the components of `t` for `entities`, in that order. */
  function UpdateHooks(t: TypeName, entities: seq<EntityID>, dt: real): (r: seq<Hook>)
    ensures |r| == |entities|
    ensures forall i | 0 <= i < |r| :: r[i] == OnUpdate(t, entities[i], dt)
  {
    if entities == [] then []
    else UpdateHooks(t, entities[..|entities| - 1], dt) + [OnUpdate(t, entities[|entities| - 1], dt)]
  }

  class ComponentManager {
    var pools: Pools
    var hooks: seq<Hook>

    constructor()
      ensures pools == map[] && hooks == []
    {
      pools := map[];
      hooks := [];
    }

    /** HasComponent<T>: false, and no pool created, when T has no pool yet. */
    predicate HasComponent(t: TypeName, e: EntityID)
      reads `pools
    {
      Has(pools, t, e)
    }

    /** GetPool<T>: creates an empty pool for `t` when there is none. */
    method GetPool(t: TypeName)
      modifies `pools
      ensures pools == old(pools)[t := PoolOf(old(pools), t)]
    {
      if t !in pools {
        pools := pools[t := map[]];
      }
    }

    /** AddComponent<T>: the pool must not hold a component for `e` yet. */
    method AddComponent(t: TypeName, e: EntityID, c: Component) returns (r: Component)
      requires !HasComponent(t, e)
      modifies `pools, `hooks
      ensures pools == old(pools)[t := PoolOf(old(pools), t)[e := c]]
      ensures hooks == old(hooks) + [OnCreate(t, e)]
      ensures HasComponent(t, e) && pools[t][e] == r && r == c
    {
      GetPool(t);
      pools := pools[t := PoolOf(pools, t)[e := c]];
      hooks := hooks + [OnCreate(t, e)];
      r := c;
    }

    /** RemoveComponent<T>: destroys `e`'s component of type `t`, if any. */
    method RemoveComponent(t: TypeName, e: EntityID)
      modifies `pools, `hooks
      ensures pools == old(pools)[t := PoolOf(old(pools), t) - {e}]
      ensures hooks == old(hooks) + (if old(HasComponent(t, e)) then [OnDestroy(t, e)] else [])
      ensures !HasComponent(t, e)
    {
      GetPool(t);
      if e in pools[t] {
        hooks := hooks + [OnDestroy(t, e)];
        pools := pools[t := pools[t] - {e}];
      } else {
        assert pools[t] - {e} == pools[t];
      }
    }

    /** GetComponent<T>: the component, or None exactly when `e` has none of type `t`. */
    method GetComponent(t: TypeName, e: EntityID) returns (r: Option<Component>)
      modifies `pools
      ensures pools == old(pools)[t := PoolOf(old(pools), t)]
      ensures r.None? <==> !old(HasComponent(t, e))
      ensures r.Some? ==> HasComponent(t, e) && r.value == pools[t][e]
    {
      GetPool(t);
      if e in pools[t] {
        r := Some(pools[t][e]);
      } else {
        r := None;
      }
    }

    /** A write through the component GetComponent returned. */
    method ReplaceComponent(t: TypeName, e: EntityID, c: Component)
      requires HasComponent(t, e)
      modifies `pools
      ensures pools == old(pools)[t := PoolOf(old(pools), t)[e := c]]
    {
      pools := pools[t := PoolOf(pools, t)[e := c]];
    }

    /** RemoveAllComponents: `e` leaves every pool, one OnDestroy per component it had. */
    method RemoveAllComponents(e: EntityID)
      modifies `pools, `hooks
      ensures pools == WithoutEntities(old(pools), {e})
      ensures |hooks| >= |old(hooks)| && hooks[..|old(hooks)|] == old(hooks)
      ensures forall h | h in hooks[|old(hooks)|..] :: h.OnDestroy? && h.entity == e && Has(old(pools), h.typeName, e)
      ensures forall t | Has(old(pools), t, e) :: OnDestroy(t, e) in hooks[|old(hooks)|..]
      ensures NoDup(hooks[|old(hooks)|..])
    {
      var types := pools.Keys;
      ghost var added: seq<Hook> := [];
      while types != {}
        invariant RemovingAll(e, types, added, old(pools), old(hooks))
        decreases types
      {
        var t :| t in types;
        added := RemoveTypeOf(e, t, types, added, old(pools), old(hooks));
        types := types - {t};
      }
      assert hooks[|old(hooks)|..] == added;
      assert pools == WithoutEntities(old(pools), {e});
    }

    /** RemoveAllComponents' loop has removed `e` from every pool but those of `types`, logging
        one OnDestroy, in `added`, for each component it took. */
    ghost predicate RemovingAll(e: EntityID, types: set<TypeName>, added: seq<Hook>, P0: Pools, H0: seq<Hook>)
      reads `pools, `hooks
    {
      && types <= pools.Keys == P0.Keys
      && (forall t | t in pools :: pools[t] == if t in types then P0[t] else P0[t] - {e})
      && hooks == H0 + added
      && (forall h | h in added :: h.OnDestroy? && h.entity == e && h.typeName !in types && Has(P0, h.typeName, e))
      && (forall t | t !in types && Has(P0, t, e) :: OnDestroy(t, e) in added)
      && NoDup(added)
    }

    /** One iteration of RemoveAllComponents' loop: the pool of type `t`. */
    method RemoveTypeOf(e: EntityID, t: TypeName, ghost types: set<TypeName>, ghost added0: seq<Hook>,
                        ghost P0: Pools, ghost H0: seq<Hook>) returns (ghost added: seq<Hook>)
      requires t in types && RemovingAll(e, types, added0, P0, H0)
      modifies `pools, `hooks
      ensures RemovingAll(e, types - {t}, added, P0, H0)
    {
      ghost var had := HasComponent(t, e);
      assert had == Has(P0, t, e);
      RemoveComponent(t, e);
      if had {
        assert OnDestroy(t, e) !in added0;
        added := added0 + [OnDestroy(t, e)];
      } else {
        added := added0;
      }
    }

    /** ComponentPool::UpdateComponents: OnUpdate on each enabled component of type `t`, once. */
    method UpdateComponents(t: TypeName, dt: real) returns (updated: seq<EntityID>)
      modifies `hooks
      ensures hooks == old(hooks) + UpdateHooks(t, updated, dt)
      ensures NoDup(updated)
      ensures forall e :: e in updated <==> e in PoolOf(pools, t) && PoolOf(pools, t)[e].IsEnabled()
    {
      var pool := PoolOf(pools, t);
      var keys := pool.Keys;
      updated := [];
      while keys != {}
        invariant keys <= pool.Keys
        invariant hooks == old(hooks) + UpdateHooks(t, updated, dt)
        invariant NoDup(updated)
        invariant forall e :: e in updated <==> e in pool && e !in keys && pool[e].IsEnabled()
        decreases keys
      {
        var e :| e in keys;
        if pool[e].IsEnabled() {
          ghost var prev := updated;
          hooks := hooks + [OnUpdate(t, e, dt)];
          updated := updated + [e];
          assert updated[..|updated| - 1] == prev;
        }
        keys := keys - {e};
      }
    }
  }
}
