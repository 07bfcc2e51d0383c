// The selection and filter rules of the common systems. Each system holds the
// ECSSystem manager references (either may be null) and reads components through
// them. The pools are keyed by type name; a component whose data is not of its
// pool's class is passed over where the source would touch its fields. Matrix,
// physics and playback work is not modelled: the render queue keeps entity and
// layer, the camera system the chosen entity, the audio system a log of
// PlayAudio calls.

module CommonSystems {
  import opened Base
  import opened Components
  import CM = ComponentManager
  import EM = EntityManager
  import opened Systems

  // ---------------------------------------------------------------- RenderSystem

  /** RenderData without the matrix and the component reference. */
  datatype RenderData = RenderData(entityID: EntityID, layer: int)

  /** The queue entry for `e`: it needs a Transform and a visible Renderable, and takes its layer. */
  function RenderEntryOf(pools: CM.Pools, e: EntityID): (r: Option<RenderData>)
    ensures r.Some? <==> CM.Has(pools, TransformType, e) && CM.Has(pools, RenderableType, e)
                         && pools[RenderableType][e].data.Renderable? && pools[RenderableType][e].data.visible
    ensures r.Some? ==> r.value == RenderData(e, pools[RenderableType][e].data.renderLayer)
  {
    var transform := CM.Lookup(pools, TransformType, e);
    var renderable := CM.Lookup(pools, RenderableType, e);
    if transform.Some? && renderable.Some? && renderable.value.data.Renderable? && renderable.value.data.visible
    then Some(RenderData(e, renderable.value.data.renderLayer))
    else None
  }

  /** The queue built from `es`, in that order, before sorting. */
  function RenderEntries(pools: CM.Pools, es: seq<EntityID>): (r: seq<RenderData>)
    ensures |r| <= |es|
  {
    if es == [] then []
    else
      var e := es[|es| - 1];
      RenderEntries(pools, es[..|es| - 1]) + (if RenderEntryOf(pools, e).Some? then [RenderEntryOf(pools, e).value] else [])
  }

  /** Over distinct entities, the queue holds each entity's entry exactly once and nothing else. */
  lemma {:induction false} RenderEntriesCount(pools: CM.Pools, es: seq<EntityID>, d: RenderData)
    requires NoDup(es)
    ensures multiset(RenderEntries(pools, es))[d] == if d.entityID in es && RenderEntryOf(pools, d.entityID) == Some(d) then 1 else 0
  {
    if es != [] {
      var init := es[..|es| - 1];
      var e := es[|es| - 1];
      assert NoDup(init);
      RenderEntriesCount(pools, init, d);
      assert e !in init;
      assert d.entityID in es <==> d.entityID in init || d.entityID == e;
    }
  }

  /** The render queue order: non-decreasing layers. */
  predicate SortedByLayer(q: seq<RenderData>)
  {
    forall i, j | 0 <= i < j < |q| :: q[i].layer <= q[j].layer
  }

  /** Inserting one entry before the first entry with a layer not below it. */
  function InsertByLayer(q: seq<RenderData>, d: RenderData): (r: seq<RenderData>)
    ensures |r| == |q| + 1
  {
    if q == [] then [d]
    else if d.layer <= q[0].layer then [d] + q
    else [q[0]] + InsertByLayer(q[1..], d)
  }

  /** Insertion adds exactly the one entry. */
  lemma {:induction false} InsertByLayerAdds(q: seq<RenderData>, d: RenderData)
    ensures multiset(InsertByLayer(q, d)) == multiset(q) + multiset{d}
  {
    if q != [] && d.layer > q[0].layer {
      InsertByLayerAdds(q[1..], d);
      assert q == [q[0]] + q[1..];
    }
  }

  /** An entry placed ahead of a sorted queue whose entries all have a layer not below it. */
  lemma ConsSorted(x: RenderData, rest: seq<RenderData>)
    requires SortedByLayer(rest)
    requires forall y | y in rest :: x.layer <= y.layer
    ensures SortedByLayer([x] + rest)
  {
    var r := [x] + rest;
    forall i, j | 0 <= i < j < |r|
      ensures r[i].layer <= r[j].layer
    {
      assert r[j] == rest[j - 1];
      if i > 0 {
        assert r[i] == rest[i - 1];
      }
    }
  }

  /** Insertion into a sorted queue keeps it sorted. */
  lemma {:induction false} InsertByLayerSorts(q: seq<RenderData>, d: RenderData)
    requires SortedByLayer(q)
    ensures SortedByLayer(InsertByLayer(q, d))
  {
    if q == [] {
    } else if d.layer <= q[0].layer {
      ConsSorted(d, q);
    } else {
      var rest := InsertByLayer(q[1..], d);
      InsertByLayerSorts(q[1..], d);
      InsertByLayerAdds(q[1..], d);
      forall x | x in rest
        ensures q[0].layer <= x.layer
      {
        assert x in multiset(rest);
        if x != d {
          assert x in multiset(q[1..]);
          var k :| 0 <= k < |q[1..]| && q[1..][k] == x;
          assert q[k + 1] == x;
        }
      }
      ConsSorted(q[0], rest);
    }
  }

  /** std::sort by layer: the result is sorted and a permutation; equal layers may come in any order. */
  method SortByLayer(q: seq<RenderData>) returns (r: seq<RenderData>)
    ensures SortedByLayer(r)
    ensures multiset(r) == multiset(q)
  {
    r := [];
    var i := 0;
    while i < |q|
      invariant 0 <= i <= |q|
      invariant SortedByLayer(r)
      invariant multiset(r) == multiset(q[..i])
    {
      assert q[..i + 1] == q[..i] + [q[i]];
      InsertByLayerSorts(r, q[i]);
      InsertByLayerAdds(r, q[i]);
      r := InsertByLayer(r, q[i]);
      i := i + 1;
    }
    assert q[..i] == q;
  }

  class RenderSystem {
    var em: EM.EntityManager?
    var cm: CM.ComponentManager?
    var renderQueue: seq<RenderData>

    constructor()
      ensures em == null && cm == null && renderQueue == []
    {
      em := null;
      cm := null;
      renderQueue := [];
    }

    /** Update: rebuild the queue from the entities with a Transform and a Renderable, keep the visible
        ones, and sort by layer. Each such entity appears once, with its layer. */
    method Update(dt: real)
      modifies this`renderQueue, cm
      ensures SortedByLayer(renderQueue)
      ensures forall d :: multiset(renderQueue)[d] ==
                if em != null && EM.Selected(old(em.entities), old(em.components.pools), [TransformType, RenderableType], d.entityID)
                   && RenderEntryOf(old(CM.PoolsOf(cm)), d.entityID) == Some(d)
                then 1 else 0
      ensures CM.SameContents(old(CM.PoolsOf(cm)), CM.PoolsOf(cm))
      ensures cm != null ==> cm.hooks == old(cm.hooks)
    {
      renderQueue := [];
      var entities := EcsGetEntitiesWith(em, [TransformType, RenderableType]);
      ghost var P0 := CM.PoolsOf(cm);
      var entries := CollectEntries(entities);
      renderQueue := SortByLayer(entries);
      forall d
        ensures multiset(renderQueue)[d] ==
                  if em != null && EM.Selected(old(em.entities), old(em.components.pools), [TransformType, RenderableType], d.entityID)
                     && RenderEntryOf(P0, d.entityID) == Some(d)
                  then 1 else 0
      {
        RenderEntriesCount(P0, entities, d);
      }
    }

    /** The queue loop of Update: one entry per entity that passes the visibility test, in order. */
    method CollectEntries(entities: seq<EntityID>) returns (q: seq<RenderData>)
      modifies cm
      ensures q == RenderEntries(old(CM.PoolsOf(cm)), entities)
      ensures CM.SameContents(old(CM.PoolsOf(cm)), CM.PoolsOf(cm))
      ensures cm != null ==> cm.hooks == old(cm.hooks)
    {
      ghost var P0 := CM.PoolsOf(cm);
      q := [];
      var i := 0;
      while i < |entities|
        invariant 0 <= i <= |entities|
        invariant q == RenderEntries(P0, entities[..i])
        invariant CM.SameContents(P0, CM.PoolsOf(cm))
        invariant cm != null ==> cm.hooks == old(cm.hooks)
      {
        var entry := EntryFor(entities[i], P0);
        assert entities[..i + 1][..i] == entities[..i];
        if entry.Some? {
          q := q + [entry.value];
        }
        i := i + 1;
      }
      assert entities[..i] == entities;
    }

    /** One iteration of the queue loop: the Transform and Renderable lookups and the visibility test. */
    method EntryFor(e: EntityID, ghost P0: CM.Pools) returns (r: Option<RenderData>)
      requires CM.SameContents(P0, CM.PoolsOf(cm))
      modifies cm
      ensures r == RenderEntryOf(P0, e)
      ensures CM.SameContents(P0, CM.PoolsOf(cm))
      ensures cm != null ==> cm.hooks == old(cm.hooks)
    {
      CM.SameContentsLookups(P0, CM.PoolsOf(cm));
      var transform := EcsGetComponent(cm, TransformType, e);
      CM.SameContentsLookups(P0, CM.PoolsOf(cm));
      var renderable := EcsGetComponent(cm, RenderableType, e);
      if transform.Some? && renderable.Some? && renderable.value.data.Renderable? && renderable.value.data.visible {
        r := Some(RenderData(e, renderable.value.data.renderLayer));
      } else {
        r := None;
      }
    }

    function GetRenderQueue(): (q: seq<RenderData>)
      reads this
      ensures q == renderQueue
    {
      renderQueue
    }
  }

  // ---------------------------------------------------------------- CameraSystem

  /** `e` has a camera component flagged primary. */
  predicate IsPrimaryIn(pools: CM.Pools, e: EntityID)
  {
    CM.Has(pools, CameraType, e) && pools[CameraType][e].data.Camera? && pools[CameraType][e].data.isPrimary
  }

  /** The pools after setting `e`'s camera flag, when `e` has a camera component. */
  function Promote(pools: CM.Pools, e: EntityID): (r: CM.Pools)
    ensures CM.Has(pools, CameraType, e) && pools[CameraType][e].data.Camera? ==> IsPrimaryIn(r, e)
    ensures forall t | t != CameraType :: CM.PoolOf(r, t) == CM.PoolOf(pools, t)
    ensures forall x | x != e :: CM.Lookup(r, CameraType, x) == CM.Lookup(pools, CameraType, x)
  {
    if CM.Has(pools, CameraType, e) && pools[CameraType][e].data.Camera?
    then
      var c := pools[CameraType][e];
      pools[CameraType := pools[CameraType][e := c.(data := c.data.(isPrimary := true))]]
    else pools
  }

  /** Promoting in pools with the same contents gives pools with the same contents. */
  lemma PromoteSameContents(p0: CM.Pools, p1: CM.Pools, e: EntityID)
    requires CM.Has(p0, CameraType, e) && p0[CameraType][e].data.Camera?
    requires forall t | t != CameraType :: CM.PoolOf(p0, t) == CM.PoolOf(p1, t)
    requires CM.PoolOf(p1, CameraType) == CM.PoolOf(p0, CameraType)[e := p0[CameraType][e].(data := p0[CameraType][e].data.(isPrimary := true))]
    ensures CM.SameContents(Promote(p0, e), p1)
  {
  }

  class CameraSystem {
    var em: EM.EntityManager?
    var cm: CM.ComponentManager?
    var primaryCamera: EntityID

    constructor()
      ensures em == null && cm == null && primaryCamera == EM.INVALID_ENTITY_ID
    {
      em := null;
      cm := null;
      primaryCamera := EM.INVALID_ENTITY_ID;
    }

    /** Update: the first camera entity flagged primary; failing that the first camera entity, whose
        flag is then set; INVALID_ENTITY_ID when there is no camera entity. */
    method Update(dt: real)
      requires em != null ==> EM.INVALID_ENTITY_ID !in em.entities
      modifies this`primaryCamera, cm
      ensures primaryCamera == EM.INVALID_ENTITY_ID <==>
                em == null || forall e :: !EM.Selected(old(em.entities), old(em.components.pools), [TransformType, CameraType], e)
      ensures primaryCamera != EM.INVALID_ENTITY_ID ==>
                em != null && EM.Selected(old(em.entities), old(em.components.pools), [TransformType, CameraType], primaryCamera)
      ensures em != null && (exists e :: EM.Selected(old(em.entities), old(em.components.pools), [TransformType, CameraType], e)
                                         && IsPrimaryIn(old(CM.PoolsOf(cm)), e)) ==>
                IsPrimaryIn(old(CM.PoolsOf(cm)), primaryCamera) && CM.SameContents(old(CM.PoolsOf(cm)), CM.PoolsOf(cm))
      ensures primaryCamera != EM.INVALID_ENTITY_ID && !IsPrimaryIn(old(CM.PoolsOf(cm)), primaryCamera) ==>
                CM.SameContents(Promote(old(CM.PoolsOf(cm)), primaryCamera), CM.PoolsOf(cm))
      ensures primaryCamera == EM.INVALID_ENTITY_ID ==> CM.SameContents(old(CM.PoolsOf(cm)), CM.PoolsOf(cm))
      ensures cm != null ==> cm.hooks == old(cm.hooks)
    {
      var cameraEntities := EcsGetEntitiesWith(em, [TransformType, CameraType]);
      ghost var P0 := CM.PoolsOf(cm);
      var newPrimary := EM.INVALID_ENTITY_ID;
      var i := 0;
      while i < |cameraEntities|
        invariant 0 <= i <= |cameraEntities|
        invariant newPrimary == EM.INVALID_ENTITY_ID
        invariant forall j | 0 <= j < i :: !IsPrimaryIn(P0, cameraEntities[j])
        invariant CM.SameContents(P0, CM.PoolsOf(cm))
        invariant cm != null ==> cm.hooks == old(cm.hooks)
      {
        var primary := IsPrimaryCamera(cameraEntities[i], P0);
        if primary {
          assert cameraEntities[i] in cameraEntities;
          newPrimary := cameraEntities[i];
          break;
        }
        i := i + 1;
      }
      assert newPrimary != EM.INVALID_ENTITY_ID ==> newPrimary in cameraEntities && IsPrimaryIn(P0, newPrimary);
      assert newPrimary == EM.INVALID_ENTITY_ID ==> forall e | e in cameraEntities :: !IsPrimaryIn(P0, e);
      if newPrimary == EM.INVALID_ENTITY_ID && cameraEntities != [] {
        newPrimary := cameraEntities[0];
        assert newPrimary in cameraEntities;
        CM.SameContentsLookups(P0, CM.PoolsOf(cm));
        ghost var P1 := CM.PoolsOf(cm);
        var camera := EcsGetComponent(cm, CameraType, newPrimary);
        if camera.Some? && camera.value.data.Camera? {
          assert newPrimary in CM.PoolOf(cm.pools, CameraType);
          cm.ReplaceComponent(CameraType, newPrimary, camera.value.(data := camera.value.data.(isPrimary := true)));
          PromoteSameContents(P0, CM.PoolsOf(cm), newPrimary);
        }
      }
      primaryCamera := newPrimary;
    }

    /** One iteration of the search: the entity's camera component is flagged primary. */
    method IsPrimaryCamera(e: EntityID, ghost P0: CM.Pools) returns (b: bool)
      requires CM.SameContents(P0, CM.PoolsOf(cm))
      modifies cm
      ensures b == IsPrimaryIn(P0, e)
      ensures CM.SameContents(P0, CM.PoolsOf(cm))
      ensures cm != null ==> cm.hooks == old(cm.hooks)
    {
      CM.SameContentsLookups(P0, CM.PoolsOf(cm));
      var camera := EcsGetComponent(cm, CameraType, e);
      b := camera.Some? && camera.value.data.Camera? && camera.value.data.isPrimary;
    }

    function GetPrimaryCameraEntity(): (e: EntityID)
      reads this
      ensures e == primaryCamera
    {
      primaryCamera
    }
  }

  // ---------------------------------------------------------------- AudioSystem

  /** `e`'s audio component asks to be played on creation. */
  predicate WantsPlay(pools: CM.Pools, e: EntityID)
  {
    CM.Has(pools, AudioType, e) && pools[AudioType][e].data.Audio? && pools[AudioType][e].data.playOnCreate
  }

  /** An audio component with playOnCreate cleared. */
  function Quiet(c: Component): (r: Component)
    ensures r.enabled == c.enabled
    ensures c.data.Audio? ==> r.data == c.data.(playOnCreate := false)
    ensures !c.data.Audio? ==> r == c
  {
    if c.data.Audio? then c.(data := c.data.(playOnCreate := false)) else c
  }

  /** The audio pool after the entities in `done` have been processed: none of them asks to play any more. */
  function Quieted(pool: CM.Pool, done: set<EntityID>): (r: CM.Pool)
    ensures r.Keys == pool.Keys
    ensures forall e | e in r && e in done :: !(r[e].data.Audio? && r[e].data.playOnCreate)
    ensures forall e | e in r && e !in done :: r[e] == pool[e]
  {
    map e | e in pool :: if e in done then Quiet(pool[e]) else pool[e]
  }

  /** The PlayAudio calls for `es`, in order. */
  function Wanting(pools: CM.Pools, es: seq<EntityID>): (r: seq<EntityID>)
    ensures |r| <= |es|
  {
    if es == [] then []
    else Wanting(pools, es[..|es| - 1]) + (if WantsPlay(pools, es[|es| - 1]) then [es[|es| - 1]] else [])
  }

  /** Taking one more entity adds it to the played list when it asks to be played. */
  lemma WantingSnoc(pools: CM.Pools, es: seq<EntityID>, i: nat)
    requires i < |es|
    ensures Wanting(pools, es[..i + 1]) == Wanting(pools, es[..i]) + (if WantsPlay(pools, es[i]) then [es[i]] else [])
  {
    assert es[..i + 1][..i] == es[..i];
  }

  /** Over distinct entities, exactly the ones asking to play are played, each once. */
  lemma {:induction false} WantingExactly(pools: CM.Pools, es: seq<EntityID>)
    requires NoDup(es)
    ensures NoDup(Wanting(pools, es))
    ensures forall e :: e in Wanting(pools, es) <==> e in es && WantsPlay(pools, e)
  {
    if es != [] {
      var init := es[..|es| - 1];
      assert NoDup(init);
      WantingExactly(pools, init);
      assert es == init + [es[|es| - 1]];
    }
  }

  class AudioSystem {
    var em: EM.EntityManager?
    var cm: CM.ComponentManager?
    /** The PlayAudio calls made so far. */
    var played: seq<EntityID>

    constructor()
      ensures em == null && cm == null && played == []
    {
      em := null;
      cm := null;
      played := [];
    }

    /** Update: each entity with an audio component flagged playOnCreate is played once and the flag
        cleared, so a later Update does not play it again. 3-D positioning is not modelled. */
    method Update(dt: real)
      modifies this`played, cm
      ensures old(played) <= played
      ensures NoDup(played[|old(played)|..])
      ensures forall e :: e in played[|old(played)|..] <==>
                em != null && EM.Selected(old(em.entities), old(em.components.pools), [AudioType], e)
                && WantsPlay(old(CM.PoolsOf(cm)), e)
      ensures forall t | t != AudioType :: CM.PoolOf(CM.PoolsOf(cm), t) == CM.PoolOf(old(CM.PoolsOf(cm)), t)
      ensures em != null ==>
                (CM.PoolOf(CM.PoolsOf(cm), AudioType) ==
                 Quieted(CM.PoolOf(old(CM.PoolsOf(cm)), AudioType),
                         set e | e in old(em.entities) && EM.Selected(old(em.entities), old(em.components.pools), [AudioType], e)))
      ensures em == null ==> CM.PoolOf(CM.PoolsOf(cm), AudioType) == CM.PoolOf(old(CM.PoolsOf(cm)), AudioType)
      ensures cm != null ==> cm.hooks == old(cm.hooks)
    {
      var entities := EcsGetEntitiesWith(em, [AudioType]);
      ghost var P0 := CM.PoolsOf(cm);
      ghost var done := PlayAll(entities);
      WantingExactly(P0, entities);
      if em != null {
        assert done == (set e | e in old(em.entities) && EM.Selected(old(em.entities), old(em.components.pools), [AudioType], e));
      }
    }

    /** The loop of Update over the selected entities, in order. */
    method PlayAll(entities: seq<EntityID>) returns (ghost done: set<EntityID>)
      requires NoDup(entities)
      modifies this`played, cm
      ensures forall x :: x in done <==> x in entities
      ensures played == old(played) + Wanting(old(CM.PoolsOf(cm)), entities)
      ensures forall t | t != AudioType :: CM.PoolOf(CM.PoolsOf(cm), t) == CM.PoolOf(old(CM.PoolsOf(cm)), t)
      ensures CM.PoolOf(CM.PoolsOf(cm), AudioType) == Quieted(CM.PoolOf(old(CM.PoolsOf(cm)), AudioType), done)
      ensures cm != null ==> cm.hooks == old(cm.hooks)
    {
      ghost var P0 := CM.PoolsOf(cm);
      ghost var pool0 := CM.PoolOf(P0, AudioType);
      ghost var played0 := played;
      done := {};
      var i := 0;
      while i < |entities|
        invariant 0 <= i <= |entities|
        invariant forall x :: x in done <==> x in entities[..i]
        invariant played == played0 + Wanting(P0, entities[..i])
        invariant forall t | t != AudioType :: CM.PoolOf(CM.PoolsOf(cm), t) == CM.PoolOf(P0, t)
        invariant CM.PoolOf(CM.PoolsOf(cm), AudioType) == Quieted(pool0, done)
        invariant cm != null ==> cm.hooks == old(cm.hooks)
      {
        var e := entities[i];
        assert entities[..i + 1] == entities[..i] + [e];
        WantingSnoc(P0, entities, i);
        AppendAssoc(played0, Wanting(P0, entities[..i]), if WantsPlay(P0, e) then [e] else []);
        assert e !in done by {
          assert forall j | 0 <= j < i :: entities[j] != e;
        }
        PlayOnCreate(e, P0, done);
        done := done + {e};
        i := i + 1;
      }
      assert entities[..i] == entities;
    }

    /** One iteration: play the entity's sound and clear its flag when it asks to be played. */
    method PlayOnCreate(e: EntityID, ghost P0: CM.Pools, ghost done: set<EntityID>)
      requires e !in done
      requires forall t | t != AudioType :: CM.PoolOf(CM.PoolsOf(cm), t) == CM.PoolOf(P0, t)
      requires CM.PoolOf(CM.PoolsOf(cm), AudioType) == Quieted(CM.PoolOf(P0, AudioType), done)
      modifies this`played, cm
      ensures played == old(played) + (if WantsPlay(P0, e) then [e] else [])
      ensures forall t | t != AudioType :: CM.PoolOf(CM.PoolsOf(cm), t) == CM.PoolOf(P0, t)
      ensures CM.PoolOf(CM.PoolsOf(cm), AudioType) == Quieted(CM.PoolOf(P0, AudioType), done + {e})
      ensures cm != null ==> cm.hooks == old(cm.hooks)
    {
      QuietedStep(CM.PoolOf(P0, AudioType), done, e);
      var audio := EcsGetComponent(cm, AudioType, e);
      if audio.None? {
        return;
      }
      if audio.value.data.Audio? && audio.value.data.playOnCreate {
        played := played + [e];
        cm.ReplaceComponent(AudioType, e, Quiet(audio.value));
      }
      if audio.value.data.Audio? && audio.value.data.is3D {
        var transform := EcsGetComponent(cm, TransformType, e);
      }
    }
  }

  /** Processing one more entity changes at most its own entry. */
  lemma QuietedStep(pool: CM.Pool, done: set<EntityID>, e: EntityID)
    requires e !in done
    ensures e in pool ==> Quieted(pool, done + {e}) == Quieted(pool, done)[e := Quiet(pool[e])]
    ensures e in pool && Quiet(pool[e]) == pool[e] ==> Quieted(pool, done + {e}) == Quieted(pool, done)
    ensures e !in pool ==> Quieted(pool, done + {e}) == Quieted(pool, done)
  {
    if e in pool && Quiet(pool[e]) == pool[e] {
      assert Quieted(pool, done)[e := Quiet(pool[e])] == Quieted(pool, done);
    }
  }

  // ---------------------------------------------------------------- LifetimeSystem

  /** A lifetime component after one frame: elapsed grows by the frame time. */
  function Age(c: Component, dt: real): (r: Component)
    ensures c.data.Lifetime? ==> r.data == c.data.(elapsed := c.data.elapsed + dt) && r.enabled == c.enabled
    ensures !c.data.Lifetime? ==> r == c
  {
    if c.data.Lifetime? then c.(data := c.data.(elapsed := c.data.elapsed + dt)) else c
  }

  /** A lifetime component whose time is up and which asks for its entity's destruction. */
  predicate Expired(c: Component)
  {
    c.data.Lifetime? && c.data.elapsed >= c.data.lifetime && c.data.destroyOnTimeout
  }

  /** The lifetime pool after the entities in `done` have been aged. */
  function Aged(pool: CM.Pool, done: set<EntityID>, dt: real): (r: CM.Pool)
    ensures r.Keys == pool.Keys
    ensures forall e | e in r :: r[e] == if e in done then Age(pool[e], dt) else pool[e]
  {
    map e | e in pool :: if e in done then Age(pool[e], dt) else pool[e]
  }

  /** `e` has a lifetime component that has run out once aged by `dt`. */
  predicate ExpiresIn(pools: CM.Pools, e: EntityID, dt: real)
  {
    CM.Has(pools, LifetimeType, e) && Expired(Age(pools[LifetimeType][e], dt))
  }

  /** The entities LifetimeSystem's Update destroys directly: live and active, with a lifetime
      component that has run out once aged by `dt`. */
  ghost function ExpiredSet(ents: map<EntityID, EM.EntityInfo>, pools: CM.Pools, lifetimes: CM.Pools, dt: real): set<EntityID>
  {
    set e | e in ents && EM.Selected(ents, pools, [LifetimeType], e) && ExpiresIn(lifetimes, e, dt)
  }

  /** Aging one more entity changes at most its own entry. */
  lemma AgedStep(pool: CM.Pool, done: set<EntityID>, e: EntityID, dt: real)
    requires e !in done
    ensures e in pool ==> Aged(pool, done + {e}, dt) == Aged(pool, done, dt)[e := Age(pool[e], dt)]
    ensures e in pool && Age(pool[e], dt) == pool[e] ==> Aged(pool, done + {e}, dt) == Aged(pool, done, dt)
    ensures e !in pool ==> Aged(pool, done + {e}, dt) == Aged(pool, done, dt)
  {
    if e in pool && Age(pool[e], dt) == pool[e] {
      assert Aged(pool, done, dt)[e := Age(pool[e], dt)] == Aged(pool, done, dt);
    }
  }

  class LifetimeSystem {
    var em: EM.EntityManager?
    var cm: CM.ComponentManager?

    constructor()
      ensures em == null && cm == null
    {
      em := null;
      cm := null;
    }

    /** Update: age every lifetime component first, then destroy the expired entities. Exactly the
        subtrees of the expired entities are destroyed, every lifetime component left is the
        old one aged by `dt`, every other pool loses exactly the destroyed entities, and the
        OnDestroy hook log only grows. */
    method Update(dt: real)
      requires em != null ==> em.Valid()
      modifies cm, em, if em != null then {em.components} else {}
      ensures em != null ==> em.Valid()
      ensures em != null ==>
                EM.Destroyed(old(em.entities), em.entities) ==
                EM.Subtrees(old(em.entities), ExpiredSet(old(em.entities), old(em.components.pools), old(CM.PoolsOf(cm)), dt))
      ensures em != null ==> EM.Pruned(old(em.entities), em.entities)
                             && EM.Freed(old(em.availableIDs), em.availableIDs, EM.Destroyed(old(em.entities), em.entities))
      ensures em != null && cm != null ==>
                var aged := Aged(CM.PoolOf(old(CM.PoolsOf(cm)), LifetimeType),
                                 (set e | e in old(em.entities) && EM.Selected(old(em.entities), old(em.components.pools), [LifetimeType], e)), dt);
                var after := CM.PoolOf(CM.PoolsOf(cm), LifetimeType);
                && (forall e | e in after :: e in aged && after[e] == aged[e])
                && (forall e | e in aged && e in em.entities :: e in after)
      ensures em != null ==>
                && EM.HooksFor(old(em.components.pools), old(em.components.hooks), em.components.hooks,
                               EM.Destroyed(old(em.entities), em.entities))
                && forall t | t != LifetimeType ::
                     CM.PoolOf(em.components.pools, t) == CM.PoolOf(old(em.components.pools), t) - EM.Destroyed(old(em.entities), em.entities)
      ensures em == null ==> CM.PoolsOf(cm) == old(CM.PoolsOf(cm)) && (cm != null ==> cm.hooks == old(cm.hooks))
    {
      var expired := Scan(dt);
      if em != null {
        assert (set x | x in expired) == ExpiredSet(em.entities, old(em.components.pools), old(CM.PoolsOf(cm)), dt);
        forall t, e
          ensures CM.Has(em.components.pools, t, e) <==> CM.Has(old(em.components.pools), t, e)
        {
          if t != LifetimeType {
            assert CM.PoolOf(em.components.pools, t) == CM.PoolOf(old(em.components.pools), t);
          } else if cm == em.components {
            assert CM.PoolOf(em.components.pools, t).Keys == CM.PoolOf(old(em.components.pools), t).Keys;
          }
        }
      }
      DestroyScanned(expired, dt, old(if em != null then em.components.pools else map[]), old(CM.PoolsOf(cm)));
    }

    /** The second half of Update: the teardown of the entities the scan found expired, stated against
        the pools `pools0` of the entity manager and `lifetimes0` of the lifetime system before the scan. */
    method DestroyScanned(expired: seq<EntityID>, dt: real, ghost pools0: CM.Pools, ghost lifetimes0: CM.Pools)
      requires em != null ==> em.Valid()
      requires em != null ==> (set x | x in expired) == ExpiredSet(em.entities, pools0, lifetimes0, dt)
      requires em != null ==> forall t | t != LifetimeType :: CM.PoolOf(em.components.pools, t) == CM.PoolOf(pools0, t)
      requires em != null ==> forall t, e :: CM.Has(em.components.pools, t, e) <==> CM.Has(pools0, t, e)
      requires em != null && cm != null ==>
                 CM.PoolOf(CM.PoolsOf(cm), LifetimeType) ==
                 Aged(CM.PoolOf(lifetimes0, LifetimeType),
                      (set e | e in em.entities && EM.Selected(em.entities, pools0, [LifetimeType], e)), dt)
      modifies em, if em != null then {em.components} else {}
      ensures em != null ==> em.Valid()
      ensures em != null ==>
                EM.Destroyed(old(em.entities), em.entities) == EM.Subtrees(old(em.entities), ExpiredSet(old(em.entities), pools0, lifetimes0, dt))
      ensures em != null ==> EM.Pruned(old(em.entities), em.entities)
                             && EM.Freed(old(em.availableIDs), em.availableIDs, EM.Destroyed(old(em.entities), em.entities))
      ensures em != null && cm != null ==>
                var aged := Aged(CM.PoolOf(lifetimes0, LifetimeType),
                                 (set e | e in old(em.entities) && EM.Selected(old(em.entities), pools0, [LifetimeType], e)), dt);
                var after := CM.PoolOf(CM.PoolsOf(cm), LifetimeType);
                && (forall e | e in after :: e in aged && after[e] == aged[e])
                && (forall e | e in aged && e in em.entities :: e in after)
      ensures em != null ==>
                && EM.HooksFor(pools0, old(em.components.hooks), em.components.hooks, EM.Destroyed(old(em.entities), em.entities))
                && forall t | t != LifetimeType ::
                     CM.PoolOf(em.components.pools, t) == CM.PoolOf(pools0, t) - EM.Destroyed(old(em.entities), em.entities)
    {
      ghost var P1 := CM.PoolsOf(cm);
      ghost var Pm := if em != null then em.components.pools else map[];
      DestroyExpired(expired);
      if em != null && cm != null {
        ghost var gone := if cm == em.components then EM.Destroyed(old(em.entities), em.entities) else {};
        if cm == em.components {
          CM.PoolOfWithout(P1, gone, LifetimeType);
        }
        LifetimesLeft(CM.PoolOf(P1, LifetimeType), CM.PoolOf(CM.PoolsOf(cm), LifetimeType), gone, em.entities);
      }
      if em != null {
        OtherPoolsTornDown(pools0, Pm, em.components.pools, EM.Destroyed(old(em.entities), em.entities));
        EM.HooksForSameHas(Pm, pools0, old(em.components.hooks), em.components.hooks, EM.Destroyed(old(em.entities), em.entities));
      }
    }

    /** The lifetime pool after the teardown is the aged one without the destroyed entities. */
    static lemma LifetimesLeft(aged: CM.Pool, after: CM.Pool, gone: set<EntityID>, live: map<EntityID, EM.EntityInfo>)
      requires after == aged - gone && gone !! live.Keys
      ensures forall e | e in after :: e in aged && after[e] == aged[e]
      ensures forall e | e in aged && e in live :: e in after
    {
    }

    /** Teardown after the scan: the pools the scan did not touch lose exactly the destroyed entities. */
    static lemma OtherPoolsTornDown(P0: CM.Pools, Pm: CM.Pools, P1: CM.Pools, gone: set<EntityID>)
      requires forall t | t != LifetimeType :: CM.PoolOf(Pm, t) == CM.PoolOf(P0, t)
      requires P1 == CM.WithoutEntities(Pm, gone)
      ensures forall t | t != LifetimeType :: CM.PoolOf(P1, t) == CM.PoolOf(P0, t) - gone
    {
      forall t | t != LifetimeType
        ensures CM.PoolOf(P1, t) == CM.PoolOf(P0, t) - gone
      {
        CM.PoolOfWithout(Pm, gone, t);
      }
    }

    /** The first loop: age each lifetime component and collect the expired entities. */
    method Scan(dt: real) returns (expired: seq<EntityID>)
      modifies cm
      ensures NoDup(expired)
      ensures forall e :: e in expired <==>
                em != null && EM.Selected(old(em.entities), old(em.components.pools), [LifetimeType], e)
                && ExpiresIn(old(CM.PoolsOf(cm)), e, dt)
      ensures forall t | t != LifetimeType :: CM.PoolOf(CM.PoolsOf(cm), t) == CM.PoolOf(old(CM.PoolsOf(cm)), t)
      ensures em != null ==>
                (CM.PoolOf(CM.PoolsOf(cm), LifetimeType) ==
                 Aged(CM.PoolOf(old(CM.PoolsOf(cm)), LifetimeType),
                      (set e | e in old(em.entities) && EM.Selected(old(em.entities), old(em.components.pools), [LifetimeType], e)), dt))
      ensures cm != null ==> cm.hooks == old(cm.hooks)
      ensures em != null ==>
                && em.components.hooks == old(em.components.hooks)
                && forall t | t != LifetimeType :: CM.PoolOf(em.components.pools, t) == CM.PoolOf(old(em.components.pools), t)
      ensures em == null ==> expired == [] && CM.PoolsOf(cm) == old(CM.PoolsOf(cm))
    {
      var entities := EcsGetEntitiesWith(em, [LifetimeType]);
      ghost var P0 := CM.PoolsOf(cm);
      ghost var pool0 := CM.PoolOf(P0, LifetimeType);
      ghost var done: set<EntityID> := {};
      expired := [];
      var i := 0;
      while i < |entities|
        invariant 0 <= i <= |entities|
        invariant forall x :: x in done <==> x in entities[..i]
        invariant NoDup(expired)
        invariant forall e :: e in expired <==> e in done && ExpiresIn(P0, e, dt)
        invariant forall t | t != LifetimeType :: CM.PoolOf(CM.PoolsOf(cm), t) == CM.PoolOf(P0, t)
        invariant CM.PoolOf(CM.PoolsOf(cm), LifetimeType) == Aged(pool0, done, dt)
        invariant cm != null ==> cm.hooks == old(cm.hooks)
        invariant i == 0 ==> CM.PoolsOf(cm) == P0 && expired == []
      {
        var e := entities[i];
        assert entities[..i + 1] == entities[..i] + [e];
        assert e !in done by {
          assert forall j | 0 <= j < i :: entities[j] != e;
        }
        var expires := AgeEntity(e, dt, P0, done);
        done := done + {e};
        if expires {
          expired := expired + [e];
        }
        i := i + 1;
      }
      assert entities[..i] == entities;
      if em != null {
        assert done == (set e | e in old(em.entities) && EM.Selected(old(em.entities), old(em.components.pools), [LifetimeType], e));
      }
    }

    /** One iteration of the first loop: age the entity's lifetime component and report whether it expired. */
    method AgeEntity(e: EntityID, dt: real, ghost P0: CM.Pools, ghost done: set<EntityID>) returns (expires: bool)
      requires e !in done
      requires forall t | t != LifetimeType :: CM.PoolOf(CM.PoolsOf(cm), t) == CM.PoolOf(P0, t)
      requires CM.PoolOf(CM.PoolsOf(cm), LifetimeType) == Aged(CM.PoolOf(P0, LifetimeType), done, dt)
      modifies cm
      ensures expires == ExpiresIn(P0, e, dt)
      ensures forall t | t != LifetimeType :: CM.PoolOf(CM.PoolsOf(cm), t) == CM.PoolOf(P0, t)
      ensures CM.PoolOf(CM.PoolsOf(cm), LifetimeType) == Aged(CM.PoolOf(P0, LifetimeType), done + {e}, dt)
      ensures cm != null ==> cm.hooks == old(cm.hooks)
    {
      AgedStep(CM.PoolOf(P0, LifetimeType), done, e, dt);
      var lifetime := EcsGetComponent(cm, LifetimeType, e);
      if lifetime.None? || !lifetime.value.data.Lifetime? {
        return false;
      }
      var aged := Age(lifetime.value, dt);
      cm.ReplaceComponent(LifetimeType, e, aged);
      expires := aged.data.elapsed >= aged.data.lifetime && aged.data.destroyOnTimeout;
    }

    /** The second loop: DestroyEntity on each collected entity, when there is an entity manager;
        exactly the subtrees of the listed entities go. */
    method DestroyExpired(expired: seq<EntityID>)
      requires em != null ==> em.Valid()
      modifies em, if em != null then {em.components} else {}
      ensures em != null ==> em.Valid() && forall e | e in expired :: e !in em.entities
      ensures em != null ==> EM.TornDown(old(em.entities), old(em.availableIDs), old(em.components.pools), old(em.components.hooks),
                                         em.entities, em.availableIDs, em.components.pools, em.components.hooks)
      ensures em != null ==> EM.Destroyed(old(em.entities), em.entities) == EM.Subtrees(old(em.entities), set x | x in expired)
    {
      if em == null {
        return;
      }
      em.StartDestroying();
      ghost var roots: set<EntityID> := {};
      var i := 0;
      while i < |expired|
        invariant 0 <= i <= |expired|
        invariant roots == set x | x in expired[..i]
        invariant em.DestroyingRoots(old(em.entities), old(em.availableIDs), old(em.components.pools), old(em.components.hooks), roots)
      {
        em.DestroyRoot(expired[i], old(em.entities), old(em.availableIDs), old(em.components.pools), old(em.components.hooks), roots);
        roots := roots + {expired[i]};
        assert expired[..i + 1] == expired[..i] + [expired[i]];
        i := i + 1;
      }
      assert expired[..i] == expired;
      EM.SubtreesExact(old(em.entities), em.entities, roots);
    }
  }
}
