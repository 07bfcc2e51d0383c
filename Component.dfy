// Components of the entity-component system: the per-type id counter and the
// component record. Component classes are opaque to the model except for the
// fields the common systems read and write; their float fields other than the
// lifetime bookkeeping are left out.

module Components {
  import opened Base

  /** A component type, identified by its class name (the COMPONENT_TYPE literal). */
  type TypeName = string

  const TransformType: TypeName := "TransformComponent"
  const RenderableType: TypeName := "RenderableComponent"
  const CameraType: TypeName := "CameraComponent"
  const AudioType: TypeName := "AudioComponent"
  const LifetimeType: TypeName := "LifetimeComponent"

  /** The state of one component object that the model tracks. */
  datatype ComponentData =
    | Transform
    | Renderable(visible: bool, renderLayer: int)
    | Camera(isPrimary: bool)
    | Audio(playOnCreate: bool, is3D: bool)
    | Lifetime(lifetime: real, elapsed: real, destroyOnTimeout: bool)
    | Custom(typeName: TypeName)

  /** A component: the base-class enabled flag and the derived class's data. */
  datatype Component = Component(enabled: bool, data: ComponentData)
  {
    function IsEnabled(): bool { enabled }

    function SetEnabled(b: bool): (c: Component)
      ensures c.data == data
    {
      this.(enabled := b)
    }
  }

  /** A freshly constructed component: the base class starts enabled. */
  function NewComponent(data: ComponentData): (c: Component)
    ensures c.IsEnabled() && c.data == data
  {
    Component(true, data)
  }

  /** SetEnabled(b) followed by IsEnabled() yields b, whatever the component was. */
  lemma SetEnabledThenIsEnabled(c: Component, b: bool)
    ensures c.SetEnabled(b).IsEnabled() == b
    ensures c.SetEnabled(b).SetEnabled(c.IsEnabled()) == c
  {
  }

  /** LifetimeComponent(): lifetime 5 seconds, nothing elapsed, destroyed on timeout. */
  const DefaultLifetime: ComponentData := Lifetime(5.0, 0.0, true)

  /** LifetimeComponent(life): only the lifetime differs from the defaults. */
  function LifetimeWith(life: real): (d: ComponentData)
    ensures d.Lifetime? && d.lifetime == life
    ensures d.(lifetime := DefaultLifetime.lifetime) == DefaultLifetime
  {
    DefaultLifetime.(lifetime := life)
  }

  /** GetTypeName: the class name the COMPONENT_TYPE macro stringises. */
  function TypeNameOf(d: ComponentData): (t: TypeName)
  {
    match d
    case Transform => TransformType
    case Renderable(_, _) => RenderableType
    case Camera(_) => CameraType
    case Audio(_, _) => AudioType
    case Lifetime(_, _, _) => LifetimeType
    case Custom(name) => name
  }

  // ComponentTypeID::GetID<T>: one counter shared by all component types; the
  // function-static `id` of each instantiation fixes the value at the first call.

  /** The ids handed out so far are distinct and all below the counter. */
  predicate IdsFresh(ids: map<TypeName, nat>, counter: nat)
  {
    && (forall t | t in ids :: ids[t] < counter)
    && (forall s, t | s in ids && t in ids && s != t :: ids[s] != ids[t])
  }

  /** The registry after GetID<t>, and the id returned. */
  function AssignId(ids: map<TypeName, nat>, counter: nat, t: TypeName): (r: (map<TypeName, nat>, nat, nat))
    ensures t in r.0 && r.0[t] == r.2
    ensures t in ids ==> r == (ids, counter, ids[t])
    ensures t !in ids ==> r.2 == counter && r.1 == counter + 1
    ensures forall s | s in ids :: s in r.0 && r.0[s] == ids[s]
    ensures r.0.Keys == ids.Keys + {t}
  {
    if t in ids then (ids, counter, ids[t]) else (ids[t := counter], counter + 1, counter)
  }

  /** GetID keeps ids distinct: two different types never share an id. */
  lemma AssignIdKeepsIdsFresh(ids: map<TypeName, nat>, counter: nat, t: TypeName)
    requires IdsFresh(ids, counter)
    ensures IdsFresh(AssignId(ids, counter, t).0, AssignId(ids, counter, t).1)
  {
    var r := AssignId(ids, counter, t);
    if t !in ids {
      forall s | s in r.0
        ensures r.0[s] < r.1
      {
        if s != t { assert r.0[s] == ids[s]; }
      }
    }
  }

  /** The process-wide ComponentTypeID state. */
  class ComponentTypeID {
    var counter: nat
    var ids: map<TypeName, nat>

    ghost predicate Valid()
      reads this
    {
      IdsFresh(ids, counter)
    }

    /** s_counter starts at 0 and no instantiation has run yet. */
    constructor()
      ensures counter == 0 && ids == map[] && Valid()
    {
      counter := 0;
      ids := map[];
    }

    method GetID(t: TypeName) returns (id: nat)
      requires Valid()
      modifies this
      ensures (ids, counter, id) == AssignId(old(ids), old(counter), t)
      ensures Valid()
    {
      AssignIdKeepsIdsFresh(ids, counter, t);
      if t in ids {
        id := ids[t];
      } else {
        id := counter;
        ids := ids[t := id];
        counter := counter + 1;
      }
    }
  }
}
