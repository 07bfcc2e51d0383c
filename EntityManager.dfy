// The entity manager: ids, names, active flags and the parent/child links of
// every live entity. Ids come from a FIFO of freed ids or from a 32-bit counter
// that starts at 1 (0 is INVALID_ENTITY_ID). Destroying an entity destroys its
// children recursively and strips its components from the component manager.

module EntityManager {
  import opened Base
  import opened Components
  import CM = ComponentManager

  type EntityID = u32

  const INVALID_ENTITY_ID: EntityID := 0
  const DefaultEntityName: string := "Entity"

  /** The bookkeeping record of one live entity. */
  datatype EntityInfo = EntityInfo(
    id: EntityID,
    name: string,
    active: bool,
    parent: EntityID,
    children: seq<EntityID>)

  /** EntityInfo(id, name): active, with no parent and no children. */
  function NewInfo(id: EntityID, name: string): (i: EntityInfo)
    ensures i.id == id && i.name == name && i.active
    ensures i.parent == INVALID_ENTITY_ID && i.children == []
  {
    EntityInfo(id, name, true, INVALID_ENTITY_ID, [])
  }

  /** The erase(remove(...)) idiom: drops every occurrence of `x`, keeping the rest in order. */
  function RemoveAll(s: seq<EntityID>, x: EntityID): (r: seq<EntityID>)
    ensures x !in r
    ensures forall y | y in r :: y in s
    ensures x !in s ==> r == s
    ensures |r| <= |s|
  {
    if s == [] then []
    else if s[0] == x then RemoveAll(s[1..], x)
    else [s[0]] + RemoveAll(s[1..], x)
  }

  /** RemoveAll keeps every other element. */
  lemma {:induction false} RemoveAllKeeps(s: seq<EntityID>, x: EntityID, y: EntityID)
    requires y in s && y != x
    ensures y in RemoveAll(s, x)
  {
    if s[0] != y {
      RemoveAllKeeps(s[1..], x, y);
    }
  }

  /** Ids destroyed between two states of the entity table. */
  function Destroyed(before: map<EntityID, EntityInfo>, after: map<EntityID, EntityInfo>): set<EntityID>
  {
    before.Keys - after.Keys
  }

  /** Every child listed by a live entity is live and names that entity as its parent. */
  predicate LinkedIn(ents: map<EntityID, EntityInfo>)
  {
    forall p, c | p in ents && c in ents[p].children :: c in ents && ents[c].parent == p
  }

  /** The table after SetParent's second half: record the parent, then join its list if it is live. */
  function Reparent(ents: map<EntityID, EntityInfo>, child: EntityID, parent: EntityID): (r: map<EntityID, EntityInfo>)
    requires child in ents
    ensures r.Keys == ents.Keys
  {
    var e1 := ents[child := ents[child].(parent := parent)];
    if parent != INVALID_ENTITY_ID && parent in e1 then e1[parent := e1[parent].(children := e1[parent].children + [child])]
    else e1
  }

  /** Reparenting an entity that no list mentions keeps the links consistent. */
  lemma ReparentKeepsLinked(ents: map<EntityID, EntityInfo>, child: EntityID, parent: EntityID)
    requires LinkedIn(ents) && child in ents
    requires forall p | p in ents :: child !in ents[p].children
    ensures LinkedIn(Reparent(ents, child, parent))
  {
    var r := Reparent(ents, child, parent);
    forall p, c | p in r && c in r[p].children
      ensures c in r && r[c].parent == p
    {
      if c == child {
        assert p == parent;
      } else {
        assert c in ents[p].children;
      }
    }
  }

  /** Ids are never reissued while live: 0 is never live, freed ids are distinct and not live, and
      every id handed out is below the counter (unless the counter has wrapped to 0). */
  predicate FreshIn(ents: map<EntityID, EntityInfo>, queue: seq<EntityID>, next: EntityID)
  {
    && INVALID_ENTITY_ID !in ents
    && (forall k | k in ents :: ents[k].id == k && (next == 0 || k < next))
    && NoDup(queue)
    && (forall i | 0 <= i < |queue| ::
          && queue[i] != INVALID_ENTITY_ID
          && queue[i] !in ents
          && (next == 0 || queue[i] < next))
  }

  /** Edits that keep the live ids and their records' ids keep freshness. */
  lemma FreshSameIds(ents: map<EntityID, EntityInfo>, ents': map<EntityID, EntityInfo>, queue: seq<EntityID>, next: EntityID)
    requires FreshIn(ents, queue, next)
    requires ents'.Keys == ents.Keys
    requires forall k | k in ents' :: ents'[k].id == ents[k].id
    ensures FreshIn(ents', queue, next)
  {
  }

  /** The first half of SetParent: leave the current parent's children list, if that parent is live. */
  function Detach(ents: map<EntityID, EntityInfo>, child: EntityID): (r: map<EntityID, EntityInfo>)
    requires child in ents
    ensures r.Keys == ents.Keys
  {
    var p := ents[child].parent;
    if p != INVALID_ENTITY_ID && p in ents then ents[p := ents[p].(children := RemoveAll(ents[p].children, child))]
    else ents
  }

  /** The entity table after SetParent(child, parent) on a live child: only the child's parent id
      changes, and it becomes `parent` whether or not that entity is live; the old parent's list
      loses the child; the new parent's list gains it at the end only when that parent is live. */
  function SetParentOf(ents: map<EntityID, EntityInfo>, child: EntityID, parent: EntityID): (r: map<EntityID, EntityInfo>)
    requires child in ents
    ensures r.Keys == ents.Keys
  {
    map k | k in ents ::
      var info := ents[k];
      info.(parent := if k == child then parent else info.parent,
            children := (if k == ents[child].parent then RemoveAll(info.children, child) else info.children)
                        + (if k == parent then [child] else []))
  }

  /** SetParent's two steps, detaching and then reparenting, yield SetParentOf. */
  lemma SetParentSteps(ents: map<EntityID, EntityInfo>, child: EntityID, parent: EntityID)
    requires child in ents && INVALID_ENTITY_ID !in ents
    ensures Reparent(Detach(ents, child), child, parent) == SetParentOf(ents, child, parent)
  {
    var mid := Detach(ents, child);
    var l := Reparent(mid, child, parent);
    var r := SetParentOf(ents, child, parent);
    var e1 := mid[child := mid[child].(parent := parent)];
    forall k | k in l
      ensures l[k] == r[k]
    {
      var kids := if k == ents[child].parent then RemoveAll(ents[k].children, child) else ents[k].children;
      assert mid[k].children == kids;
      assert e1[k] == ents[k].(parent := if k == child then parent else ents[k].parent, children := kids);
      if k == parent {
        assert l[k] == e1[k].(children := kids + [child]);
      } else {
        assert l[k] == e1[k];
      }
    }
  }

  /** SetParent keeps every children list consistent with the parent ids; afterwards the child is
      listed by its new parent alone, and by nobody when that parent is not live. */
  lemma SetParentKeepsLinked(ents: map<EntityID, EntityInfo>, child: EntityID, parent: EntityID)
    requires LinkedIn(ents) && child in ents && INVALID_ENTITY_ID !in ents
    ensures LinkedIn(SetParentOf(ents, child, parent))
    ensures forall p | p in ents :: child in SetParentOf(ents, child, parent)[p].children <==> p == parent
  {
    var r := SetParentOf(ents, child, parent);
    forall p, c | p in r && c in r[p].children
      ensures c in r && r[c].parent == p
    {
      if c != child {
        if p == ents[child].parent {
          assert c in RemoveAll(ents[p].children, child) || c in [child];
        }
        assert c in ents[p].children;
      }
    }
    forall p | p in ents
      ensures child in r[p].children <==> p == parent
    {
      if p == ents[child].parent {
        assert child !in RemoveAll(ents[p].children, child);
      } else if child in ents[p].children {
        assert false;
      }
    }
  }

  /** SetParent changes no id, so the free-id bookkeeping still holds. */
  lemma SetParentKeepsIds(ents: map<EntityID, EntityInfo>, child: EntityID, parent: EntityID)
    requires child in ents
    ensures forall k | k in ents :: SetParentOf(ents, child, parent)[k].id == ents[k].id
  {
  }

  /** The live entities that appear in some live entity's children list. */
  ghost function AttachedIn(ents: map<EntityID, EntityInfo>): set<EntityID>
  {
    set p, c | p in ents && c in ents[p].children :: c
  }

  /** Under consistent links only live entities are attached. */
  lemma AttachedAreLive(ents: map<EntityID, EntityInfo>)
    requires LinkedIn(ents)
    ensures AttachedIn(ents) <= ents.Keys
  {
  }

  /** Leaving the parent's list: the entity is attached nowhere afterwards, nothing new is attached,
      and its own children are attached. */
  lemma DetachFacts(ents: map<EntityID, EntityInfo>, id: EntityID)
    requires LinkedIn(ents) && id in ents && INVALID_ENTITY_ID !in ents
    ensures AttachedIn(Detach(ents, id)) <= AttachedIn(ents)
    ensures id !in AttachedIn(Detach(ents, id))
    ensures id in AttachedIn(ents) ==> |AttachedIn(Detach(ents, id))| < |AttachedIn(ents)|
    ensures |AttachedIn(Detach(ents, id))| <= |AttachedIn(ents)|
    ensures forall c | c in Detach(ents, id)[id].children :: c in AttachedIn(Detach(ents, id))
  {
    var mid := Detach(ents, id);
    var a0, a1 := AttachedIn(ents), AttachedIn(mid);
    forall c | c in a1
      ensures c in a0 && c != id
    {
      var p :| p in mid && c in mid[p].children;
      assert c in ents[p].children;
    }
    SubsetCard(a1, a0);
    if id in a0 {
      SubsetCard(a1, a0 - {id});
    }
  }

  /** Erasing an entity attaches nothing new. */
  lemma EraseShrinksAttached(ents: map<EntityID, EntityInfo>, id: EntityID)
    ensures AttachedIn(ents - {id}) <= AttachedIn(ents)
  {
    forall c | c in AttachedIn(ents - {id})
      ensures c in AttachedIn(ents)
    {
      var p :| p in ents - {id} && c in (ents - {id})[p].children;
      assert p in ents && c in ents[p].children;
    }
  }

  /** `s` with only the ids in `live` kept, in order. */
  function Keep(s: seq<EntityID>, live: set<EntityID>): (r: seq<EntityID>)
    ensures forall y :: y in r <==> y in s && y in live
    ensures |r| <= |s|
  {
    if s == [] then []
    else (if s[0] in live then [s[0]] else []) + Keep(s[1..], live)
  }

  /** Keeping every element changes nothing. */
  lemma {:induction false} KeepAll(s: seq<EntityID>, live: set<EntityID>)
    requires forall y | y in s :: y in live
    ensures Keep(s, live) == s
  {
    if s != [] {
      KeepAll(s[1..], live);
    }
  }

  /** Filtering twice by shrinking sets is filtering once by the smaller set. */
  lemma {:induction false} KeepKeep(s: seq<EntityID>, a: set<EntityID>, b: set<EntityID>)
    requires b <= a
    ensures Keep(Keep(s, a), b) == Keep(s, b)
  {
    if s != [] {
      KeepKeep(s[1..], a, b);
      var x := Keep(s, a);
      if s[0] in a {
        assert x == [s[0]] + Keep(s[1..], a);
        assert x[0] == s[0] && x[1..] == Keep(s[1..], a);
        assert Keep(x, b) == (if s[0] in b then [s[0]] else []) + Keep(x[1..], b);
      } else {
        assert x == Keep(s[1..], a);
      }
    }
  }

  /** Dropping `x` first and then filtering is filtering by a set without `x`. */
  lemma {:induction false} KeepRemoveAll(s: seq<EntityID>, x: EntityID, live: set<EntityID>)
    ensures Keep(RemoveAll(s, x), live) == Keep(s, live - {x})
  {
    if s != [] {
      KeepRemoveAll(s[1..], x, live);
      if s[0] != x {
        assert RemoveAll(s, x) == [s[0]] + RemoveAll(s[1..], x);
        assert RemoveAll(s, x)[1..] == RemoveAll(s[1..], x);
      }
    }
  }

  /** Filters that agree on the elements of `s` give the same result. */
  lemma {:induction false} KeepSame(s: seq<EntityID>, a: set<EntityID>, b: set<EntityID>)
    requires forall y | y in s :: y in a <==> y in b
    ensures Keep(s, a) == Keep(s, b)
  {
    if s != [] {
      KeepSame(s[1..], a, b);
    }
  }

  /** `after` keeps a subset of the entities of `before`, each with the same id, name, flag and
      parent, and each children list loses exactly the ids that are no longer live. */
  ghost predicate Pruned(before: map<EntityID, EntityInfo>, after: map<EntityID, EntityInfo>)
  {
    after.Keys <= before.Keys
    && forall k | k in after :: after[k] == before[k].(children := Keep(before[k].children, after.Keys))
  }

  lemma PrunedTrans(e0: map<EntityID, EntityInfo>, e1: map<EntityID, EntityInfo>, e2: map<EntityID, EntityInfo>)
    requires Pruned(e0, e1) && Pruned(e1, e2)
    ensures Pruned(e0, e2)
    ensures Destroyed(e0, e1) + Destroyed(e1, e2) == Destroyed(e0, e2)
  {
    forall k | k in e2
      ensures e2[k] == e0[k].(children := Keep(e0[k].children, e2.Keys))
    {
      KeepKeep(e0[k].children, e1.Keys, e2.Keys);
    }
  }

  /** Under consistent links, a table is a pruning of itself. */
  lemma PrunedRefl(e: map<EntityID, EntityInfo>)
    requires LinkedIn(e)
    ensures Pruned(e, e)
  {
    forall k | k in e
      ensures e[k] == e[k].(children := Keep(e[k].children, e.Keys))
    {
      KeepAll(e[k].children, e.Keys);
    }
  }

  /** Every list of `small` is a sublist of the same entity's list in `big`. */
  ghost predicate SubLinks(small: map<EntityID, EntityInfo>, big: map<EntityID, EntityInfo>)
  {
    forall k, c | k in small && c in small[k].children :: k in big && c in big[k].children
  }

  /** `path` walks from `a` to `b`, each step going from an entity to one it lists as a child. */
  ghost predicate PathIn(ents: map<EntityID, EntityInfo>, path: seq<EntityID>, a: EntityID, b: EntityID)
  {
    && |path| >= 1 && path[0] == a && path[|path| - 1] == b
    && forall i | 0 <= i < |path| - 1 :: path[i] in ents && path[i + 1] in ents[path[i]].children
  }

  ghost predicate Reaches(ents: map<EntityID, EntityInfo>, a: EntityID, b: EntityID)
  {
    exists path :: PathIn(ents, path, a, b)
  }

  /** An entity and all its descendants: every live entity reachable from it through children lists. */
  ghost function Subtree(ents: map<EntityID, EntityInfo>, id: EntityID): set<EntityID>
  {
    set k | k in ents && Reaches(ents, id, k)
  }

  /** Every child listed by a destroyed entity is destroyed too. */
  ghost predicate Closed(before: map<EntityID, EntityInfo>, after: map<EntityID, EntityInfo>)
  {
    forall p, c | p in before && p !in after && c in before[p].children :: c !in after
  }

  /** Every destroyed entity is reachable from `root`. */
  ghost predicate ReachedFrom(before: map<EntityID, EntityInfo>, after: map<EntityID, EntityInfo>, root: EntityID)
  {
    forall k | k in before && k !in after :: Reaches(before, root, k)
  }

  lemma ReachesRefl(ents: map<EntityID, EntityInfo>, a: EntityID)
    ensures Reaches(ents, a, a)
  {
    assert PathIn(ents, [a], a, a);
  }

  lemma ReachesStep(ents: map<EntityID, EntityInfo>, a: EntityID, c: EntityID, b: EntityID)
    requires a in ents && c in ents[a].children && Reaches(ents, c, b)
    ensures Reaches(ents, a, b)
  {
    var path :| PathIn(ents, path, c, b);
    assert PathIn(ents, [a] + path, a, b);
  }

  lemma ReachesSub(small: map<EntityID, EntityInfo>, big: map<EntityID, EntityInfo>, a: EntityID, b: EntityID)
    requires SubLinks(small, big) && Reaches(small, a, b)
    ensures Reaches(big, a, b)
  {
    var path :| PathIn(small, path, a, b);
    forall i | 0 <= i < |path| - 1
      ensures path[i] in big && path[i + 1] in big[path[i]].children
    {
      assert path[i] in small && path[i + 1] in small[path[i]].children;
    }
    assert PathIn(big, path, a, b);
  }

  /** A set closed under children that contains the start of a path contains its end. */
  lemma {:induction false} ClosedAlongPath(before: map<EntityID, EntityInfo>, after: map<EntityID, EntityInfo>,
                                           path: seq<EntityID>, a: EntityID, b: EntityID)
    requires Closed(before, after) && PathIn(before, path, a, b) && a in before && a !in after
    ensures b !in after
    decreases |path|
  {
    if |path| > 1 {
      var q := path[|path| - 2];
      assert PathIn(before, path[..|path| - 1], a, q);
      ClosedAlongPath(before, after, path[..|path| - 1], a, q);
      assert q in before && b in before[q].children;
    }
  }

  /** Nothing but an entity that is nobody's child is reachable from an entity that is nobody's child, except itself. */
  lemma ReachesAttached(ents: map<EntityID, EntityInfo>, a: EntityID, b: EntityID)
    requires Reaches(ents, a, b) && a != b
    ensures b in AttachedIn(ents)
  {
    var path :| PathIn(ents, path, a, b);
    var q := path[|path| - 2];
    assert q in ents && b in ents[q].children;
  }

  /** The ids freed by the entity-level destruction are exactly the subtree: closed under children and
      all reachable from the root, which is itself destroyed. */
  lemma SubtreeExact(before: map<EntityID, EntityInfo>, after: map<EntityID, EntityInfo>, root: EntityID)
    requires after.Keys <= before.Keys && Closed(before, after) && ReachedFrom(before, after, root)
    requires root in before && root !in after
    ensures Destroyed(before, after) == Subtree(before, root)
  {
    forall k | k in Subtree(before, root)
      ensures k !in after
    {
      var path :| PathIn(before, path, root, k);
      ClosedAlongPath(before, after, path, root, k);
    }
  }

  /** Every live entity reachable from one of `roots`: what destroying each root in turn destroys. */
  ghost function Subtrees(ents: map<EntityID, EntityInfo>, roots: set<EntityID>): set<EntityID>
  {
    set k | k in ents && exists r | r in roots :: Reaches(ents, r, k)
  }

  /** Every destroyed entity is reachable from one of `roots`. */
  ghost predicate ReachedFromAny(before: map<EntityID, EntityInfo>, after: map<EntityID, EntityInfo>, roots: set<EntityID>)
  {
    forall k | k in before && k !in after :: exists r | r in roots :: Reaches(before, r, k)
  }

  /** A pruning only removes links. */
  lemma PrunedSubLinks(e0: map<EntityID, EntityInfo>, e: map<EntityID, EntityInfo>)
    requires Pruned(e0, e)
    ensures SubLinks(e, e0)
  {
    forall k, c | k in e && c in e[k].children
      ensures k in e0 && c in e0[k].children
    {
      assert c in Keep(e0[k].children, e.Keys);
    }
  }

  /** Closure under children survives one more round of destruction. */
  lemma ClosedStep(e0: map<EntityID, EntityInfo>, e: map<EntityID, EntityInfo>, e': map<EntityID, EntityInfo>)
    requires Pruned(e0, e) && Closed(e0, e) && Closed(e, e') && e'.Keys <= e.Keys
    ensures Closed(e0, e')
  {
    forall p, x | p in e0 && p !in e' && x in e0[p].children
      ensures x !in e'
    {
      if p in e && x in e {
        assert x in e[p].children;
      }
    }
  }

  /** Destroying the subtree of one more root, in the current table, stays within the subtrees of
      the roots in the table the rounds started from. */
  lemma ReachedStep(e0: map<EntityID, EntityInfo>, e: map<EntityID, EntityInfo>, e': map<EntityID, EntityInfo>,
                    roots: set<EntityID>, r: EntityID)
    requires Pruned(e0, e) && ReachedFromAny(e0, e, roots) && ReachedFrom(e, e', r) && e'.Keys <= e.Keys
    ensures ReachedFromAny(e0, e', roots + {r})
  {
    PrunedSubLinks(e0, e);
    forall k | k in e0 && k !in e'
      ensures exists x | x in roots + {r} :: Reaches(e0, x, k)
    {
      if k in e {
        ReachesSub(e, e0, r, k);
      } else {
        var x :| x in roots && Reaches(e0, x, k);
        assert x in roots + {r};
      }
    }
  }

  /** Destroyed roots, closure under children and reachability pin the destroyed ids down to the subtrees. */
  lemma SubtreesExact(e0: map<EntityID, EntityInfo>, e': map<EntityID, EntityInfo>, roots: set<EntityID>)
    requires e'.Keys <= e0.Keys && Closed(e0, e') && ReachedFromAny(e0, e', roots)
    requires forall r | r in roots :: r !in e'
    ensures Destroyed(e0, e') == Subtrees(e0, roots)
  {
    forall k | k in Subtrees(e0, roots)
      ensures k !in e'
    {
      var r :| r in roots && Reaches(e0, r, k);
      var path :| PathIn(e0, path, r, k);
      if r in e0 {
        ClosedAlongPath(e0, e', path, r, k);
      } else {
        PathFromDead(e0, path, r, k);
      }
    }
  }

  /** Nothing is reachable from an entity that is not live, so its subtree is empty. */
  lemma SubtreeOfDead(ents: map<EntityID, EntityInfo>, id: EntityID)
    requires id !in ents
    ensures Subtree(ents, id) == {}
  {
    forall k, path | k in ents
      ensures !PathIn(ents, path, id, k)
    {
      PathFromDead(ents, path, id, k);
    }
  }

  lemma PathFromDead(ents: map<EntityID, EntityInfo>, path: seq<EntityID>, id: EntityID, k: EntityID)
    requires id !in ents && k in ents
    ensures !PathIn(ents, path, id, k)
  {
    if |path| > 1 && path[0] == id {
      assert !(path[0] in ents);
    }
  }

  /** `after` extends `before` by queueing exactly the ids in `freed`. */
  ghost predicate Freed(before: seq<EntityID>, after: seq<EntityID>, freed: set<EntityID>)
  {
    && before <= after
    && (forall k | k in after[|before|..] :: k in freed)
    && (forall k | k in freed :: k in after[|before|..])
  }

  lemma FreedTrans(q0: seq<EntityID>, q1: seq<EntityID>, q2: seq<EntityID>, d1: set<EntityID>, d2: set<EntityID>)
    requires Freed(q0, q1, d1) && Freed(q1, q2, d2)
    ensures Freed(q0, q2, d1 + d2)
  {
    assert q2[|q0|..] == q1[|q0|..] + q2[|q1|..];
  }

  /** What a teardown leaves: the entity table, and the ids queued for reuse in queue order. */
  datatype Teardown = Teardown(ents: map<EntityID, EntityInfo>, queued: seq<EntityID>)

  /** DestroyEntity on values: leave the parent's list, destroy the children of the copied list one
      after the other, then queue the entity's own id, so the ids are queued in post-order. The
      record is dropped before the children go rather than after: once detached nobody lists it,
      so its children never reach it, and its own list is dropped with it either way. */
  ghost function TearDownOf(ents: map<EntityID, EntityInfo>, id: EntityID): (r: Teardown)
    ensures r.ents.Keys <= ents.Keys
    decreases ents.Keys, 0
  {
    if id !in ents then Teardown(ents, [])
    else
      var detached := Detach(ents, id);
      var children := detached[id].children;
      var rest := TearDownList(detached - {id}, children, |children|);
      Teardown(rest.ents, rest.queued + [id])
  }

  /** The loop over a copied children list, after its first `n` rounds: each child's teardown in
      list order, on the table the previous ones left. */
  ghost function TearDownList(ents: map<EntityID, EntityInfo>, children: seq<EntityID>, n: nat): (r: Teardown)
    requires n <= |children|
    ensures r.ents.Keys <= ents.Keys
    decreases ents.Keys, n + 1
  {
    if n == 0 then Teardown(ents, []) else NextRound(TearDownList(ents, children, n - 1), children[n - 1])
  }

  /** One round of the loop over a children list: the next child's teardown, run on the table the
      earlier rounds left, its ids queued after theirs. */
  ghost function NextRound(done: Teardown, child: EntityID): (r: Teardown)
    ensures r.ents.Keys <= done.ents.Keys
    decreases done.ents.Keys, 1
  {
    var last := TearDownOf(done.ents, child);
    Teardown(last.ents, done.queued + last.queued)
  }

  /** Destroying entity 1 with children [2, 3] queues 2, then 3, then 1, and leaves no entity. */
  lemma TearDownOrderExample()
    ensures var ents := map[1 := EntityInfo(1, "a", true, INVALID_ENTITY_ID, [2, 3]),
                            2 := EntityInfo(2, "b", true, 1, []),
                            3 := EntityInfo(3, "c", true, 1, [])];
            TearDownOf(ents, 1) == Teardown(map[], [2, 3, 1])
  {
    var ents := map[1 := EntityInfo(1, "a", true, INVALID_ENTITY_ID, [2, 3]),
                    2 := EntityInfo(2, "b", true, 1, []),
                    3 := EntityInfo(3, "c", true, 1, [])];
    var rest := ents - {1};
    var only3 := rest - {2};
    assert Detach(ents, 1) == ents;
    assert Detach(rest, 2) == rest;
    assert Detach(only3, 3) == only3;
    assert TearDownOf(rest, 2) == Teardown(only3, [2]) by {
      TearDownOfLive(rest, 2, Teardown(only3, []));
    }
    assert TearDownOf(only3, 3) == Teardown(map[], [3]) by {
      assert only3 - {3} == map[];
      TearDownOfLive(only3, 3, Teardown(map[], []));
    }
    assert TearDownList(rest, [2, 3], 1) == Teardown(only3, [2]) by {
      assert TearDownList(rest, [2, 3], 0) == Teardown(rest, []);
    }
    assert TearDownList(rest, [2, 3], 2) == Teardown(map[], [2, 3]);
    TearDownOfLive(ents, 1, Teardown(map[], [2, 3]));
  }

  /** TearDownOf on a live entity, one level unfolded. */
  lemma TearDownOfLive(ents: map<EntityID, EntityInfo>, id: EntityID, rest: Teardown)
    requires id in ents
    requires var children := Detach(ents, id)[id].children;
             rest == TearDownList(Detach(ents, id) - {id}, children, |children|)
    ensures TearDownOf(ents, id) == Teardown(rest.ents, rest.queued + [id])
  {
  }

  /** TearDownOf on a dead id changes nothing. */
  lemma TearDownOfDead(ents: map<EntityID, EntityInfo>, id: EntityID)
    requires id !in ents
    ensures TearDownOf(ents, id) == Teardown(ents, [])
  {
  }

  /** The children's rounds run on the detached table that still holds the entity `id`, which no list
      mentions, end where TearDownList run without it does, but for `id`'s record, its ids queued
      after `queue`. */
  lemma RoundsWithout(ents: map<EntityID, EntityInfo>, queue: seq<EntityID>, id: EntityID, children: seq<EntityID>,
                      rounds: seq<Teardown>)
    requires id !in AttachedIn(ents) && id !in children
    requires Rounds(ents, queue, children, rounds) && |rounds| == |children| + 1
    ensures rounds[|children|].ents - {id} == TearDownList(ents - {id}, children, |children|).ents
    ensures rounds[|children|].queued == queue + TearDownList(ents - {id}, children, |children|).queued
  {
    RoundsMatch(ents, queue, children, rounds, |children|);
    TearDownListWithout(ents, id, children, |children|);
  }

  /** The end of DestroyEntity on a live entity: its children's teardown done round by round on the
      detached table, erasing its record and queueing its id complete TearDownOf. */
  lemma TearDownOfErased(e0: map<EntityID, EntityInfo>, q0: seq<EntityID>, id: EntityID, e1: map<EntityID, EntityInfo>,
                         children: seq<EntityID>, rounds: seq<Teardown>, e2: map<EntityID, EntityInfo>,
                         q2: seq<EntityID>, e3: map<EntityID, EntityInfo>, q3: seq<EntityID>)
    requires id in e0 && e1 == Detach(e0, id) && children == e1[id].children
    requires id !in AttachedIn(e1) && id !in children
    requires RoundsTo(e1, q0, children, rounds, |children|, e2, q2)
    requires e3 == e2 - {id} && q3 == q2 + [id]
    ensures e3 == TearDownOf(e0, id).ents && q3 == q0 + TearDownOf(e0, id).queued
  {
    RoundsWithout(e1, q0, id, children, rounds);
    var rest := TearDownList(e1 - {id}, children, |children|);
    TearDownOfLive(e0, id, rest);
    assert q3 == q0 + (rest.queued + [id]);
  }

  /** Leaving the parent's list attaches nothing new. */
  lemma DetachShrinksAttached(ents: map<EntityID, EntityInfo>, id: EntityID)
    requires id in ents
    ensures AttachedIn(Detach(ents, id)) <= AttachedIn(ents)
  {
    var mid := Detach(ents, id);
    forall c | c in AttachedIn(mid)
      ensures c in AttachedIn(ents)
    {
      var p :| p in mid && c in mid[p].children;
      assert c in ents[p].children;
    }
  }

  /** The table `ents` and the queue are those the teardown `done` leaves. */
  ghost predicate LeftBy(ents: map<EntityID, EntityInfo>, queue: seq<EntityID>, done: Teardown)
  {
    ents == done.ents && queue == done.queued
  }

  /** `rounds` is a history of `i` rounds of the loop over `children` run on `ents` after `queue`, and
      its last round leaves the table `ents2` and the queue `queue2`. */
  ghost predicate RoundsTo(ents: map<EntityID, EntityInfo>, queue: seq<EntityID>, children: seq<EntityID>,
                           rounds: seq<Teardown>, i: nat, ents2: map<EntityID, EntityInfo>, queue2: seq<EntityID>)
  {
    Rounds(ents, queue, children, rounds) && |rounds| == i + 1 && LeftBy(ents2, queue2, rounds[i])
  }

  /** The `k`-th round of `rounds` is the NextRound of the one before it, over the `k`-th child. */
  ghost predicate LinkedAt(children: seq<EntityID>, rounds: seq<Teardown>, k: nat)
    requires 0 < k < |rounds| && k <= |children|
  {
    rounds[k] == NextRound(rounds[k - 1], children[k - 1])
  }

  /** `rounds` is the history of the loop over `children` run on `ents` with `queue` already queued: it
      starts from the untouched table and queue, and each round is the NextRound of the one before. */
  ghost predicate Rounds(ents: map<EntityID, EntityInfo>, queue: seq<EntityID>, children: seq<EntityID>,
                         rounds: seq<Teardown>)
  {
    && 0 < |rounds| <= |children| + 1 && rounds[0] == Teardown(ents, queue)
    && forall k | 0 < k < |rounds| :: LinkedAt(children, rounds, k)
  }

  /** One more round: tearing the next child down from the table and queue the last round left
      extends the history by the NextRound of that round. */
  lemma RoundsStep(ents: map<EntityID, EntityInfo>, queue: seq<EntityID>, children: seq<EntityID>,
                   rounds: seq<Teardown>, i: nat, ents1: map<EntityID, EntityInfo>, queue1: seq<EntityID>,
                   ents2: map<EntityID, EntityInfo>, queue2: seq<EntityID>)
    requires RoundsTo(ents, queue, children, rounds, i, ents1, queue1) && i < |children|
    requires ents2 == TearDownOf(ents1, children[i]).ents && queue2 == queue1 + TearDownOf(ents1, children[i]).queued
    ensures RoundsTo(ents, queue, children, rounds + [NextRound(rounds[i], children[i])], i + 1, ents2, queue2)
  {
    var rounds' := rounds + [NextRound(rounds[i], children[i])];
    forall k | 0 < k < |rounds'|
      ensures LinkedAt(children, rounds', k)
    {
      if k < |rounds| {
        assert LinkedAt(children, rounds, k);
        assert rounds'[k] == rounds[k] && rounds'[k - 1] == rounds[k - 1];
      }
    }
  }

  /** The `k`-th round of a history is where TearDownList gets to after `k` children, its ids queued
      after the history's first queue. */
  lemma {:induction false} RoundsMatch(ents: map<EntityID, EntityInfo>, queue: seq<EntityID>, children: seq<EntityID>,
                                       rounds: seq<Teardown>, k: nat)
    requires Rounds(ents, queue, children, rounds) && k < |rounds|
    ensures rounds[k].ents == TearDownList(ents, children, k).ents
    ensures rounds[k].queued == queue + TearDownList(ents, children, k).queued
  {
    if k == 0 {
      assert queue + [] == queue;
    } else {
      RoundsMatch(ents, queue, children, rounds, k - 1);
      assert LinkedAt(children, rounds, k);
      var before := TearDownList(ents, children, k - 1);
      var last := TearDownOf(before.ents, children[k - 1]);
      assert rounds[k].queued == queue + (before.queued + last.queued);
    }
  }

  /** A teardown attaches nothing new. */
  lemma {:induction false} TearDownAttached(ents: map<EntityID, EntityInfo>, id: EntityID)
    ensures AttachedIn(TearDownOf(ents, id).ents) <= AttachedIn(ents)
    decreases ents.Keys, 0
  {
    if id in ents {
      var detached: map<EntityID, EntityInfo> := Detach(ents, id);
      DetachShrinksAttached(ents, id);
      EraseShrinksAttached(detached, id);
      var rest: map<EntityID, EntityInfo> := detached - {id};
      TearDownListAttached(rest, detached[id].children, |detached[id].children|);
    }
  }

  /** Neither does the loop over a children list. */
  lemma {:induction false} TearDownListAttached(ents: map<EntityID, EntityInfo>, children: seq<EntityID>, n: nat)
    requires n <= |children|
    ensures AttachedIn(TearDownList(ents, children, n).ents) <= AttachedIn(ents)
    decreases ents.Keys, n + 1
  {
    if n > 0 {
      TearDownListAttached(ents, children, n - 1);
      TearDownAttached(TearDownList(ents, children, n - 1).ents, children[n - 1]);
    }
  }

  /** A teardown never reaches an entity that no list mentions: run on the table without it, it
      queues the same ids and leaves the same table without it. */
  lemma {:induction false} TearDownWithout(ents: map<EntityID, EntityInfo>, x: EntityID, id: EntityID)
    requires x !in AttachedIn(ents) && x != id
    ensures TearDownOf(ents - {x}, id) == Teardown(TearDownOf(ents, id).ents - {x}, TearDownOf(ents, id).queued)
    decreases ents.Keys, 0
  {
    if x !in ents {
      assert ents - {x} == ents;
      assert TearDownOf(ents, id).ents - {x} == TearDownOf(ents, id).ents;
    } else if id in ents {
      var detached: map<EntityID, EntityInfo> := Detach(ents, id);
      var rest: map<EntityID, EntityInfo> := ents - {x};
      var restDetached: map<EntityID, EntityInfo> := detached - {x};
      assert Detach(rest, id) == restDetached;
      assert x !in detached[id].children by {
        assert forall c | c in detached[id].children :: c in ents[id].children;
      }
      DetachShrinksAttached(ents, id);
      EraseShrinksAttached(detached, id);
      TearDownListWithout(detached - {id}, x, detached[id].children, |detached[id].children|);
      assert (detached - {x}) - {id} == (detached - {id}) - {x};
    }
  }

  /** The same for the loop over a children list that does not name the entity. */
  lemma {:induction false} TearDownListWithout(ents: map<EntityID, EntityInfo>, x: EntityID, children: seq<EntityID>,
                                               n: nat)
    requires n <= |children|
    requires x !in AttachedIn(ents) && x !in children
    ensures TearDownList(ents - {x}, children, n) ==
            Teardown(TearDownList(ents, children, n).ents - {x}, TearDownList(ents, children, n).queued)
    decreases ents.Keys, n + 1
  {
    if n > 0 {
      TearDownListWithout(ents, x, children, n - 1);
      var before := TearDownList(ents, children, n - 1);
      TearDownListAttached(ents, children, n - 1);
      TearDownWithout(before.ents, x, children[n - 1]);
    }
  }

  /** Erasing a live entity that no list mentions, and queueing its id, keeps links and freshness. */
  lemma EraseKeepsValid(ents: map<EntityID, EntityInfo>, queue: seq<EntityID>, next: EntityID, id: EntityID)
    requires LinkedIn(ents) && FreshIn(ents, queue, next)
    requires id in ents && id !in AttachedIn(ents)
    ensures LinkedIn(ents - {id}) && FreshIn(ents - {id}, queue + [id], next)
  {
    var e := ents - {id};
    forall p, c | p in e && c in e[p].children
      ensures c in e && e[c].parent == p
    {
      assert c in AttachedIn(ents);
    }
    var q := queue + [id];
    forall i, j | 0 <= i < j < |q|
      ensures q[i] != q[j]
    {
      if j == |queue| {
        assert q[i] == queue[i];
      }
    }
  }

  /** The combined effect of destroying some entities: the entities left keep their id, name, flag
      and parent, and their children lists lose exactly the destroyed ids; exactly the destroyed ids
      are queued for reuse, their components are gone from every pool, and the hook log only grows. */
  ghost predicate TornDown(e0: map<EntityID, EntityInfo>, q0: seq<EntityID>, p0: CM.Pools, h0: seq<CM.Hook>,
                           e1: map<EntityID, EntityInfo>, q1: seq<EntityID>, p1: CM.Pools, h1: seq<CM.Hook>)
  {
    && Pruned(e0, e1)
    && Freed(q0, q1, Destroyed(e0, e1))
    && p1 == CM.WithoutEntities(p0, Destroyed(e0, e1))
    && HooksFor(p0, h0, h1, Destroyed(e0, e1))
  }

  /** The hooks logged while destroying the entities `gone`, whose components were those of `p0`:
      the log only grows, every hook added is the OnDestroy of one of their components, and each of
      their components has its OnDestroy among them exactly once. */
  ghost predicate HooksFor(p0: CM.Pools, h0: seq<CM.Hook>, h1: seq<CM.Hook>, gone: set<EntityID>)
  {
    && h0 <= h1
    && (forall h | h in h1[|h0|..] :: h.OnDestroy? && h.entity in gone && CM.Has(p0, h.typeName, h.entity))
    && (forall t, e | e in gone && CM.Has(p0, t, e) :: CM.OnDestroy(t, e) in h1[|h0|..])
    && NoDup(h1[|h0|..])
  }

  /** Which components the hooks are for depends only on which entity has a component of which type. */
  lemma HooksForSameHas(p: CM.Pools, p': CM.Pools, h0: seq<CM.Hook>, h1: seq<CM.Hook>, gone: set<EntityID>)
    requires HooksFor(p, h0, h1, gone)
    requires forall t, e :: CM.Has(p, t, e) <==> CM.Has(p', t, e)
    ensures HooksFor(p', h0, h1, gone)
  {
  }

  /** Destroying nothing logs nothing. */
  lemma HooksNone(p: CM.Pools, h: seq<CM.Hook>)
    ensures HooksFor(p, h, h, {})
  {
    assert h[|h|..] == [];
  }

  /** The hooks of two rounds of destruction add up, the second round's components being those the
      first left. */
  lemma HooksTrans(p0: CM.Pools, h0: seq<CM.Hook>, h1: seq<CM.Hook>, h2: seq<CM.Hook>,
                   g1: set<EntityID>, g2: set<EntityID>)
    requires HooksFor(p0, h0, h1, g1) && HooksFor(CM.WithoutEntities(p0, g1), h1, h2, g2)
    requires g1 !! g2
    ensures HooksFor(p0, h0, h2, g1 + g2)
  {
    var p1 := CM.WithoutEntities(p0, g1);
    var a, b := h1[|h0|..], h2[|h1|..];
    assert h2[|h0|..] == a + b;
    forall i, j | 0 <= i < j < |a + b|
      ensures (a + b)[i] != (a + b)[j]
    {
      if i < |a| <= j {
        assert a[i] in a && b[j - |a|] in b;
      }
    }
    forall t, e | e in g1 + g2 && CM.Has(p0, t, e)
      ensures CM.OnDestroy(t, e) in h2[|h0|..]
    {
      if e in g2 {
        assert CM.Has(p1, t, e);
      }
    }
  }

  /** Destroying nothing. */
  lemma TornDownNone(e: map<EntityID, EntityInfo>, q: seq<EntityID>, p: CM.Pools, h: seq<CM.Hook>)
    requires LinkedIn(e)
    ensures TornDown(e, q, p, h, e, q, p, h)
  {
    PrunedRefl(e);
    assert Destroyed(e, e) == {};
    assert q[|q|..] == [];
    CM.WithoutNoEntities(p);
    HooksNone(p, h);
  }

  /** Two rounds of destruction add up to one. */
  lemma TornDownTrans(e0: map<EntityID, EntityInfo>, q0: seq<EntityID>, p0: CM.Pools, h0: seq<CM.Hook>,
                      e1: map<EntityID, EntityInfo>, q1: seq<EntityID>, p1: CM.Pools, h1: seq<CM.Hook>,
                      e2: map<EntityID, EntityInfo>, q2: seq<EntityID>, p2: CM.Pools, h2: seq<CM.Hook>)
    requires TornDown(e0, q0, p0, h0, e1, q1, p1, h1) && TornDown(e1, q1, p1, h1, e2, q2, p2, h2)
    ensures TornDown(e0, q0, p0, h0, e2, q2, p2, h2)
  {
    PrunedTrans(e0, e1, e2);
    FreedTrans(q0, q1, q2, Destroyed(e0, e1), Destroyed(e1, e2));
    CM.WithoutEntitiesTwice(p0, Destroyed(e0, e1), Destroyed(e1, e2));
    HooksTrans(p0, h0, h1, h2, Destroyed(e0, e1), Destroyed(e1, e2));
  }

  /** Erasing an entity that no list mentions prunes the table. */
  lemma ErasePruned(ents: map<EntityID, EntityInfo>, id: EntityID)
    requires LinkedIn(ents) && id !in AttachedIn(ents)
    ensures Pruned(ents, ents - {id})
  {
    var e := ents - {id};
    forall k | k in e
      ensures e[k] == ents[k].(children := Keep(ents[k].children, e.Keys))
    {
      forall c | c in ents[k].children
        ensures c in e.Keys
      {
        assert c in AttachedIn(ents);
      }
      KeepAll(ents[k].children, e.Keys);
    }
  }

  /** Leaving the parent's list and then being destroyed along with the rest is a pruning of the
      table before the detach: the parent's list loses the entity like any other destroyed id. */
  lemma DetachThenPruned(e0: map<EntityID, EntityInfo>, id: EntityID, e2: map<EntityID, EntityInfo>)
    requires LinkedIn(e0) && id in e0 && Pruned(Detach(e0, id), e2) && id !in e2
    ensures Pruned(e0, e2)
  {
    var e1 := Detach(e0, id);
    var parent := e0[id].parent;
    forall k | k in e2
      ensures e2[k] == e0[k].(children := Keep(e0[k].children, e2.Keys))
    {
      if parent != INVALID_ENTITY_ID && parent in e0 && k == parent {
        KeepRemoveAll(e0[k].children, id, e2.Keys);
        assert e2.Keys - {id} == e2.Keys;
      } else {
        assert e1[k] == e0[k];
      }
    }
  }

  /** Leaving the parent's list only removes links. */
  lemma DetachSubLinks(e0: map<EntityID, EntityInfo>, id: EntityID)
    requires id in e0
    ensures SubLinks(Detach(e0, id), e0)
  {
    var e1 := Detach(e0, id);
    forall k, c | k in e1 && c in e1[k].children
      ensures k in e0 && c in e0[k].children
    {
    }
  }

  /** DestroyEntity's pruning, from the table before the detach to the table after the erase. */
  lemma DestroyPruned(e0: map<EntityID, EntityInfo>, id: EntityID, e1: map<EntityID, EntityInfo>, e2: map<EntityID, EntityInfo>)
    requires LinkedIn(e0) && id in e0 && e1 == Detach(e0, id)
    requires Pruned(e1, e2) && id in e2 && LinkedIn(e2) && id !in AttachedIn(e2)
    ensures Pruned(e0, e2 - {id})
  {
    ErasePruned(e2, id);
    PrunedTrans(e1, e2, e2 - {id});
    DetachThenPruned(e0, id, e2 - {id});
  }

  /** DestroyEntity destroys every child listed by an entity it destroys. */
  lemma DestroyClosed(e0: map<EntityID, EntityInfo>, id: EntityID, e1: map<EntityID, EntityInfo>, e2: map<EntityID, EntityInfo>)
    requires id in e0 && e1 == Detach(e0, id)
    requires Closed(e1, e2) && id in e2 && forall c | c in e1[id].children :: c !in e2
    ensures Closed(e0, e2 - {id})
  {
    var e3 := e2 - {id};
    var parent := e0[id].parent;
    forall p, c | p in e0 && p !in e3 && c in e0[p].children
      ensures c !in e3
    {
      if c != id {
        if p == parent && parent != INVALID_ENTITY_ID && parent in e0 {
          RemoveAllKeeps(e0[p].children, id, c);
        }
        assert c in e1[p].children;
      }
    }
  }

  /** Everything DestroyEntity destroys is reachable from the entity in the table it started from. */
  lemma DestroyReached(e0: map<EntityID, EntityInfo>, id: EntityID, e1: map<EntityID, EntityInfo>, e2: map<EntityID, EntityInfo>)
    requires id in e0 && e1 == Detach(e0, id) && ReachedFrom(e1, e2, id)
    ensures ReachedFrom(e0, e2 - {id}, id)
  {
    DetachSubLinks(e0, id);
    forall k | k in e0 && k !in e2 - {id}
      ensures Reaches(e0, id, k)
    {
      if k == id {
        ReachesRefl(e0, id);
      } else {
        ReachesSub(e1, e0, id, k);
      }
    }
  }

  /** One more child's subtree destroyed keeps the loop's facts about the children destroyed so far. */
  lemma ChildDestroyed(e1: map<EntityID, EntityInfo>, id: EntityID, c: EntityID,
                       e: map<EntityID, EntityInfo>, e': map<EntityID, EntityInfo>)
    requires id in e1 && c in e1[id].children
    requires Pruned(e1, e) && Closed(e1, e) && ReachedFrom(e1, e, id)
    requires Pruned(e, e') && Closed(e, e') && ReachedFrom(e, e', c)
    ensures Closed(e1, e') && ReachedFrom(e1, e', id)
  {
    forall p, x | p in e1 && p !in e' && x in e1[p].children
      ensures x !in e'
    {
      if p in e && x in e {
        assert x in e[p].children;
      }
    }
    assert SubLinks(e, e1) by {
      forall k, x | k in e && x in e[k].children
        ensures k in e1 && x in e1[k].children
      {
      }
    }
    forall k | k in e1 && k !in e'
      ensures Reaches(e1, id, k)
    {
      if k in e {
        ReachesSub(e, e1, c, k);
        ReachesStep(e1, id, c, k);
      }
    }
  }

  /** The fold `(HasComponent<Ts>(id) && ...)`: the entity has a component of every listed type. */
  function HasAll(pools: CM.Pools, types: seq<TypeName>, e: EntityID): (b: bool)
    ensures b <==> forall t | t in types :: CM.Has(pools, t, e)
  {
    types == [] || (CM.Has(pools, types[0], e) && HasAll(pools, types[1..], e))
  }

  /** GetEntitiesWith's filter: a live, active entity with a component of every listed type. */
  predicate Selected(ents: map<EntityID, EntityInfo>, pools: CM.Pools, types: seq<TypeName>, e: EntityID)
  {
    e in ents && ents[e].active && forall t | t in types :: CM.Has(pools, t, e)
  }

  /** An entity gone from the attached set leaves room below the loop's measure. */
  lemma RankBound(att: set<EntityID>, a1: set<EntityID>, gone: EntityID)
    requires att <= a1 && gone in a1 && gone !in att
    ensures 2 * |att| + 1 < 2 * |a1|
  {
    SubsetCard(att, a1 - {gone});
  }

  lemma SubsetCard<T>(a: set<T>, b: set<T>)
    requires a <= b
    ensures |a| <= |b|
  {
    if a != {} {
      var x :| x in a;
      SubsetCard(a - {x}, b - {x});
    }
  }

  class EntityManager {
    /** m_availableIDs: freed ids, reused first-in first-out. */
    var availableIDs: seq<EntityID>
    var entities: map<EntityID, EntityInfo>
    var nextID: EntityID
    const components: CM.ComponentManager

    ghost predicate Linked()
      reads this
    {
      LinkedIn(entities)
    }

    ghost predicate Fresh()
      reads this
    {
      FreshIn(entities, availableIDs, nextID)
    }

    ghost predicate Valid()
      reads this
    {
      Linked() && Fresh()
    }

    ghost function Attached(): set<EntityID>
      reads this
    {
      AttachedIn(entities)
    }

    /** The termination measure of DestroyEntity: an entity that is nobody's child ranks above all attached ones. */
    ghost function Rank(id: EntityID): nat
      reads this
    {
      2 * |Attached()| + if id in Attached() then 0 else 1
    }

    constructor(components: CM.ComponentManager)
      ensures this.components == components
      ensures entities == map[] && availableIDs == [] && nextID == 1
      ensures Valid()
    {
      this.components := components;
      entities := map[];
      availableIDs := [];
      nextID := 1;
    }

    /** IsValid: a non-zero id of a live entity. */
    predicate IsValid(id: EntityID)
      reads `entities
    {
      id != INVALID_ENTITY_ID && id in entities
    }

    /** GetEntityInfo: the record, or None for an unknown id. */
    function GetEntityInfo(id: EntityID): (r: Option<EntityInfo>)
      reads `entities
      ensures r.Some? <==> id in entities
      ensures r.Some? ==> r.value == entities[id]
    {
      if id in entities then Some(entities[id]) else None
    }

    function GetEntityName(id: EntityID): (name: string)
      reads `entities
      ensures id in entities ==> name == entities[id].name
      ensures id !in entities ==> name == ""
    {
      match GetEntityInfo(id)
      case Some(info) => info.name
      case None => ""
    }

    function IsEntityActive(id: EntityID): (b: bool)
      reads `entities
      ensures b <==> id in entities && entities[id].active
    {
      match GetEntityInfo(id)
      case Some(info) => info.active
      case None => false
    }

    function GetParent(id: EntityID): (p: EntityID)
      reads `entities
      ensures id in entities ==> p == entities[id].parent
      ensures id !in entities ==> p == INVALID_ENTITY_ID
    {
      match GetEntityInfo(id)
      case Some(info) => info.parent
      case None => INVALID_ENTITY_ID
    }

    function GetChildren(id: EntityID): (cs: seq<EntityID>)
      reads `entities
      ensures id in entities ==> cs == entities[id].children
      ensures id !in entities ==> cs == []
    {
      match GetEntityInfo(id)
      case Some(info) => info.children
      case None => []
    }

    /** CreateEntity: the front of the free-id queue, else the counter's value (then incremented). */
    method CreateEntity(name: string := DefaultEntityName) returns (id: EntityID)
      requires Valid()
      requires availableIDs == [] ==> nextID != 0
      modifies `entities, `availableIDs, `nextID
      ensures Valid()
      ensures old(availableIDs) != [] ==> id == old(availableIDs)[0] && availableIDs == old(availableIDs)[1..] && nextID == old(nextID)
      ensures old(availableIDs) == [] ==> id == old(nextID) && availableIDs == [] && nextID == AddU32(old(nextID), 1)
      ensures id != INVALID_ENTITY_ID && id !in old(entities)
      ensures entities == old(entities)[id := NewInfo(id, name)]
    {
      if availableIDs != [] {
        id := availableIDs[0];
        availableIDs := availableIDs[1..];
      } else {
        id := nextID;
        nextID := AddU32(nextID, 1);
      }
      entities := entities[id := NewInfo(id, name)];
    }

    method SetEntityName(id: EntityID, name: string)
      requires Valid()
      modifies `entities
      ensures Valid()
      ensures id in old(entities) ==> entities == old(entities)[id := old(entities)[id].(name := name)]
      ensures id !in old(entities) ==> entities == old(entities)
    {
      if id in entities {
        entities := entities[id := entities[id].(name := name)];
      }
    }

    method SetEntityActive(id: EntityID, active: bool)
      requires Valid()
      modifies `entities
      ensures Valid()
      ensures id in old(entities) ==> entities == old(entities)[id := old(entities)[id].(active := active)]
      ensures id !in old(entities) ==> entities == old(entities)
    {
      if id in entities {
        entities := entities[id := entities[id].(active := active)];
      }
    }

    /** RemoveChild: erases every occurrence of `childID` from the parent's list; no-op for an unknown parent. */
    method RemoveChild(parentID: EntityID, childID: EntityID)
      requires Valid()
      modifies `entities
      ensures Valid()
      ensures parentID in old(entities) ==>
        entities == old(entities)[parentID := old(entities)[parentID].(children := RemoveAll(old(entities)[parentID].children, childID))]
      ensures parentID !in old(entities) ==> entities == old(entities)
      ensures Attached() <= old(Attached())
    {
      if parentID in entities {
        var info := entities[parentID];
        entities := entities[parentID := info.(children := RemoveAll(info.children, childID))];
        assert Attached() <= old(Attached()) by {
          forall c | c in Attached()
            ensures c in old(Attached())
          {
            var p :| p in entities && c in entities[p].children;
            assert p in old(entities) && c in old(entities)[p].children;
          }
        }
      }
    }

    /** SetParent: detach from the old parent, record the new parent id even when it is not live,
        and join its children only when it is (see SetParentEffect). */
    method SetParent(childID: EntityID, parentID: EntityID)
      requires Valid()
      modifies `entities
      ensures Valid()
      ensures !old(IsValid(childID)) ==> entities == old(entities)
      ensures old(IsValid(childID)) ==> entities == SetParentOf(old(entities), childID, parentID)
    {
      if !IsValid(childID) {
        return;
      }
      var oldParent := entities[childID].parent;
      if oldParent != INVALID_ENTITY_ID {
        RemoveChild(oldParent, childID);
      }
      ghost var mid := entities;
      assert mid == Detach(old(entities), childID);
      entities := entities[childID := entities[childID].(parent := parentID)];
      if parentID != INVALID_ENTITY_ID && IsValid(parentID) {
        entities := entities[parentID := entities[parentID].(children := entities[parentID].children + [childID])];
      }
      SetParentSteps(old(entities), childID, parentID);
      SetParentKeepsLinked(old(entities), childID, parentID);
      SetParentKeepsIds(old(entities), childID, parentID);
      FreshSameIds(old(entities), SetParentOf(old(entities), childID, parentID), availableIDs, nextID);
      assert entities == Reparent(mid, childID, parentID);
    }

    /** DestroyEntity: no-op for an invalid id; otherwise leave the parent's list, destroy every child
        recursively, drop all components, erase the entity and queue its id for reuse. The ids
        destroyed are exactly the entity's subtree, and every surviving list loses exactly them. */
    method DestroyEntity(id: EntityID)
      requires Valid()
      modifies `entities, `availableIDs, components`pools, components`hooks
      decreases Rank(id), 3
      ensures Valid()
      ensures !IsValid(id)
      ensures !old(IsValid(id)) ==> entities == old(entities) && availableIDs == old(availableIDs)
                                    && components.pools == old(components.pools) && components.hooks == old(components.hooks)
      ensures TornDown(old(entities), old(availableIDs), old(components.pools), old(components.hooks),
                       entities, availableIDs, components.pools, components.hooks)
      ensures Destroyed(old(entities), entities) == Subtree(old(entities), id)
      ensures Closed(old(entities), entities) && ReachedFrom(old(entities), entities, id)
      ensures Attached() <= old(Attached())
      ensures Destroyed(old(entities), entities) <= {id} + old(Attached())
      ensures entities == TearDownOf(old(entities), id).ents
      ensures availableIDs == old(availableIDs) + TearDownOf(old(entities), id).queued
    {
      if !IsValid(id) {
        TornDownNone(entities, availableIDs, components.pools, components.hooks);
        SubtreeOfDead(entities, id);
        TearDownOfDead(entities, id);
        return;
      }
      DetachFacts(entities, id);
      var parent := entities[id].parent;
      if parent != INVALID_ENTITY_ID {
        RemoveChild(parent, id);
      }
      assert entities == Detach(old(entities), id);
      ghost var E1, Q1, P1, H1 := entities, availableIDs, components.pools, components.hooks;
      var children := entities[id].children;
      ghost var A1 := Attached();
      assert id !in AttachedIn(E1) && id !in children;
      ghost var rounds := DestroyChildren(id, children, E1, Q1, P1, H1, A1);
      ChildrenFinish(id, children, E1, Q1, P1, H1, A1, rounds);
      ghost var E2, Q2, P2, H2 := entities, availableIDs, components.pools, components.hooks;
      EraseEntity(id);
      TearDownOfErased(old(entities), old(availableIDs), id, E1, children, rounds, E2, Q2, entities, availableIDs);
      TornDownTrans(E1, Q1, P1, H1, E2, Q2, P2, H2, entities, availableIDs, components.pools, components.hooks);
      DestroyPruned(old(entities), id, E1, E2);
      DestroyClosed(old(entities), id, E1, E2);
      DestroyReached(old(entities), id, E1, E2);
      SubtreeExact(old(entities), entities, id);
      assert Destroyed(old(entities), entities) == Destroyed(E1, entities);
    }

    /** The loop of DestroyEntity over the copy of a detached entity's children list. */
    method DestroyChildren(id: EntityID, children: seq<EntityID>, ghost e1: map<EntityID, EntityInfo>,
                           ghost q1: seq<EntityID>, ghost p1: CM.Pools, ghost h1: seq<CM.Hook>, ghost a1: set<EntityID>)
      returns (ghost rounds: seq<Teardown>)
      requires e1 == entities && q1 == availableIDs && p1 == components.pools && h1 == components.hooks
      requires a1 == Attached()
      requires Valid() && id in entities && id !in Attached()
      requires children == entities[id].children
      requires forall c | c in children :: c in Attached()
      modifies `entities, `availableIDs, components`pools, components`hooks
      decreases 2 * |Attached()| + 1, 2
      ensures ChildrenDone(id, children, |children|, e1, q1, p1, h1, a1)
      ensures RoundsTo(e1, q1, children, rounds, |children|, entities, availableIDs)
    {
      ghost var rounds0 := [Teardown(e1, q1)];
      ChildrenStart(id, children, rounds0);
      rounds := DestroyChildrenLoop(id, children, e1, q1, p1, h1, a1, rounds0);
    }

    /** The loop itself, from the state ChildrenStart describes. */
    method DestroyChildrenLoop(id: EntityID, children: seq<EntityID>, ghost e1: map<EntityID, EntityInfo>,
                           ghost q1: seq<EntityID>, ghost p1: CM.Pools, ghost h1: seq<CM.Hook>, ghost a1: set<EntityID>,
                           ghost rounds0: seq<Teardown>)
      returns (ghost rounds: seq<Teardown>)
      requires ChildrenDone(id, children, 0, e1, q1, p1, h1, a1)
      requires RoundsTo(e1, q1, children, rounds0, 0, entities, availableIDs)
      requires id in e1 && children == e1[id].children && id !in a1
      requires forall c | c in children :: c in a1
      modifies `entities, `availableIDs, components`pools, components`hooks
      decreases 2 * |a1| + 1, 1
      ensures ChildrenDone(id, children, |children|, e1, q1, p1, h1, a1)
      ensures RoundsTo(e1, q1, children, rounds, |children|, entities, availableIDs)
    {
      rounds := rounds0;
      var i := 0;
      // Each invariant is compared with `true` so that it is checked as one fact, the one
      // DestroyChildOf ensures, rather than conjunct by conjunct.
      while i < |children|
        invariant i <= |children|
        invariant ChildrenDone(id, children, i, e1, q1, p1, h1, a1) == true
        invariant RoundsTo(e1, q1, children, rounds, i, entities, availableIDs) == true
      {
        rounds := DestroyChildOf(id, children, i, e1, q1, p1, h1, a1, rounds);
        i := i + 1;
      }
    }

    /** What DestroyChildren keeps while it runs, against the table `e1` (and queue, pools, hooks)
        it started from and the set `a1` of entities attached then. */
    ghost predicate DestroyingChildren(id: EntityID, e1: map<EntityID, EntityInfo>, q1: seq<EntityID>,
                                       p1: CM.Pools, h1: seq<CM.Hook>, a1: set<EntityID>)
      reads this, components
    {
      && Valid() && id in entities && id !in Attached()
      && TornDown(e1, q1, p1, h1, entities, availableIDs, components.pools, components.hooks)
      && Closed(e1, entities) && ReachedFrom(e1, entities, id)
      && Attached() <= a1 && Destroyed(e1, entities) <= a1
    }

    /** DestroyChildren after its first `i` rounds: what it keeps, and the first `i` children are gone. */
    ghost predicate ChildrenDone(id: EntityID, children: seq<EntityID>, i: nat, e1: map<EntityID, EntityInfo>,
                                 q1: seq<EntityID>, p1: CM.Pools, h1: seq<CM.Hook>, a1: set<EntityID>)
      requires i <= |children|
      reads this, components
    {
      && DestroyingChildren(id, e1, q1, p1, h1, a1)
      && (forall j | 0 <= j < i :: children[j] !in entities)
      && (i == 0 ==> Attached() == a1)
    }


    /** DestroyChildren before its first round. */
    lemma ChildrenStart(id: EntityID, children: seq<EntityID>, rounds: seq<Teardown>)
      requires Valid() && id in entities && id !in Attached()
      requires rounds == [Teardown(entities, availableIDs)]
      ensures ChildrenDone(id, children, 0, entities, availableIDs, components.pools, components.hooks, Attached())
      ensures RoundsTo(entities, availableIDs, children, rounds, 0, entities, availableIDs)
    {
      TornDownNone(entities, availableIDs, components.pools, components.hooks);
    }

    /** DestroyChildren after its last round. */
    lemma ChildrenFinish(id: EntityID, children: seq<EntityID>, e1: map<EntityID, EntityInfo>, q1: seq<EntityID>,
                         p1: CM.Pools, h1: seq<CM.Hook>, a1: set<EntityID>, rounds: seq<Teardown>)
      requires ChildrenDone(id, children, |children|, e1, q1, p1, h1, a1)
      requires RoundsTo(e1, q1, children, rounds, |children|, entities, availableIDs)
      ensures Valid() && id in entities
      ensures TornDown(e1, q1, p1, h1, entities, availableIDs, components.pools, components.hooks)
      ensures Closed(e1, entities) && ReachedFrom(e1, entities, id)
      ensures Attached() <= a1 && Destroyed(e1, entities) <= a1
      ensures forall c | c in children :: c !in entities
      ensures RoundsTo(e1, q1, children, rounds, |children|, entities, availableIDs)
    {
      forall c | c in children
        ensures c !in entities
      {
        var j :| 0 <= j < |children| && children[j] == c;
      }
    }

    /** The next child to destroy ranks below the entity whose children are being destroyed. */
    lemma ChildRankBelow(id: EntityID, children: seq<EntityID>, i: nat, e1: map<EntityID, EntityInfo>,
                         q1: seq<EntityID>, p1: CM.Pools, h1: seq<CM.Hook>, a1: set<EntityID>)
      requires i < |children| && ChildrenDone(id, children, i, e1, q1, p1, h1, a1)
      requires forall c | c in children :: c in a1
      ensures Rank(children[i]) < 2 * |a1| + 1
    {
      if i > 0 {
        AttachedAreLive(entities);
        RankBound(Attached(), a1, children[0]);
      } else {
        assert children[i] in Attached();
      }
    }

    /** One iteration of DestroyChildren: DestroyEntity on the `i`-th child of the detached entity `id`,
        against the table `e1` (and queue, pools, hooks) the loop started from. */
    method DestroyChildOf(id: EntityID, children: seq<EntityID>, i: nat, ghost e1: map<EntityID, EntityInfo>,
                          ghost q1: seq<EntityID>, ghost p1: CM.Pools, ghost h1: seq<CM.Hook>, ghost a1: set<EntityID>,
                          ghost rounds: seq<Teardown>)
      returns (ghost rounds': seq<Teardown>)
      requires i < |children| && ChildrenDone(id, children, i, e1, q1, p1, h1, a1)
      requires RoundsTo(e1, q1, children, rounds, i, entities, availableIDs)
      requires id in e1 && children == e1[id].children && id !in a1
      requires forall c | c in children :: c in a1
      modifies `entities, `availableIDs, components`pools, components`hooks
      decreases 2 * |a1| + 1, 0
      ensures ChildrenDone(id, children, i + 1, e1, q1, p1, h1, a1)
      ensures RoundsTo(e1, q1, children, rounds', i + 1, entities, availableIDs)
    {
      var c := children[i];
      ChildRankBelow(id, children, i, e1, q1, p1, h1, a1);
      ghost var E, Q, P, H := entities, availableIDs, components.pools, components.hooks;
      DestroyEntity(c);
      assert Destroyed(E, entities) <= a1 && id !in Destroyed(E, entities);
      ChildDestroyed(e1, id, c, E, entities);
      TornDownTrans(e1, q1, p1, h1, E, Q, P, H, entities, availableIDs, components.pools, components.hooks);
      RoundsStep(e1, q1, children, rounds, i, E, Q, entities, availableIDs);
      rounds' := rounds + [NextRound(rounds[i], c)];
      forall j | 0 <= j <= i
        ensures children[j] !in entities
      {
        assert children[j] !in E || j == i;
      }
    }

    /** What destroying a list of entities one after the other keeps, against the table (and queue,
        pools, hooks) it started from and the set of entities destroyed so far. */
    ghost predicate DestroyingRoots(e0: map<EntityID, EntityInfo>, q0: seq<EntityID>, p0: CM.Pools, h0: seq<CM.Hook>,
                                    roots: set<EntityID>)
      reads this, components
    {
      && Valid()
      && TornDown(e0, q0, p0, h0, entities, availableIDs, components.pools, components.hooks)
      && Closed(e0, entities) && ReachedFromAny(e0, entities, roots)
      && (forall r | r in roots :: r !in entities)
    }

    /** Nothing destroyed yet. */
    lemma StartDestroying()
      requires Valid()
      ensures DestroyingRoots(entities, availableIDs, components.pools, components.hooks, {})
    {
      TornDownNone(entities, availableIDs, components.pools, components.hooks);
    }

    /** One more DestroyEntity in a sequence of them. */
    method DestroyRoot(id: EntityID, ghost e0: map<EntityID, EntityInfo>, ghost q0: seq<EntityID>, ghost p0: CM.Pools,
                       ghost h0: seq<CM.Hook>, ghost roots: set<EntityID>)
      requires DestroyingRoots(e0, q0, p0, h0, roots)
      modifies `entities, `availableIDs, components`pools, components`hooks
      ensures DestroyingRoots(e0, q0, p0, h0, roots + {id})
      ensures entities.Keys <= old(entities).Keys
    {
      ghost var E, Q, P, H := entities, availableIDs, components.pools, components.hooks;
      DestroyEntity(id);
      ClosedStep(e0, E, entities);
      ReachedStep(e0, E, entities, roots, id);
      TornDownTrans(e0, q0, p0, h0, E, Q, P, H, entities, availableIDs, components.pools, components.hooks);
    }

    /** The tail of DestroyEntity: strip the components, erase the record, queue the id. */
    method EraseEntity(id: EntityID)
      requires Valid() && id in entities && id !in Attached()
      modifies `entities, `availableIDs, components`pools, components`hooks
      ensures Valid()
      ensures entities == old(entities) - {id} && availableIDs == old(availableIDs) + [id]
      ensures TornDown(old(entities), old(availableIDs), old(components.pools), old(components.hooks),
                       entities, availableIDs, components.pools, components.hooks)
      ensures Attached() <= old(Attached())
    {
      components.RemoveAllComponents(id);
      ErasePruned(entities, id);
      EraseKeepsValid(entities, availableIDs, nextID, id);
      EraseShrinksAttached(entities, id);
      entities := entities - {id};
      availableIDs := availableIDs + [id];
      assert availableIDs[|old(availableIDs)|..] == [id];
      assert Destroyed(old(entities), entities) == {id};
    }

    /** Entity-level HasComponent: false for an invalid id. */
    predicate HasComponent(id: EntityID, t: TypeName)
      reads `entities, components`pools
    {
      IsValid(id) && components.HasComponent(t, id)
    }

    /** Entity-level AddComponent: None, and nothing changes, for an invalid id. */
    method AddComponent(id: EntityID, t: TypeName, c: Component) returns (r: Option<Component>)
      requires IsValid(id) ==> !components.HasComponent(t, id)
      modifies components`pools, components`hooks
      ensures !old(IsValid(id)) ==> r.None? && components.pools == old(components.pools) && components.hooks == old(components.hooks)
      ensures old(IsValid(id)) ==> r == Some(c) && HasComponent(id, t)
      ensures old(IsValid(id)) ==> components.pools == old(components.pools)[t := CM.PoolOf(old(components.pools), t)[id := c]]
                                   && components.hooks == old(components.hooks) + [CM.OnCreate(t, id)]
    {
      if !IsValid(id) {
        return None;
      }
      var added := components.AddComponent(t, id, c);
      r := Some(added);
    }

    /** Entity-level RemoveComponent: only for a valid id. */
    method RemoveComponent(id: EntityID, t: TypeName)
      modifies components`pools, components`hooks
      ensures !HasComponent(id, t)
      ensures !old(IsValid(id)) ==> components.pools == old(components.pools) && components.hooks == old(components.hooks)
      ensures old(IsValid(id)) ==> components.pools == old(components.pools)[t := CM.PoolOf(old(components.pools), t) - {id}]
      ensures old(IsValid(id)) ==>
        components.hooks == old(components.hooks) + (if old(components.HasComponent(t, id)) then [CM.OnDestroy(t, id)] else [])
    {
      if IsValid(id) {
        components.RemoveComponent(t, id);
      }
    }

    /** Entity-level GetComponent: None for an invalid id or a missing component. */
    method GetComponent(id: EntityID, t: TypeName) returns (r: Option<Component>)
      modifies components`pools
      ensures r.None? <==> !old(HasComponent(id, t))
      ensures r.Some? ==> r.value == old(components.pools)[t][id]
      ensures components.pools ==
        if old(IsValid(id)) then old(components.pools)[t := CM.PoolOf(old(components.pools), t)] else old(components.pools)
      ensures forall u, e :: CM.Has(components.pools, u, e) <==> CM.Has(old(components.pools), u, e)
    {
      if !IsValid(id) {
        return None;
      }
      r := components.GetComponent(t, id);
    }

    /** GetEntitiesWith<Ts...>: each live, active entity that has every listed component, once. */
    method GetEntitiesWith(types: seq<TypeName>) returns (r: seq<EntityID>)
      ensures NoDup(r)
      ensures forall e :: e in r <==> Selected(entities, components.pools, types, e)
    {
      var ids := entities.Keys;
      r := [];
      while ids != {}
        invariant ids <= entities.Keys
        invariant NoDup(r)
        invariant forall e :: e in r <==> e !in ids && Selected(entities, components.pools, types, e)
        decreases ids
      {
        var id :| id in ids;
        if entities[id].active && HasAll(components.pools, types, id) {
          assert Selected(entities, components.pools, types, id);
          r := r + [id];
        }
        ids := ids - {id};
      }
    }

    /** Clear: destroys every entity through DestroyEntity, so every id is queued for reuse and
        every component is removed; the counter is left alone. */
    method Clear()
      requires Valid()
      modifies `entities, `availableIDs, components`pools, components`hooks
      ensures Valid() && entities == map[]
      ensures TornDown(old(entities), old(availableIDs), old(components.pools), old(components.hooks),
                       entities, availableIDs, components.pools, components.hooks)
    {
      var ids := entities.Keys;
      ghost var roots: set<EntityID> := {};
      StartDestroying();
      while ids != {}
        invariant DestroyingRoots(old(entities), old(availableIDs), old(components.pools), old(components.hooks), roots)
        invariant entities.Keys <= ids
        decreases ids
      {
        var id :| id in ids;
        DestroyRoot(id, old(entities), old(availableIDs), old(components.pools), old(components.hooks), roots);
        roots := roots + {id};
        ids := ids - {id};
      }
      assert entities.Keys == {};
    }
  }
}
