/** The hierarchy resolver (`resolve_position` in main.rs). */
module Hierarchy {
  import opened Base
  import opened Store

  /** A component's local offset, or zero when it has no position. */
  function Offset(w: World, id: EntityId): Vec2
    requires id in w.entities
  {
    match w.entities[id].position
    case None => Zero
    case Some(p) => p
  }

  /**
   * Absolute position of an entity: its local offset plus its parent's absolute
   * position; an entity without a position sits at the origin.
   */
  function Resolve(w: World, id: EntityId): (r: Vec2)
    requires id in w.entities && ParentsPrecede(w)
    ensures w.entities[id].position.None? ==> r == Zero
    ensures w.entities[id].parent.None? ==> r == Offset(w, id)
    decreases id
  {
    var e := w.entities[id];
    match e.position
    case None => Zero
    case Some(p) =>
      match e.parent
      case None => p
      case Some(q) => Add(Resolve(w, q), p)
  }

  /** A positioned child sits at its parent's resolved position plus its own offset. */
  lemma ResolveChild(w: World, id: EntityId)
    requires id in w.entities && ParentsPrecede(w)
    requires w.entities[id].parent.Some? && w.entities[id].position.Some?
    ensures Sub(Resolve(w, id), Resolve(w, w.entities[id].parent.value)) == Offset(w, id)
  {
  }

  /**
   * `path` follows parent links from `path[0]` through positioned entities and
   * stops at a root or at an entity without a position.
   */
  ghost predicate IsChain(w: World, path: seq<EntityId>)
  {
    && |path| > 0
    && (forall i | 0 <= i < |path| :: path[i] in w.entities)
    && (forall i | 0 <= i < |path| - 1 ::
          w.entities[path[i]].position.Some? && w.entities[path[i]].parent == Some(path[i + 1]))
    && (w.entities[path[|path| - 1]].position.None? || w.entities[path[|path| - 1]].parent.None?)
  }

  /** Sum of the local offsets of the entities on a path. */
  function SumOffsets(w: World, path: seq<EntityId>): Vec2
    requires forall i | 0 <= i < |path| :: path[i] in w.entities
  {
    if |path| == 0 then Zero else Add(Offset(w, path[0]), SumOffsets(w, path[1..]))
  }

  /** The chain of ancestors of an entity; it exists because parents precede children. */
  function ChainOf(w: World, id: EntityId): (path: seq<EntityId>)
    requires id in w.entities && ParentsPrecede(w)
    ensures IsChain(w, path) && path[0] == id
    decreases id
  {
    var e := w.entities[id];
    if e.position.None? || e.parent.None? then [id]
    else [id] + ChainOf(w, e.parent.value)
  }

  /** The resolved position is the sum of the local offsets along the parent chain. */
  lemma {:induction false} ResolveIsChainSum(w: World, path: seq<EntityId>)
    requires ParentsPrecede(w) && IsChain(w, path)
    ensures Resolve(w, path[0]) == SumOffsets(w, path)
    decreases |path|
  {
    if |path| > 1 {
      var rest := path[1..];
      assert IsChain(w, rest) by {
        forall i | 0 <= i < |rest| - 1
          ensures w.entities[rest[i]].position.Some? && w.entities[rest[i]].parent == Some(rest[i + 1])
        {
          assert rest[i] == path[i + 1] && rest[i + 1] == path[i + 2];
        }
      }
      ResolveIsChainSum(w, rest);
    }
  }

  /**
   * Two stores that agree on the parent and position of every entity of the first
   * resolve those entities identically: no other component affects resolution.
   */
  ghost predicate SameLayout(w: World, w': World)
  {
    forall id | id in w.entities ::
      id in w'.entities
      && w'.entities[id].parent == w.entities[id].parent
      && w'.entities[id].position == w.entities[id].position
  }

  lemma {:induction false} ResolveRespectsLayout(w: World, w': World, id: EntityId)
    requires ParentsPrecede(w) && ParentsPrecede(w') && SameLayout(w, w')
    requires id in w.entities
    ensures id in w'.entities && Resolve(w', id) == Resolve(w, id)
    decreases id
  {
    var e := w.entities[id];
    if e.position.Some? && e.parent.Some? {
      ResolveRespectsLayout(w, w', e.parent.value);
    }
  }
}
