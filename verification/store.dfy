/**
 * The entity/component store: each entity id owns a record of optional
 * components, mirroring the component structs of main.rs, storage.rs and mouse.rs.
 */
module Store {
  import opened Base
  import opened Crops
  import opened Ledger

  /** Entity handles; they are handed out in increasing order and never reused. */
  type EntityId = nat

  /** Growth state of a farm plot. */
  datatype Plot =
    | Empty
    | Growing(crop: CropType, progress: real)
    | Grown(crop: CropType)

  /** A button that chooses which crop gets planted. */
  datatype CropSelector = CropSelector(crop: CropType, selected: bool)

  /** Linear interpolation between two points over a wall-clock interval. */
  datatype Tween = Linear(start: Vec2, end: Vec2, startTime: real, endTime: real)

  /** Every component an entity may carry; absence is `None` / `false`. */
  datatype Entity = Entity(
    parent: Option<EntityId>,
    position: Option<Vec2>,
    size: Option<Vec2>,
    mouseTarget: bool,
    hover: Option<Vec2>,
    plot: Option<Plot>,
    selector: Option<CropSelector>,
    indicator: Option<Item>,
    tween: Option<Tween>,
    tweenDone: bool,
    deposit: Option<CropType>)

  /** An entity with no components at all. */
  const Bare: Entity := Entity(None, None, None, false, None, None, None, None, None, false, None)

  /** The store: live entities and the next id the allocator hands out. */
  datatype World = World(entities: map<EntityId, Entity>, next: EntityId)

  ghost predicate KeysBelow(w: World)
  {
    forall id | id in w.entities :: id < w.next
  }

  /** Every parent link points at a live entity created earlier, so the hierarchy is a forest. */
  ghost predicate ParentsPrecede(w: World)
  {
    forall id | id in w.entities && w.entities[id].parent.Some? ::
      w.entities[id].parent.value in w.entities && w.entities[id].parent.value < id
  }

  /** No entity hangs below an animated or short-lived effect entity. */
  ghost predicate ParentsAreStatic(w: World)
  {
    forall id | id in w.entities && w.entities[id].parent.Some? && w.entities[id].parent.value in w.entities ::
      w.entities[w.entities[id].parent.value].tween.None? && w.entities[w.entities[id].parent.value].deposit.None?
  }

  /** Every tween runs over a non-empty time interval. */
  ghost predicate TweensTimed(w: World)
  {
    forall id | id in w.entities && w.entities[id].tween.Some? ::
      w.entities[id].tween.value.startTime < w.entities[id].tween.value.endTime
  }

  /** A deposit effect always carries the tween that animates it and its position. */
  ghost predicate EffectsShaped(w: World)
  {
    forall id | id in w.entities && w.entities[id].deposit.Some? ::
      w.entities[id].tween.Some? && w.entities[id].position.Some?
  }

  /** The consistency the store keeps between frames. */
  ghost predicate WellFormed(w: World)
  {
    KeysBelow(w) && ParentsPrecede(w) && ParentsAreStatic(w) && TweensTimed(w) && EffectsShaped(w)
  }

  /**
   * The first entity, in ascending id order from `i`, whose components satisfy
   * `p`: the deterministic stand-in for "the first result of a query".
   */
  function FirstFrom(w: World, p: Entity -> bool, i: nat): (r: Option<EntityId>)
    ensures r.Some? ==> i <= r.value && r.value in w.entities && p(w.entities[r.value])
    ensures r.Some? ==> forall j | i <= j < r.value && j in w.entities :: !p(w.entities[j])
    ensures r.None? ==> forall j | i <= j < w.next && j in w.entities :: !p(w.entities[j])
    decreases w.next - i
  {
    if i >= w.next then None
    else if i in w.entities && p(w.entities[i]) then Some(i)
    else FirstFrom(w, p, i + 1)
  }

  /** The least-id entity satisfying `p`, or `None` when no entity does. */
  function First(w: World, p: Entity -> bool): (r: Option<EntityId>)
    requires KeysBelow(w)
    ensures r.Some? ==> r.value in w.entities && p(w.entities[r.value])
    ensures r.Some? ==> forall j | j in w.entities && j < r.value :: !p(w.entities[j])
    ensures r.None? <==> forall j | j in w.entities :: !p(w.entities[j])
  {
    FirstFrom(w, p, 0)
  }

  /** The least-id entity satisfying `p` is exactly what `First` returns. */
  lemma FirstIsLeast(w: World, p: Entity -> bool, id: EntityId)
    requires KeysBelow(w) && id in w.entities && p(w.entities[id])
    requires forall j | j in w.entities && j < id :: !p(w.entities[j])
    ensures First(w, p) == Some(id)
  {
  }

  /** Stores with the same ids whose entities agree on every component the consistency rules read. */
  ghost predicate SameShape(w: World, r: World)
  {
    && r.next == w.next
    && r.entities.Keys == w.entities.Keys
    && forall id | id in w.entities ::
         && r.entities[id].parent == w.entities[id].parent
         && r.entities[id].position == w.entities[id].position
         && r.entities[id].tween == w.entities[id].tween
         && r.entities[id].deposit == w.entities[id].deposit
  }

  /** Changing only components the consistency rules ignore keeps the store well formed. */
  lemma SameShapeKeepsWellFormed(w: World, r: World)
    requires WellFormed(w) && SameShape(w, r)
    ensures WellFormed(r)
  {
    assert KeysBelow(r);
    assert ParentsPrecede(r);
    assert ParentsAreStatic(r);
    assert TweensTimed(r);
    assert EffectsShaped(r);
  }
}
