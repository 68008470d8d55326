/** The hover detector (`handle_mouse` and `MouseHover` in mouse.rs). */
module Mouse {
  import opened Base
  import opened Store
  import opened Hierarchy

  /** Carries the components `handle_mouse` queries for: a size, a position and the target marker. */
  predicate Hoverable(e: Entity)
  {
    e.size.Some? && e.position.Some? && e.mouseTarget
  }

  /** The pointer lies strictly inside the box with top-left `corner` and extent `size`. */
  predicate InsideBox(m: Vec2, corner: Vec2, size: Vec2)
  {
    corner.x < m.x < corner.x + size.x && corner.y < m.y < corner.y + size.y
  }

  /** The hover component an entity receives for pointer `m`. */
  function HoverOf(w: World, id: EntityId, m: Vec2): (r: Option<Vec2>)
    requires id in w.entities && ParentsPrecede(w)
    ensures r.Some? <==> Hoverable(w.entities[id]) && InsideBox(m, Resolve(w, id), w.entities[id].size.value)
    ensures r.Some? ==> Add(Resolve(w, id), r.value) == m
  {
    var e := w.entities[id];
    if Hoverable(e) then
      var pos := Resolve(w, id);
      var rx := m.x - pos.x;
      var ry := m.y - pos.y;
      if rx > 0.0 && rx < e.size.value.x && ry > 0.0 && ry < e.size.value.y then Some(Vec2(rx, ry))
      else None
    else None
  }

  /**
   * Recomputes the hover set: every old hover is dropped and every hoverable
   * entity whose resolved box strictly contains the pointer gets a fresh one.
   */
  function HandleMouse(w: World, m: Vec2): (r: World)
    requires ParentsPrecede(w)
    ensures r.next == w.next && r.entities.Keys == w.entities.Keys
    ensures forall id | id in w.entities :: r.entities[id] == w.entities[id].(hover := r.entities[id].hover)
    ensures forall id | id in w.entities ::
              r.entities[id].hover.Some? <==>
                Hoverable(w.entities[id]) && InsideBox(m, Resolve(w, id), w.entities[id].size.value)
    ensures forall id | id in w.entities && r.entities[id].hover.Some? ::
              Add(Resolve(w, id), r.entities[id].hover.value) == m
    ensures WellFormed(w) ==> WellFormed(r)
  {
    World(map id | id in w.entities :: w.entities[id].(hover := HoverOf(w, id, m)), w.next)
  }

  /** Stores that differ at most in their hover components. */
  ghost predicate SameButHover(w: World, w': World)
  {
    && w.next == w'.next
    && w.entities.Keys == w'.entities.Keys
    && forall id | id in w.entities :: w'.entities[id] == w.entities[id].(hover := w'.entities[id].hover)
  }

  /** The result does not depend on which entities were hovered before. */
  lemma HandleMouseForgetsPast(w: World, w': World, m: Vec2)
    requires ParentsPrecede(w) && SameButHover(w, w')
    ensures ParentsPrecede(w')
    ensures HandleMouse(w, m) == HandleMouse(w', m)
  {
    SameHovers(w, w', m);
    assert HandleMouse(w, m).entities == HandleMouse(w', m).entities;
  }

  /** Stores that differ only in hovers resolve every entity to the same hover. */
  lemma SameHovers(w: World, w': World, m: Vec2)
    requires ParentsPrecede(w) && SameButHover(w, w')
    ensures ParentsPrecede(w')
    ensures forall id | id in w.entities :: HoverOf(w, id, m) == HoverOf(w', id, m)
  {
    assert SameLayout(w, w');
    forall id | id in w.entities
      ensures HoverOf(w, id, m) == HoverOf(w', id, m)
    {
      ResolveRespectsLayout(w, w', id);
    }
  }

  /** Running the detector twice with the same pointer gives the same store. */
  lemma HandleMouseIdempotent(w: World, m: Vec2)
    requires ParentsPrecede(w)
    ensures HandleMouse(HandleMouse(w, m), m) == HandleMouse(w, m)
  {
    HandleMouseForgetsPast(w, HandleMouse(w, m), m);
  }
}
