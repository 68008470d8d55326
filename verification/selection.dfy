/** Exclusive crop selection (`select_crop_type` and `find_selected_crop` in main.rs). */
module Selection {
  import opened Base
  import opened Crops
  import opened Store

  predicate IsHoveredSelector(e: Entity)
  {
    e.hover.Some? && e.selector.Some?
  }

  predicate IsSelected(e: Entity)
  {
    e.selector.Some? && e.selector.value.selected
  }

  /** At most one selector in the store has its flag set. */
  ghost predicate AtMostOneSelected(w: World)
  {
    forall a, b | a in w.entities && b in w.entities && IsSelected(w.entities[a]) && IsSelected(w.entities[b]) :: a == b
  }

  /** `id` is the least-id hovered selector. */
  ghost predicate IsChosenSelector(w: World, id: EntityId)
  {
    && id in w.entities
    && IsHoveredSelector(w.entities[id])
    && forall j | j in w.entities && j < id :: !IsHoveredSelector(w.entities[j])
  }

  /** Rewrites every selector's flag to whether it is the entity `e`. */
  function SelectOnly(w: World, e: EntityId): (r: World)
    ensures r.next == w.next && r.entities.Keys == w.entities.Keys
    ensures forall id | id in w.entities ::
              && r.entities[id] == w.entities[id].(selector := r.entities[id].selector)
              && r.entities[id].selector.Some? == w.entities[id].selector.Some?
              && (r.entities[id].selector.Some? ==> r.entities[id].selector.value.crop == w.entities[id].selector.value.crop)
              && (IsSelected(r.entities[id]) <==> id == e && w.entities[id].selector.Some?)
  {
    World(
      map id | id in w.entities ::
        if w.entities[id].selector.Some? then
          w.entities[id].(selector := Some(w.entities[id].selector.value.(selected := id == e)))
        else w.entities[id],
      w.next)
  }

  /**
   * On a press, the first hovered selector becomes the selected one and every
   * other selector is deselected; otherwise nothing changes.
   */
  function SelectCropType(w: World, pressed: bool): (r: World)
    requires KeysBelow(w)
    ensures r.next == w.next && r.entities.Keys == w.entities.Keys
    ensures forall id | id in w.entities ::
              r.entities[id] == w.entities[id].(selector := r.entities[id].selector)
    ensures forall id | id in w.entities ::
              && r.entities[id].selector.Some? == w.entities[id].selector.Some?
              && (r.entities[id].selector.Some? ==> r.entities[id].selector.value.crop == w.entities[id].selector.value.crop)
    ensures !pressed ==> r == w
    ensures (forall id | id in w.entities :: !IsHoveredSelector(w.entities[id])) ==> r == w
    ensures forall c | IsChosenSelector(w, c) && pressed ::
              forall id | id in w.entities :: IsSelected(r.entities[id]) <==> id == c
    ensures AtMostOneSelected(w) ==> AtMostOneSelected(r)
  {
    if !pressed then w
    else
      match First(w, IsHoveredSelector)
      case None => w
      case Some(e) => SelectOnly(w, e)
  }

  /** Selection touches only selector flags, so the store stays well formed. */
  lemma SelectCropTypeWellFormed(w: World, pressed: bool)
    requires WellFormed(w)
    ensures WellFormed(SelectCropType(w, pressed))
  {
    SameShapeKeepsWellFormed(w, SelectCropType(w, pressed));
  }

  /** The crop of the first selected selector, if any selector is selected. */
  function FindSelectedCrop(w: World): (r: Option<CropType>)
    requires KeysBelow(w)
    ensures r.None? <==> forall id | id in w.entities :: !IsSelected(w.entities[id])
    ensures r.Some? ==> exists id | id in w.entities :: IsSelected(w.entities[id]) && w.entities[id].selector.value.crop == r.value
  {
    match First(w, IsSelected)
    case None => None
    case Some(id) => Some(w.entities[id].selector.value.crop)
  }

  /** After a press on a selector, the selected crop is that selector's crop. */
  lemma SelectThenFind(w: World, c: EntityId)
    requires KeysBelow(w) && IsChosenSelector(w, c)
    ensures FindSelectedCrop(SelectCropType(w, true)) == Some(w.entities[c].selector.value.crop)
  {
    var r := SelectCropType(w, true);
    assert IsSelected(r.entities[c]);
  }

  /** Under exclusivity, the found crop is the crop of the one selected selector. */
  lemma FindSelectedIsUnique(w: World, id: EntityId)
    requires KeysBelow(w) && AtMostOneSelected(w)
    requires id in w.entities && IsSelected(w.entities[id])
    ensures FindSelectedCrop(w) == Some(w.entities[id].selector.value.crop)
  {
  }

  /** A step that keeps or drops selector components, or adds entities without one, keeps exclusivity. */
  lemma SelectorsKept(w: World, r: World)
    requires AtMostOneSelected(w)
    requires forall id | id in r.entities ::
               r.entities[id].selector.None? || (id in w.entities && r.entities[id].selector == w.entities[id].selector)
    ensures AtMostOneSelected(r)
  {
    forall a, b | a in r.entities && b in r.entities && IsSelected(r.entities[a]) && IsSelected(r.entities[b])
      ensures a == b
    {
      assert IsSelected(w.entities[a]) && IsSelected(w.entities[b]);
    }
  }
}
