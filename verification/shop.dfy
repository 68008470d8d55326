/**
 * Storage indicators (storage.rs): locating the indicator of an item, and the
 * buy/sell buttons each indicator hosts.
 */
module Shop {
  import opened Base
  import opened Crops
  import opened Ledger
  import opened Store
  import opened Hierarchy

  /** An indicator that `find_storage_indicator_position` and `draw_storage` visit for `it`. */
  predicate ShowsItem(e: Entity, it: Item)
  {
    e.indicator == Some(it) && e.size.Some?
  }

  /** Centre of an entity's resolved box. */
  function Centre(w: World, id: EntityId): Vec2
    requires id in w.entities && ParentsPrecede(w) && w.entities[id].size.Some?
  {
    Add(Resolve(w, id), Scale(w.entities[id].size.value, 0.5))
  }

  /**
   * Where deposit effects for `it` fly to: the centre of the first indicator
   * showing `it`, or the origin when no indicator shows it.
   */
  function IndicatorPosition(w: World, it: Item): (r: Vec2)
    requires KeysBelow(w) && ParentsPrecede(w)
    ensures (forall id | id in w.entities :: !ShowsItem(w.entities[id], it)) ==> r == Zero
  {
    match First(w, e => ShowsItem(e, it))
    case None => Zero
    case Some(id) => Centre(w, id)
  }

  /** The indicator chosen is the least-id one showing the item. */
  lemma IndicatorPositionIsFirst(w: World, it: Item, id: EntityId)
    requires KeysBelow(w) && ParentsPrecede(w)
    requires id in w.entities && ShowsItem(w.entities[id], it)
    requires forall j | j in w.entities && j < id :: !ShowsItem(w.entities[j], it)
    ensures IndicatorPosition(w, it) == Centre(w, id)
  {
    FirstIsLeast(w, e => ShowsItem(e, it), id);
  }

  /**
   * The lower-left quarter of a box of extent `size`, in box-local pointer
   * coordinates, is where a shop button reacts.
   */
  function Targeted(mouse: Vec2, size: Vec2): (b: bool)
    ensures b ==> mouse != Zero
    ensures b ==> size.x > 0.0
  {
    mouse.y > size.y * 0.5 && mouse.x > 0.0 && mouse.x < size.x * 0.5
  }

  /** The sell button is the buy button shifted right by half the indicator's width. */
  function SellPointer(mouse: Vec2, size: Vec2): Vec2
  {
    Sub(mouse, Vec2(size.x * 0.5, 0.0))
  }

  /** The buy and sell buttons never react to the same pointer. */
  lemma BuySellExclusive(mouse: Vec2, size: Vec2)
    ensures !(Targeted(mouse, size) && Targeted(SellPointer(mouse, size), size))
  {
  }

  /** The pointer an indicator passes to its buttons: its hover, or the origin when not hovered. */
  function LocalPointer(e: Entity): (r: Vec2)
    ensures e.hover.Some? ==> r == e.hover.value
    ensures e.hover.None? ==> forall size: Vec2 {:trigger Targeted(r, size)} :: !Targeted(r, size)
  {
    match e.hover
    case None => Zero
    case Some(h) => h
  }

  /** Neither of the indicator's buttons reacts to the pointer it is given. */
  predicate Untargeted(e: Entity)
    requires e.size.Some?
  {
    !Targeted(LocalPointer(e), e.size.value) && !Targeted(SellPointer(LocalPointer(e), e.size.value), e.size.value)
  }

  /**
   * The ledger effect of one indicator's buy and sell buttons: a press in the
   * buy zone buys, a press in the sell zone sells, and otherwise nothing moves.
   */
  function ShopAt(s: Storage, e: Entity, pressed: bool): (r: Storage)
    requires e.indicator.Some? && e.size.Some?
    ensures forall other | other != e.indicator.value :: Amount(r, other) == Amount(s, other)
    ensures Holding(r, e.indicator.value) == Holding(s, e.indicator.value)
    ensures !pressed ==> r == s
    ensures pressed && Targeted(LocalPointer(e), e.size.value) ==> r == Buy(s, e.indicator.value)
    ensures pressed && Targeted(SellPointer(LocalPointer(e), e.size.value), e.size.value) ==>
              r == Sell(s, e.indicator.value)
    ensures Untargeted(e) ==> r == s
    ensures Valid(s) ==> Valid(r)
  {
    var it := e.indicator.value;
    var size := e.size.value;
    var mouse := LocalPointer(e);
    BuySellExclusive(mouse, size);
    var bought := if pressed && Targeted(mouse, size) then Buy(s, it) else s;
    TradesKeepValid(s, it);
    TradesKeepValid(bought, it);
    if pressed && Targeted(SellPointer(mouse, size), size) then Sell(bought, it) else bought
  }

  /** An indicator the pointer is not over never trades, whatever the button does. */
  lemma UnhoveredIndicatorIsInert(s: Storage, e: Entity, pressed: bool)
    requires e.indicator.Some? && e.size.Some? && e.hover.None?
    ensures Untargeted(e)
    ensures ShopAt(s, e, pressed) == s
  {
  }

  /** No indicator with id at least `i` has a button under its pointer. */
  ghost predicate QuietFrom(w: World, i: nat)
  {
    forall id | id in w.entities && i <= id && w.entities[id].indicator.Some? && w.entities[id].size.Some? ::
      Untargeted(w.entities[id])
  }

  /** Applies the buttons of every indicator with id at least `i`, in ascending id order. */
  function ShopFrom(w: World, s: Storage, pressed: bool, i: nat): (r: Storage)
    ensures Worth(r) == Worth(s)
    ensures !pressed ==> r == s
    ensures Valid(s) ==> Valid(r)
    ensures forall it | (forall id | id in w.entities && i <= id :: !ShowsItem(w.entities[id], it)) ::
              Amount(r, it) == Amount(s, it)
    ensures QuietFrom(w, i) ==> r == s
    decreases w.next - i
  {
    if i >= w.next then s
    else
      var s' :=
        if i in w.entities && w.entities[i].indicator.Some? && w.entities[i].size.Some?
        then ShopAt(s, w.entities[i], pressed) else s;
      WorthPreserved(s, s', if i in w.entities && w.entities[i].indicator.Some? then w.entities[i].indicator.value else Seed(Potato));
      ShopFrom(w, s', pressed, i + 1)
  }

  /** The shop pass of `draw_storage`: every indicator's buttons, in ascending id order. */
  function ShopPass(w: World, s: Storage, pressed: bool): (r: Storage)
    requires KeysBelow(w)
    ensures Worth(r) == Worth(s)
    ensures !pressed ==> r == s
    ensures Valid(s) ==> Valid(r)
    ensures forall it | (forall id | id in w.entities :: !ShowsItem(w.entities[id], it)) ::
              Amount(r, it) == Amount(s, it)
    ensures QuietFrom(w, 0) ==> r == s
  {
    ShopFrom(w, s, pressed, 0)
  }

  /** Indicators below `id` that the pointer is not over leave the pass from `i` unchanged. */
  lemma {:induction false} SkipInert(w: World, s: Storage, pressed: bool, i: nat, id: EntityId)
    requires i <= id
    requires forall j | j in w.entities && i <= j < id && w.entities[j].indicator.Some? :: w.entities[j].hover.None?
    ensures ShopFrom(w, s, pressed, i) == ShopFrom(w, s, pressed, id)
    decreases id - i
  {
    if i < id && i < w.next {
      if i in w.entities && w.entities[i].indicator.Some? && w.entities[i].size.Some? {
        UnhoveredIndicatorIsInert(s, w.entities[i], pressed);
      }
      SkipInert(w, s, pressed, i + 1, id);
    }
  }

  /**
   * With one hovered indicator, the whole shop pass trades exactly as that
   * indicator's buttons do: every other indicator is handed the origin.
   */
  lemma ShopPassIsHoveredIndicator(w: World, s: Storage, pressed: bool, id: EntityId)
    requires KeysBelow(w) && id in w.entities
    requires w.entities[id].indicator.Some? && w.entities[id].size.Some?
    requires forall j | j in w.entities && j != id && w.entities[j].indicator.Some? :: w.entities[j].hover.None?
    ensures ShopPass(w, s, pressed) == ShopAt(s, w.entities[id], pressed)
  {
    SkipInert(w, s, pressed, 0, id);
    var s' := ShopAt(s, w.entities[id], pressed);
    forall j | j in w.entities && id + 1 <= j && w.entities[j].indicator.Some? && w.entities[j].size.Some?
      ensures Untargeted(w.entities[j])
    {
      UnhoveredIndicatorIsInert(s', w.entities[j], pressed);
    }
    assert ShopFrom(w, s, pressed, id) == ShopFrom(w, s', pressed, id + 1);
  }
}
