/** The plot state machine (`manipulate_plots` and `update_plots` in main.rs). */
module Plots {
  import opened Base
  import opened Crops
  import opened Ledger
  import opened Store
  import opened Selection
  import opened Shop

  predicate IsHoveredPlot(e: Entity)
  {
    e.plot.Some? && e.hover.Some?
  }

  /** Plots that were empty in `w` and hold a fresh `k` crop in `w'`. */
  ghost function Planted(w: World, w': World, k: CropType): set<EntityId>
  {
    set id | id in w.entities && id in w'.entities
             && w.entities[id].plot == Some(Empty) && w'.entities[id].plot == Some(Growing(k, 0.0))
  }

  /** `id` is the least-id hovered plot, the one planting acts on. */
  ghost predicate IsPlantTarget(w: World, id: EntityId)
  {
    && id in w.entities
    && IsHoveredPlot(w.entities[id])
    && forall j | j in w.entities && j < id :: !IsHoveredPlot(w.entities[j])
  }

  /** Attempts to plant crop `c` on plot `id`: only an empty plot accepts, and only for a seed. */
  function PlantAt(w: World, s: Storage, id: EntityId, c: CropType): (r: (World, Storage))
    requires id in w.entities && w.entities[id].plot.Some?
    ensures r.0.next == w.next && r.0.entities.Keys == w.entities.Keys
    ensures forall j | j in w.entities && j != id :: r.0.entities[j] == w.entities[j]
    ensures r.0.entities[id] == w.entities[id].(plot := r.0.entities[id].plot)
    ensures r.0.entities[id] != w.entities[id] <==> w.entities[id].plot == Some(Empty) && Amount(s, Seed(c)) > 0
    ensures r.0.entities[id] != w.entities[id] ==> r.0.entities[id].plot == Some(Growing(c, 0.0))
    ensures forall k :: Amount(s, Seed(k)) - Amount(r.1, Seed(k)) == |Planted(w, r.0, k)|
    ensures forall k :: Amount(s, Seed(k)) <= 0 ==> Amount(r.1, Seed(k)) == Amount(s, Seed(k))
    ensures forall k :: Amount(r.1, Crop(k)) == Amount(s, Crop(k))
    ensures r.1.money == s.money
    ensures Valid(s) ==> Valid(r.1)
  {
    if w.entities[id].plot.value.Empty? then
      var amount := Amount(s, Seed(c));
      if amount > 0 then
        var w' := w.(entities := w.entities[id := w.entities[id].(plot := Some(Growing(c, 0.0)))]);
        assert Planted(w, w', c) == {id};
        assert forall k | k != c :: Planted(w, w', k) == {};
        (w', s.(items := s.items[Seed(c) := amount - 1]))
      else
        assert forall k :: Planted(w, w, k) == {};
        (w, s.(items := s.items[Seed(c) := amount]))
    else
      assert forall k :: Planted(w, w, k) == {};
      (w, s)
  }

  /**
   * Planting: while the button is held and a crop is selected, the first hovered
   * plot, if empty, starts growing that crop at the price of one seed.
   */
  function ManipulatePlots(w: World, s: Storage, held: bool): (r: (World, Storage))
    requires KeysBelow(w)
    ensures r.0.next == w.next && r.0.entities.Keys == w.entities.Keys
    ensures forall id | id in w.entities ::
              r.0.entities[id] == w.entities[id].(plot := r.0.entities[id].plot)
    ensures forall id | id in w.entities && r.0.entities[id] != w.entities[id] ::
              && held && IsPlantTarget(w, id)
              && w.entities[id].plot == Some(Empty)
              && FindSelectedCrop(w).Some?
              && r.0.entities[id].plot == Some(Growing(FindSelectedCrop(w).value, 0.0))
    ensures forall k :: Amount(s, Seed(k)) - Amount(r.1, Seed(k)) == |Planted(w, r.0, k)|
    ensures forall k :: Amount(s, Seed(k)) <= 0 ==> Amount(r.1, Seed(k)) == Amount(s, Seed(k))
    ensures forall k :: Amount(r.1, Crop(k)) == Amount(s, Crop(k))
    ensures r.1.money == s.money
    ensures !held || FindSelectedCrop(w).None? ==> r == (w, s)
    ensures (forall id | id in w.entities && IsHoveredPlot(w.entities[id]) :: w.entities[id].plot != Some(Empty)) ==> r.0 == w
    ensures Valid(s) ==> Valid(r.1)
  {
    if !held then
      assert forall k :: Planted(w, w, k) == {};
      (w, s)
    else
      match FindSelectedCrop(w)
      case None =>
        assert forall k :: Planted(w, w, k) == {};
        (w, s)
      case Some(c) =>
        match First(w, IsHoveredPlot)
        case None =>
          assert forall k :: Planted(w, w, k) == {};
          (w, s)
        case Some(id) => PlantAt(w, s, id, c)
  }

  /** Planting changes only a plot component, so the store stays well formed. */
  lemma ManipulatePlotsWellFormed(w: World, s: Storage, held: bool)
    requires WellFormed(w)
    ensures WellFormed(ManipulatePlots(w, s, held).0)
  {
    ReplotKeepsWellFormed(w, ManipulatePlots(w, s, held).0);
  }

  /**
   * While the button is held, the first hovered plot, when empty, takes the
   * selected crop as soon as a seed of it is in stock.
   */
  lemma ManipulatePlotsPlants(w: World, s: Storage, id: EntityId, c: CropType)
    requires KeysBelow(w) && IsPlantTarget(w, id) && w.entities[id].plot == Some(Empty)
    requires FindSelectedCrop(w) == Some(c) && Amount(s, Seed(c)) > 0
    ensures ManipulatePlots(w, s, true).0.entities[id].plot == Some(Growing(c, 0.0))
  {
    FirstIsLeast(w, IsHoveredPlot, id);
  }

  /** A plot the update pass converts: grown, and carrying the size the pass queries for. */
  predicate Harvestable(e: Entity)
  {
    e.plot.Some? && e.plot.value.Grown? && e.size.Some?
  }

  ghost function Harvests(w: World): set<EntityId>
  {
    set id | id in w.entities && Harvestable(w.entities[id])
  }

  /** The harvestable plots with id at least `i`, in ascending id order. */
  function GrownOrder(w: World, i: nat): (g: seq<EntityId>)
    ensures forall k | 0 <= k < |g| :: g[k] in w.entities && i <= g[k] && Harvestable(w.entities[g[k]])
    ensures forall k, l | 0 <= k < l < |g| :: g[k] < g[l]
    decreases w.next - i
  {
    if i >= w.next then []
    else if i in w.entities && Harvestable(w.entities[i]) then [i] + GrownOrder(w, i + 1)
    else GrownOrder(w, i + 1)
  }

  /** Every harvestable plot from `i` on appears in the harvest order. */
  lemma {:induction false} GrownOrderCovers(w: World, i: nat, id: EntityId)
    requires id in w.entities && i <= id < w.next && Harvestable(w.entities[id])
    ensures id in GrownOrder(w, i)
    decreases w.next - i
  {
    if i < id {
      GrownOrderCovers(w, i + 1, id);
    }
  }

  /** The harvestable plots with id at least `i`. */
  ghost function HarvestsFrom(w: World, i: nat): set<EntityId>
  {
    set id | id in w.entities && i <= id && Harvestable(w.entities[id])
  }

  /** The harvest order from `i` lists exactly as many plots as are harvestable from `i`. */
  lemma {:induction false} GrownOrderCountsFrom(w: World, i: nat)
    requires KeysBelow(w)
    ensures |GrownOrder(w, i)| == |HarvestsFrom(w, i)|
    decreases w.next - i
  {
    if i >= w.next {
      assert HarvestsFrom(w, i) == {};
    } else {
      GrownOrderCountsFrom(w, i + 1);
      if i in w.entities && Harvestable(w.entities[i]) {
        assert HarvestsFrom(w, i) == HarvestsFrom(w, i + 1) + {i};
        assert i !in HarvestsFrom(w, i + 1);
      } else {
        assert HarvestsFrom(w, i) == HarvestsFrom(w, i + 1);
      }
    }
  }

  /** The harvest order lists every harvestable plot exactly once. */
  lemma GrownOrderCountsHarvests(w: World)
    requires KeysBelow(w)
    ensures |GrownOrder(w, 0)| == |Harvests(w)|
  {
    GrownOrderCountsFrom(w, 0);
    assert HarvestsFrom(w, 0) == Harvests(w);
  }

  /** One frame of growth or harvest for a plot state. */
  function NextPlot(pl: Plot, dt: real): (r: Plot)
    ensures !pl.Growing? ==> r == Empty
    ensures pl.Growing? ==> !r.Empty? && r.crop == pl.crop && (r.Grown? <==> pl.progress + dt / GrowDuration(pl.crop) >= 1.0)
    ensures r.Growing? ==> r.progress < 1.0
  {
    match pl
    case Empty => Empty
    case Growing(c, p) =>
      var q := p + dt / GrowDuration(c);
      if q >= 1.0 then Grown(c) else Growing(c, q)
    case Grown(c) => Empty
  }

  /** One frame of growth or harvest for a plot entity. */
  function StepPlot(e: Entity, dt: real): (r: Entity)
    requires e.plot.Some?
  {
    e.(plot := Some(NextPlot(e.plot.value, dt)))
  }

  /** Total of a sequence of frame times. */
  function Sum(dts: seq<real>): real
  {
    if |dts| == 0 then 0.0 else Sum(dts[..|dts| - 1]) + dts[|dts| - 1]
  }

  /** The plot state after one update pass per frame time in `dts`. */
  function Grow(pl: Plot, dts: seq<real>): Plot
  {
    if |dts| == 0 then pl else NextPlot(Grow(pl, dts[..|dts| - 1]), dts[|dts| - 1])
  }

  lemma {:induction false} SumMonotone(dts: seq<real>, n: nat)
    requires n <= |dts|
    requires forall i | 0 <= i < |dts| :: dts[i] >= 0.0
    ensures Sum(dts[..n]) <= Sum(dts)
    decreases |dts|
  {
    if n < |dts| {
      var last := |dts| - 1;
      assert dts[..last][..n] == dts[..n];
      SumMonotone(dts[..last], n);
    } else {
      assert dts[..n] == dts;
    }
  }

  /**
   * Growth adds up over frames: with non-negative frame times, and a plot that
   * has not matured before the last frame (the pass after maturing empties it),
   * a plot at progress `p` is grown after the frames exactly when `p` plus the
   * summed time over the crop's duration reaches one, and otherwise holds that
   * progress.
   */
  lemma {:induction false} GrowthAccumulates(c: CropType, p: real, dts: seq<real>)
    requires forall i | 0 <= i < |dts| :: dts[i] >= 0.0
    requires |dts| > 0 ==> p + Sum(dts[..|dts| - 1]) / GrowDuration(c) < 1.0
    requires p < 1.0
    ensures Grow(Growing(c, p), dts) ==
              if p + Sum(dts) / GrowDuration(c) >= 1.0 then Grown(c) else Growing(c, p + Sum(dts) / GrowDuration(c))
    decreases |dts|
  {
    if |dts| > 0 {
      var last := |dts| - 1;
      var prefix := dts[..last];
      if last > 0 {
        SumMonotone(prefix, last - 1);
        assert prefix[..last - 1] == dts[..last - 1];
      }
      GrowthAccumulates(c, p, prefix);
      DivideSum(Sum(prefix), dts[last], GrowDuration(c));
    }
  }

  lemma DivideSum(a: real, b: real, d: real)
    requires d > 0.0
    ensures (a + b) / d == a / d + b / d
  {
  }

  /** Progress never decreases, and the plot matures exactly when progress reaches one. */
  lemma GrowthStep(e: Entity, dt: real, c: CropType, p: real)
    requires e.plot == Some(Growing(c, p)) && dt >= 0.0
    ensures StepPlot(e, dt).plot == Some(Grown(c)) <==> p + dt / GrowDuration(c) >= 1.0
    ensures forall q :: StepPlot(e, dt).plot == Some(Growing(c, q)) ==> p <= q < 1.0
    ensures StepPlot(e, dt).plot.value.crop == c
  {
  }

  /**
   * The deposit effect a harvested plot spawns: it carries the crop and flies
   * from the plot's centre to the crop's storage indicator over half a second.
   */
  function SpawnedEffect(w: World, id: EntityId, now: real): (r: Entity)
    requires KeysBelow(w) && ParentsPrecede(w) && id in w.entities && Harvestable(w.entities[id])
    ensures r.deposit.Some? && r.tween.Some? && r.position.Some? && r.parent.None?
    ensures r.tween.value.startTime < r.tween.value.endTime
  {
    var c := w.entities[id].plot.value.crop;
    var start := Centre(w, id);
    Bare.(position := Some(start),
          tween := Some(Linear(start, IndicatorPosition(w, Crop(c)), now, now + 0.5)),
          deposit := Some(c))
  }

  /**
   * The effect a harvest spawns carries the plot's crop and flies from the
   * plot's centre to the crop's indicator, starting now and lasting half a second.
   */
  lemma SpawnedEffectFields(w: World, id: EntityId, now: real)
    requires KeysBelow(w) && ParentsPrecede(w) && id in w.entities && Harvestable(w.entities[id])
    ensures var r := SpawnedEffect(w, id, now);
      && r.deposit == Some(w.entities[id].plot.value.crop)
      && r.tween.Some? && r.tween.value.startTime == now && r.tween.value.endTime == now + 0.5
      && r.tween.value.start == Centre(w, id) && r.position == Some(Centre(w, id))
      && r.tween.value.end == IndicatorPosition(w, Crop(w.entities[id].plot.value.crop))
      && r.parent.None? && !r.mouseTarget && r.hover.None? && r.selector.None? && !r.tweenDone
  {
  }

  /**
   * What the update pass does to one entity: a plot that has a size takes one
   * growth or harvest step, anything else is left alone.
   */
  function Advance(e: Entity, dt: real): (r: Entity)
    ensures r == e.(plot := r.plot)
    ensures e.plot.Some? && e.plot.value.Growing? && e.size.Some? ==>
              var q := e.plot.value.progress + dt / GrowDuration(e.plot.value.crop);
              r.plot == Some(if q >= 1.0 then Grown(e.plot.value.crop) else Growing(e.plot.value.crop, q))
    ensures Harvestable(e) ==> r.plot == Some(Empty)
    ensures e.plot.None? || e.plot == Some(Empty) || e.size.None? ==> r == e
  {
    if e.plot.Some? && e.size.Some? then StepPlot(e, dt) else e
  }

  function StepPlots(w: World, dt: real): (m: map<EntityId, Entity>)
    ensures m.Keys == w.entities.Keys
    ensures forall id | id in w.entities :: m[id] == Advance(w.entities[id], dt)
  {
    map id | id in w.entities :: Advance(w.entities[id], dt)
  }

  /** The effects the update pass spawns, one per harvest in ascending plot order. */
  function HarvestEffects(w: World, now: real): (es: seq<Entity>)
    requires KeysBelow(w) && ParentsPrecede(w)
    ensures |es| == |GrownOrder(w, 0)| == |Harvests(w)|
    ensures forall k | 0 <= k < |es| :: es[k] == SpawnedEffect(w, GrownOrder(w, 0)[k], now)
    ensures forall k | 0 <= k < |es| :: FreshShape(es[k])
  {
    GrownOrderCountsHarvests(w);
    var g := GrownOrder(w, 0);
    forall k | 0 <= k < |g|
      ensures FreshShape(SpawnedEffect(w, g[k], now))
    {
      SpawnedEffectFields(w, g[k], now);
    }
    seq(|g|, k requires 0 <= k < |g| => SpawnedEffect(w, g[k], now))
  }

  /** The shape of a spawned effect: parentless, unselectable, with a position and a timed tween. */
  ghost predicate FreshShape(e: Entity)
  {
    && e.parent.None? && e.selector.None?
    && e.tween.Some? && e.position.Some?
    && e.tween.value.startTime < e.tween.value.endTime
  }

  /** Spawns `es` under consecutive fresh ids starting at `base`. */
  function Place(base: EntityId, es: seq<Entity>): (m: map<EntityId, Entity>)
    ensures forall id :: id in m <==> base <= id < base + |es|
    ensures forall k | 0 <= k < |es| :: m[base + k] == es[k]
    decreases |es|
  {
    if |es| == 0 then map[]
    else
      var last := |es| - 1;
      Place(base, es[..last])[base + last := es[last]]
  }

  /**
   * The update pass: growing plots advance by `dt` over their crop's duration,
   * and each plot that was grown at the start of the pass is emptied and spawns
   * one deposit effect; effects get fresh ids in ascending order of their plots.
   */
  function UpdatePlots(w: World, dt: real, now: real): (r: World)
    requires KeysBelow(w) && ParentsPrecede(w)
    ensures r.next == w.next + |Harvests(w)|
    ensures forall id :: id in r.entities <==> id in w.entities || w.next <= id < r.next
    ensures forall id | id in w.entities :: r.entities[id] == Advance(w.entities[id], dt)
    ensures forall k | 0 <= k < |HarvestEffects(w, now)| ::
              w.next + k in r.entities && r.entities[w.next + k] == HarvestEffects(w, now)[k]
    ensures forall id | id in r.entities && id !in w.entities :: FreshEffect(w, r, id)
  {
    AssembleKeys(w, dt, now);
    AssembleOld(w, dt, now);
    AssembleNew(w, dt, now);
    AssembleFresh(w, dt, now);
    Assemble(w, dt, now)
  }

  /** The store after the update pass: stepped plots plus the spawned effects. */
  function Assemble(w: World, dt: real, now: real): World
    requires KeysBelow(w) && ParentsPrecede(w)
  {
    World(StepPlots(w, dt) + Place(w.next, HarvestEffects(w, now)), w.next + |HarvestEffects(w, now)|)
  }

  lemma AssembleKeys(w: World, dt: real, now: real)
    requires KeysBelow(w) && ParentsPrecede(w)
    ensures Assemble(w, dt, now).next == w.next + |Harvests(w)|
    ensures forall id :: id in Assemble(w, dt, now).entities <==> id in w.entities || w.next <= id < Assemble(w, dt, now).next
  {
  }

  /** Appending placed entities above every existing id keeps the old ones and adds the new ones in order. */
  lemma PlaceAbove(m: map<EntityId, Entity>, base: EntityId, es: seq<Entity>)
    requires forall id | id in m :: id < base
    ensures forall id | id in m :: id in m + Place(base, es) && (m + Place(base, es))[id] == m[id]
    ensures forall k | 0 <= k < |es| :: base + k in m + Place(base, es) && (m + Place(base, es))[base + k] == es[k]
    ensures forall id | id in m + Place(base, es) && id !in m ::
              base <= id < base + |es| && (m + Place(base, es))[id] == es[id - base]
  {
    var placed := Place(base, es);
    assert forall id | id in m :: id !in placed;
    forall id | id in m + placed && id !in m
      ensures base <= id < base + |es| && (m + placed)[id] == es[id - base]
    {
      var k := id - base;
      assert id == base + k && placed[base + k] == es[k];
    }
  }

  lemma AssembleOld(w: World, dt: real, now: real)
    requires KeysBelow(w) && ParentsPrecede(w)
    ensures forall id | id in w.entities ::
              id in Assemble(w, dt, now).entities && Assemble(w, dt, now).entities[id] == Advance(w.entities[id], dt)
  {
    PlaceAbove(StepPlots(w, dt), w.next, HarvestEffects(w, now));
  }

  lemma AssembleNew(w: World, dt: real, now: real)
    requires KeysBelow(w) && ParentsPrecede(w)
    ensures forall k | 0 <= k < |HarvestEffects(w, now)| ::
              w.next + k in Assemble(w, dt, now).entities
              && Assemble(w, dt, now).entities[w.next + k] == HarvestEffects(w, now)[k]
  {
    PlaceAbove(StepPlots(w, dt), w.next, HarvestEffects(w, now));
  }

  lemma AssembleFresh(w: World, dt: real, now: real)
    requires KeysBelow(w) && ParentsPrecede(w)
    ensures forall id | id in Assemble(w, dt, now).entities && id !in w.entities :: FreshEffect(w, Assemble(w, dt, now), id)
  {
    var m := StepPlots(w, dt);
    var es := HarvestEffects(w, now);
    forall id | id in m + Place(w.next, es) && id !in m
      ensures w.next <= id < w.next + |es| && FreshShape((m + Place(w.next, es))[id])
    {
      PlacedIsFresh(m, w.next, es, id);
    }
  }

  /** An id above every old one holds one of the placed entities, each of which is freshly shaped. */
  lemma PlacedIsFresh(m: map<EntityId, Entity>, base: EntityId, es: seq<Entity>, id: EntityId)
    requires forall i | i in m :: i < base
    requires forall k | 0 <= k < |es| :: FreshShape(es[k])
    requires id in m + Place(base, es) && id !in m
    ensures base <= id < base + |es| && FreshShape((m + Place(base, es))[id])
  {
    PlaceAbove(m, base, es);
  }

  /** The update pass keeps the store well formed. */
  lemma UpdatePlotsWellFormed(w: World, dt: real, now: real)
    requires WellFormed(w)
    ensures WellFormed(UpdatePlots(w, dt, now))
  {
    ReplotKeepsWellFormed(w, UpdatePlots(w, dt, now));
  }

  /** `id` is a new entity of `r`: a parentless, timed effect with a fresh id. */
  ghost predicate FreshEffect(w: World, r: World, id: EntityId)
    requires id in r.entities
  {
    && w.next <= id < r.next
    && FreshShape(r.entities[id])
  }

  /** Changing plot components and adding fresh effects keeps a store well formed. */
  lemma ReplotKeepsWellFormed(w: World, r: World)
    requires WellFormed(w)
    requires forall id | id in w.entities :: id in r.entities && r.entities[id] == w.entities[id].(plot := r.entities[id].plot)
    requires forall id | id in r.entities && id !in w.entities :: FreshEffect(w, r, id)
    requires w.next <= r.next
    ensures WellFormed(r)
  {
    assert KeysBelow(r);
    assert ParentsPrecede(r);
    assert ParentsAreStatic(r);
    assert TweensTimed(r);
    assert EffectsShaped(r);
  }
}
