/** Worked frames over a two-entity farm: one plot and one crop selector. */
module Scenarios {
  import opened Base
  import opened Crops
  import opened Ledger
  import opened Store
  import opened Selection
  import opened Plots

  /** An empty, hovered 64x64 plot at the origin. */
  const HoveredPlot: Entity :=
    Bare.(position := Some(Zero), size := Some(Vec2(64.0, 64.0)), mouseTarget := true,
          hover := Some(Vec2(1.0, 1.0)), plot := Some(Empty))

  /** A selected Potato selector. */
  const PotatoSelector: Entity := Bare.(selector := Some(CropSelector(Potato, true)))

  function Farm(plot: Entity): World
  {
    World(map[0 := plot, 1 := PotatoSelector], 2)
  }

  /** A Potato plot that has just been planted. */
  const SownPlot: Entity := HoveredPlot.(plot := Some(Growing(Potato, 0.0)))

  /** With the button held, the farm's selector picks Potato and its plot is the one clicked. */
  lemma FarmClicksItsPlot(p: Entity, s: Storage)
    requires IsHoveredPlot(p) && p.selector.None?
    ensures ManipulatePlots(Farm(p), s, true) == PlantAt(Farm(p), s, 0, Potato)
  {
    var w := Farm(p);
    assert FindSelectedCrop(w) == Some(Potato) by {
      FindSelectedIsUnique(w, 1);
    }
    FirstIsLeast(w, IsHoveredPlot, 0);
  }

  /** Planting Potato with one seed in stock starts the hovered plot growing and uses the seed up. */
  lemma PlantOnceWithOneSeed()
    ensures var r := ManipulatePlots(Farm(HoveredPlot), Storage(0, map[Seed(Potato) := 1]), true);
            && r.0 == Farm(SownPlot)
            && Amount(r.1, Seed(Potato)) == 0
  {
    FarmClicksItsPlot(HoveredPlot, Storage(0, map[Seed(Potato) := 1]));
    FarmReplot(HoveredPlot, SownPlot);
  }

  /** Replacing the farm's plot entity gives the farm with the new plot. */
  lemma FarmReplot(p: Entity, q: Entity)
    ensures Farm(p).(entities := Farm(p).entities[0 := q]) == Farm(q)
  {
    assert Farm(p).entities[0 := q] == Farm(q).entities;
  }

  /** Holding the button over a plot that is already growing changes neither the farm nor the ledger. */
  lemma SownPlotIgnoresClicks(s: Storage)
    ensures ManipulatePlots(Farm(SownPlot), s, true) == (Farm(SownPlot), s)
  {
    FarmClicksItsPlot(SownPlot, s);
  }

  /** A plot at progress 0.999 given a frame worth 0.002 of its growth matures, but stays in place. */
  lemma Matures(now: real)
    ensures var w := Farm(HoveredPlot.(plot := Some(Growing(Potato, 0.999))));
            var w1 := UpdatePlots(w, 0.01, now);
            && 0 in w1.entities && w1.entities[0] == HoveredPlot.(plot := Some(Grown(Potato)))
            && 1 in w1.entities && w1.entities[1] == PotatoSelector
            && w1.next == w.next
  {
    var w := Farm(HoveredPlot.(plot := Some(Growing(Potato, 0.999))));
    assert Harvests(w) == {} by {
      forall id | id in w.entities
        ensures !Harvestable(w.entities[id])
      {
      }
    }
    var w1 := UpdatePlots(w, 0.01, now);
    assert w1.entities[0] == Advance(w.entities[0], 0.01);
    assert w1.entities[1] == Advance(w.entities[1], 0.01);
  }

  /** The next update pass empties the grown plot and spawns exactly one Potato effect. */
  lemma HarvestsOnNextPass(now: real)
    ensures var w := Farm(HoveredPlot.(plot := Some(Grown(Potato))));
            var w2 := UpdatePlots(w, 0.01, now);
            && 0 in w2.entities && w2.entities[0].plot == Some(Empty)
            && w2.next == w.next + 1
            && w.next in w2.entities && w2.entities[w.next].deposit == Some(Potato)
            && w2.entities[w.next].tween.Some? && w2.entities[w.next].tween.value.endTime == now + 0.5
  {
    var w := Farm(HoveredPlot.(plot := Some(Grown(Potato))));
    assert Harvests(w) == {0};
    assert GrownOrder(w, 0) == [0] by {
      var g := GrownOrder(w, 0);
      GrownOrderCountsHarvests(w);
      assert forall k | 0 <= k < |g| :: g[k] == 0;
    }
    var w2 := UpdatePlots(w, 0.01, now);
    assert w2.entities[0] == Advance(w.entities[0], 0.01);
    assert w2.entities[w.next] == HarvestEffects(w, now)[0];
  }
}
