# Farming sandbox core in Dafny

This project models the simulation core of a small farming sandbox. The program is written in Rust on an
entity-component store. The player has the following:

- a grid of plots that can be planted with a selected crop (Potato or Onion);
- crops that grow over time;
- grown plots that, on the next update pass, are emptied and spawn a "deposit effect" that flies to the
  crop's storage indicator and is credited to the ledger when it lands;
- an integer ledger of money and item quantities, with buy and sell buttons on every storage indicator.

The store is modelled as an immutable `World`. It is a finite map from entity ids to `Entity` records, and
each component is an `Option` field. Ids come from a counter and are never reused. Wherever the program
takes "the first result of a query", the model takes the least matching id. Every per-frame system is a
pure function from the store (and ledger) to a new store (and ledger). The pointer position, the button
state, the frame time and the clock are passed in as parameters. Floating-point values are `real`;
ledger values are unbounded `int`.

Files and modules:

- `base.dfy` (`Base`): `Option`, 2-D vectors.
- `crops.dfy` (`Crops`): crop kinds and their grow durations.
- `ledger.dfy` (`Ledger`): items, prices, names, the ledger, and the buy and sell arithmetic.
- `store.dfy` (`Store`): the component records and the store.
  - The consistency rules a store keeps between frames (`WellFormed`).
  - The ascending-id "first match".
- `hierarchy.dfy` (`Hierarchy`): resolving a position up the parent chain.
- `mouse.dfy` (`Mouse`): rebuilding the hover set.
- `selection.dfy` (`Selection`): exclusive crop selection.
- `shop.dfy` (`Shop`): storage indicators and their buy and sell buttons.
- `plots.dfy` (`Plots`): planting, growth, harvest and the spawning of deposit effects.
- `effects.dfy` (`Effects`): tween interpolation, and crediting and despawning finished effects.
- `frame.dfy` (`Game`): one frame, with the systems in the main loop's order.
- `scenarios.dfy` (`Scenarios`): worked frames over a two-entity farm.

The store is kept "well formed" between frames. This holds for every store the program builds, and every
system is proved to preserve it. It means:

- every id is below the counter;
- every parent is live and has a smaller id, so resolution terminates;
- no parent carries a tween or a deposit effect, so despawning an effect never orphans a child;
- every tween runs over a non-empty time interval;
- every deposit effect carries a tween and a position.

Details of the code that the model keeps:

- The hover test is strict on all four edges: a pointer on a box's border does not hover it.
- A buy order takes min(money / cost, 10) units.
- The sell button reads the quantity captured before the buy button ran.
  - The two buttons' zones are disjoint (`Shop.BuySellExclusive`), so this is the same as selling from the
    ledger after the buy step.
- Planting with no seed of the selected crop still inserts a zero entry for that seed, as `or_insert(0)`
  does.

## Model

| member | source | states |
|---|---|---|
| Crops.GrowDuration | src/main.rs:45-50 | A crop takes a positive time to grow: 5 seconds for Potato, 8 for Onion |
| Crops.CropName | src/main.rs:59-64 | A crop's display name is non-empty and has no space, so it can never be mistaken for a seed's name, which ends in " seed" |
| Ledger.Cost | src/storage.rs:34-41 | Every unit price is strictly positive, so the buy order's division is defined |
| Ledger.Name | src/storage.rs:22-27 | A crop's name is the crop's display name; a seed's name is that name followed by exactly " seed" |
| Ledger.NameInjective | src/storage.rs:22-27 | Two items with the same display name are the same item |
| Ledger.Buy | src/storage.rs:94-101 | With the first unit unaffordable nothing changes. Otherwise it buys between 1 and 10 units and pays price times units, and money stays non-negative. It stops only at the cap of 10 or when less than one unit price is left. Other items are untouched and money plus the item's value is preserved |
| Ledger.BuyUnitsUnique | src/storage.rs:97 | The capped-greedy quantity described by `Buy`'s contract is exactly min(money / cost, 10) |
| Ledger.Sell | src/storage.rs:102-114 | A positive holding is sold whole: its quantity becomes 0 and money grows by price times quantity. A zero or negative holding changes nothing. Other items are untouched and money plus the item's value is preserved |
| Ledger.WorthPreserved | src/storage.rs:94-114 | A trade confined to one item that keeps money plus that item's value keeps the total worth of the ledger |
| Ledger.TradesKeepValid | src/storage.rs:94-114 | Buying and selling never make money or any quantity negative |
| Store.First | src/main.rs:155-162 | The chosen entity satisfies the query and no smaller id does; there is no result exactly when no entity satisfies it |
| Store.FirstIsLeast | src/main.rs:155-162 | The least-id entity satisfying a query is the one the query yields |
| Hierarchy.Resolve | src/main.rs:67-76 | An entity without a position sits at the origin, and a root sits at its own offset |
| Hierarchy.ResolveChild | src/main.rs:67-76 | A positioned child sits at its parent's resolved position plus its own offset |
| Hierarchy.ChainOf | src/main.rs:67-76 | Every entity has a finite chain of ancestors ending at a root or at an entity without a position, so the recursion terminates |
| Hierarchy.ResolveIsChainSum | src/main.rs:67-76 | The resolved position is the sum of the local offsets along the parent chain: zero without a position, the own offset at a root |
| Hierarchy.ResolveRespectsLayout | src/main.rs:67-76 | Resolution depends only on the parent and position components of the entity and its ancestors |
| Mouse.HoverOf | src/mouse.rs:12-22 | An entity gets a hover exactly when it has a size, a position and the target marker and the pointer lies strictly inside its resolved box. The hover is the pointer relative to the box corner |
| Mouse.HandleMouse | src/mouse.rs:9-37 | Only hover components change, and ids stay the same. An entity is hovered exactly when it has a size, a position and the target marker and the pointer lies strictly inside its resolved box. The stored hover plus the resolved position is the pointer. The store stays consistent |
| Mouse.SameHovers | src/mouse.rs:12-22 | Stores that differ only in hover components compute the same hover for every entity |
| Mouse.HandleMouseForgetsPast | src/mouse.rs:25-36 | The result does not depend on the previous frame's hovers, since all of them are dropped first |
| Mouse.HandleMouseIdempotent | src/mouse.rs:9-37 | Running the detector twice with the same pointer gives the same store as running it once |
| Selection.SelectOnly | src/main.rs:164-166 | Only selector flags change. Selectors keep their crop. A selector ends up selected exactly when it is the chosen entity |
| Selection.SelectCropType | src/main.rs:150-167 | Without a press, or with no hovered selector, nothing changes. Otherwise the least-id hovered selector is the one selected entity and every other selector is deselected. Only selector flags change, and "at most one selected" is preserved |
| Selection.SelectCropTypeWellFormed | src/main.rs:164-166 | Selection keeps the store consistent |
| Selection.FindSelectedCrop | src/main.rs:169-175 | There is no crop exactly when no selector is selected; otherwise the crop belongs to a selected selector |
| Selection.SelectThenFind | src/main.rs:150-175 | After a press on a selector, the crop found is that selector's crop |
| Selection.FindSelectedIsUnique | src/main.rs:169-175 | With at most one selector selected, the crop found is the crop of that selector |
| Selection.SelectorsKept | src/main.rs:164-175 | A step that only removes selectors or leaves them as they were keeps at most one selected |
| Shop.IndicatorPosition | src/storage.rs:44-51 | When no indicator shows the item, the target position is the origin |
| Shop.IndicatorPositionIsFirst | src/storage.rs:44-51 | When some indicator shows the item, the target is the centre of the least-id such indicator's resolved box |
| Shop.BuySellExclusive | src/storage.rs:102-107 | The buy and sell buttons never react to the same pointer, because the sell button tests the pointer shifted by half the width |
| Shop.Targeted | src/storage.rs:126 | A button reacts only to a pointer other than the origin, and only on a box of positive width |
| Shop.LocalPointer | src/storage.rs:90-92 | An indicator hands its buttons its hover; an unhovered indicator hands them the origin, which no button zone contains |
| Shop.ShopAt | src/storage.rs:94-114 | A press in the buy zone performs `Buy` and a press in the sell zone performs `Sell`. With no press, or a pointer in neither zone, the ledger is unchanged. Only the indicator's own item and money move, money plus that item's value is kept and the ledger stays non-negative |
| Shop.UnhoveredIndicatorIsInert | src/storage.rs:90-92 | An indicator the pointer is not over has neither button under its pointer, so it never trades, whatever its size |
| Shop.ShopFrom | src/storage.rs:65-115 | The indicators from a given id on keep total worth, do nothing without a press and keep the ledger non-negative. Items no such indicator shows are unchanged, and so is the whole ledger when none of them has a button under its pointer |
| Shop.SkipInert | src/storage.rs:65-92 | Unhovered indicators in a run of ids leave the pass unchanged |
| Shop.ShopPass | src/storage.rs:65-115 | The whole shop pass keeps total worth, does nothing without a press and keeps the ledger non-negative. It leaves items no indicator shows unchanged, and the whole ledger when no indicator has a button under its pointer |
| Shop.ShopPassIsHoveredIndicator | src/storage.rs:65-115 | When one indicator is hovered, the whole pass trades exactly as that indicator's buttons do |
| Plots.PlantAt | src/main.rs:195-211 | The plot changes exactly when it is Empty and a seed of the crop is in stock, and then becomes Growing with progress 0. Seeds drop by the number of plots planted. Crops and money stay the same, and the ledger stays non-negative |
| Plots.ManipulatePlots | src/main.rs:177-212 | Only plot components change. Any change is the first hovered plot going from Empty to Growing(selected crop, 0) while the button is held. Each seed count drops by exactly the number of plots planted with it. No seed stock, no button or no selection means no change |
| Plots.ManipulatePlotsPlants | src/main.rs:186-207 | With the button held, a selected crop and a seed in stock, an empty first hovered plot is planted |
| Plots.ManipulatePlotsWellFormed | src/main.rs:195-211 | Planting keeps the store consistent |
| Plots.GrownOrder | src/main.rs:216-225 | The harvest order lists only grown plots with a size, in strictly ascending id order |
| Plots.GrownOrderCovers | src/main.rs:216-225 | Every grown plot with a size appears in the harvest order |
| Plots.GrownOrderCountsFrom | src/main.rs:216-225 | From any id on, the harvest order is as long as the set of harvestable plots |
| Plots.GrownOrderCountsHarvests | src/main.rs:225-248 | One effect per plot that was grown at the start of the pass: the harvest order has exactly one entry per harvestable plot |
| Plots.GrowthStep | src/main.rs:219-224 | With dt ≥ 0, progress never decreases and stays below one, the crop never changes, and the plot becomes Grown exactly when the new progress reaches one |
| Plots.GrowthAccumulates | src/main.rs:219-224 | Over any run of frames with non-negative frame times, before whose last frame the plot has not yet matured, growth adds up: the plot is Grown exactly when the start progress plus the summed time over the duration reaches one, and otherwise holds that progress |
| Plots.SpawnedEffectFields | src/main.rs:225-240 | A harvest effect carries the plot's crop and starts at the plot's centre. It ends at the crop indicator's position, with end time equal to start time plus 0.5. It has no parent, hover, selector or target marker and is not done |
| Plots.NextPlot | src/main.rs:217-243 | An empty plot stays empty and a grown plot is emptied. A growing plot keeps its crop and matures exactly when its progress plus dt over the duration reaches one; a plot still growing has progress below one |
| Plots.SpawnedEffect | src/main.rs:226-240 | A harvest spawns a root entity carrying a deposit, a position and a tween over a non-empty time interval, as the consistency rules need |
| Plots.Advance | src/main.rs:216-243 | A sized growing plot advances by dt over its duration and matures at one. A sized grown plot becomes Empty. Everything else is untouched |
| Plots.StepPlots | src/main.rs:216-244 | Every existing entity takes exactly one growth or harvest step and no id is added or removed |
| Plots.HarvestEffects | src/main.rs:225-248 | There is one spawned effect per plot grown at the start of the pass, in ascending plot order, each freshly shaped |
| Plots.UpdatePlots | src/main.rs:214-249 | Old entities take one step. Exactly one new entity per harvested plot gets the next free ids, in ascending plot order, and each new entity is a fresh effect. A plot that matures during the pass is not harvested until the next pass |
| Plots.UpdatePlotsWellFormed | src/main.rs:214-249 | The update pass keeps the store consistent |
| Plots.ReplotKeepsWellFormed | src/main.rs:231-248 | Changing plot components and adding fresh effect entities above the old ids keeps the store consistent |
| Effects.Lerp | src/main.rs:267 | The interpolation equals start plus t times (end minus start) |
| Effects.Fraction | src/main.rs:262 | The elapsed fraction is 0 at the start time, negative exactly before it, and reaches one exactly at the end time |
| Effects.LerpEndpoints | src/main.rs:267 | The interpolation sits at the start point at t = 0 and at the end point at t = 1 |
| Effects.StepTween | src/main.rs:254-270 | Only the position and the done mark change, and entities without a tween or a position are untouched. Once the end time is reached the position is exactly the end point and the entity is marked done. Before it, the position is the interpolation at the elapsed fraction and no mark is added |
| Effects.TweenStartsAtStart | src/main.rs:233-237 | A fresh effect, evaluated at its start time, sits at its start point and gains no done mark |
| Effects.UpdateTweens | src/main.rs:251-276 | Every entity takes one tween step and no id is added or removed |
| Effects.UpdateTweensWellFormed | src/main.rs:251-276 | The tween pass keeps the store consistent |
| Effects.Credit | src/main.rs:289 | Crediting adds exactly one unit of the item and changes nothing else |
| Effects.CreditFrom | src/main.rs:286-290 | Each crop count grows by the number of finished effects of that crop from a given id on. Seeds and money stay the same |
| Effects.DepositEffects | src/main.rs:278-292 | Exactly the finished effects are despawned and everything else stays. Each crop is credited once per finished effect of that crop. Seeds and money are unchanged |
| Effects.DepositConserves | src/main.rs:279-292 | Exactly-once credit: crops in the ledger plus crops in flight are the same before and after the deposit pass |
| Effects.RemainingEffects | src/main.rs:279-292 | The effects left after the deposit pass are exactly the unfinished ones |
| Effects.DepositLeavesNoFinished | src/main.rs:279-292 | No finished effect survives the deposit pass, so none can be credited twice |
| Effects.DepositWellFormed | src/main.rs:286-292 | Despawning finished effects keeps the store consistent |
| Game.RunStages | src/main.rs:358-366 | Every intermediate store of a frame, taken in the main loop's order, is consistent |
| Game.Frame | src/main.rs:355-370 | A frame keeps the store consistent and never moves the id counter back |
| Game.FrameKeepsLedgerValid | src/main.rs:358-366 | A frame never makes money or any quantity negative |
| Game.DepositKeepsValid | src/main.rs:279-292 | Crediting finished effects never makes money or any quantity negative |
| Game.FrameKeepsSelectionExclusive | src/main.rs:358-366 | A frame never leaves two selectors selected |
| Game.HoverKeepsSelection | src/main.rs:358 | Hover detection keeps at most one selector selected |
| Game.PlantingKeepsSelection | src/main.rs:360 | Planting keeps at most one selector selected |
| Game.UpdateKeepsSelection | src/main.rs:361 | The update pass keeps at most one selector selected |
| Game.TweensKeepSelection | src/main.rs:362 | The tween pass keeps at most one selector selected |
| Game.DepositKeepsSelection | src/main.rs:366 | The deposit pass keeps at most one selector selected |
| Game.FrameCompletesEffects | src/main.rs:362-366 | After a frame, no finished effect is left, and every surviving effect's tween ends after the frame's time |
| Scenarios.FarmClicksItsPlot | src/main.rs:177-195 | Holding the button over the farm's plot with Potato selected acts on that plot with Potato |
| Scenarios.PlantOnceWithOneSeed | src/main.rs:196-207 | One seed in stock: the hovered empty plot becomes Growing(Potato, 0) and the seed count drops to 0 |
| Scenarios.SownPlotIgnoresClicks | src/main.rs:209 | A plot that is already growing ignores the held button: neither the farm nor the ledger changes |
| Scenarios.Matures | src/main.rs:219-224 | A Potato plot at 0.999 maturing this frame becomes Grown but is not harvested in the same pass |
| Scenarios.HarvestsOnNextPass | src/main.rs:225-248 | On the next pass that plot is emptied and exactly one Potato effect is spawned, ending half a second later |

## Left out

- Drawing is left out: the plot, selector, storage and button drawing, text and the effect circles. It has no effect on state.
- The colour scaling in src/graphic.rs is not part of this model. It is float colour maths used only for drawing.
- The pointer position, button state, frame time and clock are parameters. A frame's `Input` carries them.
  - The button is passed as pressed (an edge) or held (a level), as the library reports it.
- The window setup, `async main` and `next_frame` are left out. So is the initial store built in `main`
  (src/main.rs:301-353).
- The entity store library is replaced by a map with never-reused ascending ids.
  - Its iteration order is unspecified, so "first match" and the order of spawned and despawned entities
    become ascending id.
- `f32`/`f64` rounding is not modelled: all positions, sizes, times and progress are exact reals.
  - The `as f32` cast of the tween fraction is dropped too.
  - The model therefore does not capture float edge cases, such as progress crossing one a frame late.
- Ledger arithmetic is unbounded: `i64` overflow of money or quantities is not modelled.
- `resolve_position` unwraps a dead entity's lookup. Here that is the precondition that the entity and its
  parents are live. Termination follows from parents having smaller ids.
- `update_tweens` divides by `end_time - start_time`. Every tween the program builds has end > start, and
  that is part of the consistency rules instead of being computed with a zero divisor.
- The clock is read once per frame. The program reads it separately for each harvested plot (src/main.rs:228)
  and again in `update_tweens` (src/main.rs:252). The model takes all those reads to agree.
- Plots.UpdatePlots: the spawned effects are described through `HarvestEffects` and `SpawnedEffectFields`, not as one closed formula.
