/** The per-frame system order of the main loop in main.rs. */
module Game {
  import opened Base
  import opened Ledger
  import opened Store
  import opened Mouse
  import opened Selection
  import opened Shop
  import opened Plots
  import opened Effects

  /** What the input library and the clock report for one frame. */
  datatype Input = Input(mouse: Vec2, pressed: bool, held: bool, dt: real, now: real)

  /** The stages of one frame, in the order the main loop runs them. */
  datatype Stages = Stages(
    hovered: World, selected: World, planted: (World, Storage),
    updated: World, tweened: World, traded: Storage, deposited: (World, Storage))

  function RunStages(w: World, s: Storage, inp: Input): (st: Stages)
    requires WellFormed(w)
    ensures WellFormed(st.hovered) && WellFormed(st.selected) && WellFormed(st.planted.0)
    ensures WellFormed(st.updated) && WellFormed(st.tweened) && WellFormed(st.deposited.0)
  {
    var w1 := HandleMouse(w, inp.mouse);
    var w2 := SelectCropType(w1, inp.pressed);
    SelectCropTypeWellFormed(w1, inp.pressed);
    var p3 := ManipulatePlots(w2, s, inp.held);
    ManipulatePlotsWellFormed(w2, s, inp.held);
    var w4 := UpdatePlots(p3.0, inp.dt, inp.now);
    UpdatePlotsWellFormed(p3.0, inp.dt, inp.now);
    var w5 := UpdateTweens(w4, inp.now);
    UpdateTweensWellFormed(w4, inp.now);
    var s5 := ShopPass(w5, p3.1, inp.pressed);
    var p6 := DepositEffects(w5, s5);
    DepositWellFormed(w5, s5);
    Stages(w1, w2, p3, w4, w5, s5, p6)
  }

  /**
   * One frame: hover detection, selection, planting, growth, tweening, the shop
   * buttons, and the deposit of finished effects; drawing is left out.
   */
  function Frame(w: World, s: Storage, inp: Input): (r: (World, Storage))
    requires WellFormed(w)
    ensures WellFormed(r.0)
    ensures r.0.next >= w.next
  {
    RunStages(w, s, inp).deposited
  }

  /** A frame keeps the ledger non-negative. */
  lemma FrameKeepsLedgerValid(w: World, s: Storage, inp: Input)
    requires WellFormed(w) && Valid(s)
    ensures Valid(Frame(w, s, inp).1)
  {
    var st := RunStages(w, s, inp);
    assert Valid(st.planted.1);
    assert Valid(st.traded);
    DepositKeepsValid(st.tweened, st.traded);
  }

  /** Crediting finished effects never makes money or a quantity negative. */
  lemma DepositKeepsValid(w: World, s: Storage)
    requires KeysBelow(w) && Valid(s)
    ensures Valid(DepositEffects(w, s).1)
  {
    var k := DepositEffects(w, s).1;
    forall it | it in k.items
      ensures k.items[it] >= 0
    {
      assert Amount(k, it) == k.items[it];
      assert Amount(s, it) >= 0;
      match it
      case Seed(c) => assert Amount(k, Seed(c)) == Amount(s, Seed(c));
      case Crop(c) => assert Amount(k, Crop(c)) >= Amount(s, Crop(c));
    }
  }

  /** A frame never leaves two selectors selected. */
  lemma FrameKeepsSelectionExclusive(w: World, s: Storage, inp: Input)
    requires WellFormed(w) && AtMostOneSelected(w)
    ensures AtMostOneSelected(Frame(w, s, inp).0)
  {
    var st := RunStages(w, s, inp);
    HoverKeepsSelection(w, inp.mouse);
    PlantingKeepsSelection(st.selected, s, inp.held);
    UpdateKeepsSelection(st.planted.0, inp.dt, inp.now);
    TweensKeepSelection(st.updated, inp.now);
    DepositKeepsSelection(st.tweened, st.traded);
  }

  lemma HoverKeepsSelection(w: World, m: Vec2)
    requires ParentsPrecede(w) && AtMostOneSelected(w)
    ensures AtMostOneSelected(HandleMouse(w, m))
  {
    SelectorsKept(w, HandleMouse(w, m));
  }

  lemma PlantingKeepsSelection(w: World, s: Storage, held: bool)
    requires KeysBelow(w) && AtMostOneSelected(w)
    ensures AtMostOneSelected(ManipulatePlots(w, s, held).0)
  {
    SelectorsKept(w, ManipulatePlots(w, s, held).0);
  }

  lemma UpdateKeepsSelection(w: World, dt: real, now: real)
    requires KeysBelow(w) && ParentsPrecede(w) && AtMostOneSelected(w)
    ensures AtMostOneSelected(UpdatePlots(w, dt, now))
  {
    SelectorsKept(w, UpdatePlots(w, dt, now));
  }

  lemma TweensKeepSelection(w: World, now: real)
    requires TweensTimed(w) && AtMostOneSelected(w)
    ensures AtMostOneSelected(UpdateTweens(w, now))
  {
    SelectorsKept(w, UpdateTweens(w, now));
  }

  lemma DepositKeepsSelection(w: World, s: Storage)
    requires KeysBelow(w) && AtMostOneSelected(w)
    ensures AtMostOneSelected(DepositEffects(w, s).0)
  {
    SelectorsKept(w, DepositEffects(w, s).0);
  }

  /**
   * No deposit effect outlives its completion frame: every effect left after a
   * frame is unfinished and its tween ends after the frame's time.
   */
  lemma FrameCompletesEffects(w: World, s: Storage, inp: Input)
    requires WellFormed(w)
    ensures forall id | id in Frame(w, s, inp).0.entities :: !IsFinished(Frame(w, s, inp).0.entities[id])
    ensures forall id | id in Frame(w, s, inp).0.entities && Frame(w, s, inp).0.entities[id].deposit.Some? ::
              Frame(w, s, inp).0.entities[id].tween.Some?
              && inp.now < Frame(w, s, inp).0.entities[id].tween.value.endTime
  {
    var st := RunStages(w, s, inp);
    var r := st.deposited.0;
    forall id | id in r.entities && r.entities[id].deposit.Some?
      ensures r.entities[id].tween.Some? && inp.now < r.entities[id].tween.value.endTime
    {
      assert r.entities[id] == st.tweened.entities[id];
      assert st.tweened.entities[id] == StepTween(st.updated.entities[id], inp.now);
    }
  }
}
