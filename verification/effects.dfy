/**
 * The deferred effect pipeline (`update_tweens` and the ledger half of
 * `update_and_draw_deposit_effects` in main.rs).
 */
module Effects {
  import opened Base
  import opened Crops
  import opened Ledger
  import opened Store

  /** Linear interpolation: `start` at `t = 0`, `end` at `t = 1`. */
  function Lerp(start: Vec2, end: Vec2, t: real): (r: Vec2)
    ensures Sub(r, start) == Scale(Sub(end, start), t)
  {
    Add(Scale(start, 1.0 - t), Scale(end, t))
  }

  lemma LerpEndpoints(start: Vec2, end: Vec2)
    ensures Lerp(start, end, 0.0) == start
    ensures Lerp(start, end, 1.0) == end
  {
  }

  /** Elapsed fraction of a tween's interval at time `now`. */
  function Fraction(tw: Tween, now: real): (r: real)
    requires tw.startTime < tw.endTime
    ensures now == tw.startTime ==> r == 0.0
    ensures r >= 1.0 <==> now >= tw.endTime
    ensures r < 0.0 <==> now < tw.startTime
  {
    QuotientBounds(now - tw.startTime, tw.endTime - tw.startTime);
    (now - tw.startTime) / (tw.endTime - tw.startTime)
  }

  lemma QuotientBounds(a: real, d: real)
    requires d > 0.0
    ensures a / d >= 1.0 <==> a >= d
    ensures a / d < 0.0 <==> a < 0.0
  {
    var q := a / d;
    assert q * d == a;
    assert (q - 1.0) * d == a - d;
  }

  /**
   * One tween step for one entity: an entity with a position and a tween moves
   * along it, and is marked done with its position pinned to the end point once
   * the elapsed fraction reaches one.
   */
  function StepTween(e: Entity, now: real): (r: Entity)
    requires e.tween.Some? ==> e.tween.value.startTime < e.tween.value.endTime
    ensures r == e.(position := r.position, tweenDone := r.tweenDone)
    ensures e.tween.None? || e.position.None? ==> r == e
    ensures e.tween.Some? && e.position.Some? ==>
              && (r.tweenDone <==> e.tweenDone || now >= e.tween.value.endTime)
              && (now >= e.tween.value.endTime ==> r.position == Some(e.tween.value.end))
              && (now < e.tween.value.endTime ==>
                    r.position == Some(Lerp(e.tween.value.start, e.tween.value.end, Fraction(e.tween.value, now))))
  {
    if e.tween.Some? && e.position.Some? then
      var tw := e.tween.value;
      var t := Fraction(tw, now);
      assert t >= 1.0 <==> now >= tw.endTime by {
        assert t * (tw.endTime - tw.startTime) == now - tw.startTime;
      }
      if t >= 1.0 then e.(position := Some(tw.end), tweenDone := true)
      else e.(position := Some(Lerp(tw.start, tw.end, t)))
    else e
  }

  /** A tween evaluated at its start time sits at its start point. */
  lemma TweenStartsAtStart(e: Entity)
    requires e.tween.Some? && e.position.Some? && e.tween.value.startTime < e.tween.value.endTime
    ensures StepTween(e, e.tween.value.startTime).position == Some(e.tween.value.start)
    ensures !StepTween(e, e.tween.value.startTime).tweenDone <==> !e.tweenDone
  {
    var tw := e.tween.value;
    assert Fraction(tw, tw.startTime) == 0.0;
    LerpEndpoints(tw.start, tw.end);
  }

  /** Advances every tween to time `now`. */
  function UpdateTweens(w: World, now: real): (r: World)
    requires TweensTimed(w)
    ensures r.next == w.next && r.entities.Keys == w.entities.Keys
    ensures forall id | id in w.entities :: r.entities[id] == StepTween(w.entities[id], now)
  {
    World(map id | id in w.entities :: StepTween(w.entities[id], now), w.next)
  }

  /** The tween pass keeps the store well formed: parents never move. */
  lemma UpdateTweensWellFormed(w: World, now: real)
    requires WellFormed(w)
    ensures WellFormed(UpdateTweens(w, now))
  {
    var r := UpdateTweens(w, now);
    forall id | id in w.entities
      ensures r.entities[id] == w.entities[id].(position := r.entities[id].position, tweenDone := r.entities[id].tweenDone)
    {
    }
    assert KeysBelow(r);
    assert ParentsPrecede(r);
    assert ParentsAreStatic(r);
    assert TweensTimed(r);
    assert EffectsShaped(r);
  }

  /** A deposit effect whose tween has completed. */
  predicate IsFinished(e: Entity)
  {
    e.tweenDone && e.deposit.Some?
  }

  /** Live deposit effects carrying crop `k`. */
  ghost function EffectsOf(w: World, k: CropType): set<EntityId>
  {
    set id | id in w.entities && w.entities[id].deposit == Some(k)
  }

  /** Finished deposit effects carrying crop `k` with id at least `i`. */
  ghost function FinishedFrom(w: World, k: CropType, i: nat): set<EntityId>
  {
    set id | id in w.entities && i <= id && IsFinished(w.entities[id]) && w.entities[id].deposit == Some(k)
  }

  lemma FinishedSplit(w: World, k: CropType, i: nat)
    ensures FinishedFrom(w, k, i) ==
              FinishedFrom(w, k, i + 1)
              + (if i in w.entities && IsFinished(w.entities[i]) && w.entities[i].deposit == Some(k) then {i} else {})
    ensures i !in FinishedFrom(w, k, i + 1)
  {
  }

  /** Adds one unit of `it` to the ledger. */
  function Credit(s: Storage, it: Item): (r: Storage)
    ensures Amount(r, it) == Amount(s, it) + 1
    ensures forall other | other != it :: Amount(r, other) == Amount(s, other)
    ensures r.money == s.money
  {
    s.(items := s.items[it := Amount(s, it) + 1])
  }

  /** Credits one crop for every finished effect with id at least `i`, in ascending id order. */
  function CreditFrom(w: World, s: Storage, i: nat): (r: Storage)
    requires KeysBelow(w)
    ensures r.money == s.money
    ensures forall k :: Amount(r, Crop(k)) == Amount(s, Crop(k)) + |FinishedFrom(w, k, i)|
    ensures forall k :: Amount(r, Seed(k)) == Amount(s, Seed(k))
    decreases w.next - i
  {
    if i >= w.next then
      assert forall k :: FinishedFrom(w, k, i) == {};
      s
    else
      var s' := if i in w.entities && IsFinished(w.entities[i]) then Credit(s, Crop(w.entities[i].deposit.value)) else s;
      var r := CreditFrom(w, s', i + 1);
      forall k
        ensures Amount(r, Crop(k)) == Amount(s, Crop(k)) + |FinishedFrom(w, k, i)|
      {
        FinishedSplit(w, k, i);
        var here := i in w.entities && IsFinished(w.entities[i]) && w.entities[i].deposit == Some(k);
        assert Amount(s', Crop(k)) == Amount(s, Crop(k)) + (if here then 1 else 0);
      }
      r
  }

  /**
   * The deposit pass: every finished effect credits its crop to the ledger once
   * and is despawned; everything else is left as it was.
   */
  function DepositEffects(w: World, s: Storage): (r: (World, Storage))
    requires KeysBelow(w)
    ensures r.0.next == w.next
    ensures forall id :: id in r.0.entities <==> id in w.entities && !IsFinished(w.entities[id])
    ensures forall id | id in r.0.entities :: r.0.entities[id] == w.entities[id]
    ensures forall k :: Amount(r.1, Crop(k)) == Amount(s, Crop(k)) + |FinishedFrom(w, k, 0)|
    ensures forall k :: Amount(r.1, Seed(k)) == Amount(s, Seed(k))
    ensures r.1.money == s.money
  {
    (World(map id | id in w.entities && !IsFinished(w.entities[id]) :: w.entities[id], w.next), CreditFrom(w, s, 0))
  }

  /**
   * Exactly-once credit: the deposit pass moves each finished effect into the
   * ledger one for one, so crops in the ledger plus crops in flight are conserved.
   */
  lemma {:induction false} DepositConserves(w: World, s: Storage, k: CropType)
    requires KeysBelow(w)
    ensures Amount(DepositEffects(w, s).1, Crop(k)) + |EffectsOf(DepositEffects(w, s).0, k)|
            == Amount(s, Crop(k)) + |EffectsOf(w, k)|
  {
    var all := EffectsOf(w, k);
    var done := FinishedFrom(w, k, 0);
    RemainingEffects(w, s, k);
    assert done <= all;
    assert all == (all - done) + done && (all - done) !! done;
  }

  /** The effects left after the deposit pass are exactly the unfinished ones. */
  lemma RemainingEffects(w: World, s: Storage, k: CropType)
    requires KeysBelow(w)
    ensures EffectsOf(DepositEffects(w, s).0, k) == EffectsOf(w, k) - FinishedFrom(w, k, 0)
  {
  }

  /** After the deposit pass no finished effect is left to be credited again. */
  lemma DepositLeavesNoFinished(w: World, s: Storage)
    requires KeysBelow(w)
    ensures forall id | id in DepositEffects(w, s).0.entities :: !IsFinished(DepositEffects(w, s).0.entities[id])
  {
  }

  /** Despawning finished effects keeps the store well formed. */
  lemma DepositWellFormed(w: World, s: Storage)
    requires WellFormed(w)
    ensures WellFormed(DepositEffects(w, s).0)
  {
    var r := DepositEffects(w, s).0;
    assert KeysBelow(r);
    assert ParentsPrecede(r);
    assert ParentsAreStatic(r);
    assert TweensTimed(r);
    assert EffectsShaped(r);
  }
}
