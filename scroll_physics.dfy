/** The inertial-scroll engine as functions of its state: what one wheel event
    (`mouseWheelMoved`), one animation tick (`update`) and the host's
    "scrolling finished" callback do to the shared velocity state and, for a tick,
    to the two scroll offsets. The methods of SmoothScroller are proved to compute
    exactly these. */
module ScrollPhysics {
  import opened Numerics
  import opened VelocityHistory

  /** The configuration values a wheel event reads (THRESHOLD, SPEED_LIMIT,
      ACCELERATION_LIMIT, MULTIPLIER). */
  datatype Tunables = Tunables(threshold: real, speedLimit: real, accelerationLimit: real, multiplier: real)

  /** What the engine reads from a MouseWheelEvent: getPreciseWheelRotation,
      getScrollAmount and getModifiersEx. */
  datatype WheelEvent = WheelEvent(rotation: real, scrollAmount: int, modifiersEx: int)

  /** The engine's mutable fields: mVelocity, mVelocities, mLastWheelDelta, mScrolling,
      mScrollingHorizontal. */
  datatype State = State(velocity: real, velocities: seq<real>, lastWheelDelta: real,
                         scrolling: bool, horizontal: bool)

  /** The scrolling model's horizontal and vertical scroll offsets. */
  datatype Offsets = Offsets(horizontal: int, vertical: int)

  /** The field initialisers. */
  const Initial: State := State(0.0, [], 0.0, false, false)

  /** The invariant the engine aims at: never moving slower than the threshold. */
  predicate AtRestOrAbove(v: real, threshold: real) {
    v == 0.0 || Abs(v) >= threshold
  }

  /** Two wheel deltas point strictly the same way: the source tests that their
      product is positive (see SameDirectionIsPositiveProduct). */
  predicate SameDirection(previous: real, current: real) {
    (previous > 0.0 && current > 0.0) || (previous < 0.0 && current < 0.0)
  }

  lemma SameDirectionIsPositiveProduct(previous: real, current: real)
    ensures SameDirection(previous, current) <==> previous * current > 0.0
  {
    if previous > 0.0 && current < 0.0 {
      assert previous * current < 0.0;
    }
    if previous < 0.0 && current > 0.0 {
      assert previous * current < 0.0;
    }
  }

  /** The velocity increment of one wheel event: scroll amount times rotation times
      multiplier, spread over one frame. */
  function DeltaV(e: WheelEvent, multiplier: real, millisPerFrame: int): (r: real)
    requires millisPerFrame >= 1
    ensures r * millisPerFrame as real == e.scrollAmount as real * e.rotation * multiplier
  {
    e.scrollAmount as real * e.rotation * multiplier / millisPerFrame as real
  }

  /** A same-direction event whose increment is large enough to be processed. */
  predicate Accepted(s: State, e: WheelEvent, t: Tunables, millisPerFrame: int)
    requires millisPerFrame >= 1
  {
    SameDirection(s.lastWheelDelta, e.rotation) && !(Abs(DeltaV(e, t.multiplier, millisPerFrame)) < t.threshold)
  }

  /** zeroVelocity: no velocity and no history. */
  function Zeroed(s: State): (r: State)
    ensures r.velocity == 0.0 && r.velocities == []
    ensures r.lastWheelDelta == s.lastWheelDelta && r.scrolling == s.scrolling && r.horizontal == s.horizontal
  {
    s.(velocity := 0.0, velocities := [])
  }

  /** The acceleration clamp: the change from the old velocity to the averaged one,
      per millisecond, is at most the acceleration limit; beyond it the velocity moves
      from the old one by exactly the limit, in the direction of the change. With a
      non-negative limit the result stays within the limit's reach of the old velocity
      and never overshoots the average; an average within reach is kept as it is. */
  function AccelerationLimited(oldVelocity: real, averaged: real, accelerationLimit: real, millisPerFrame: int): (r: real)
    requires millisPerFrame >= 1
    ensures accelerationLimit >= 0.0 ==> Abs(r - oldVelocity) <= accelerationLimit * millisPerFrame as real
    ensures accelerationLimit >= 0.0 ==> Between(oldVelocity, r, averaged)
    ensures Abs(averaged - oldVelocity) <= accelerationLimit * millisPerFrame as real ==> r == averaged
    ensures accelerationLimit >= 0.0 && Abs(averaged - oldVelocity) > accelerationLimit * millisPerFrame as real ==>
              Abs(r - oldVelocity) == accelerationLimit * millisPerFrame as real
  {
    var m := millisPerFrame as real;
    var acc := (averaged - oldVelocity) / m;
    var reach := accelerationLimit * m;
    PerFrameScaling(averaged - oldVelocity, m, accelerationLimit);
    if Abs(acc) > accelerationLimit then oldVelocity + reach * Signum(acc)
    else averaged
  }

  /** Dividing a change by the frame interval keeps its sign, and compares with a limit
      per millisecond exactly as the change compares with the limit's reach over a frame. */
  lemma PerFrameScaling(change: real, m: real, limit: real)
    requires m >= 1.0
    ensures Abs(change / m) > limit <==> Abs(change) > limit * m
    ensures Signum(change / m) == Signum(change)
    ensures limit >= 0.0 ==> limit * m >= 0.0
  {
    var perMilli := change / m;
    assert change == perMilli * m;
    assert Abs(change) == Abs(perMilli) * m;
    if Abs(perMilli) > limit {
      assert Abs(perMilli) * m > limit * m;
    } else {
      assert Abs(perMilli) * m <= limit * m;
    }
    if limit >= 0.0 {
      ProductNonNegative(limit, m);
    }
  }

  /** The speed clamp: a velocity faster than the limit keeps its direction and takes
      the limit's magnitude. */
  function SpeedLimited(v: real, speedLimit: real): (r: real)
    ensures speedLimit >= 0.0 ==> Abs(r) <= speedLimit
    ensures Abs(v) <= speedLimit ==> r == v
    ensures speedLimit >= 0.0 && Abs(v) > speedLimit ==> Abs(r) == speedLimit && (v > 0.0 ==> r >= 0.0) && (v < 0.0 ==> r <= 0.0)
  {
    if Abs(v) > speedLimit then speedLimit * Signum(v) else v
  }

  /** The last step of an accepted event: a velocity below the threshold is zeroed
      along with the history; otherwise it and the new history are kept. */
  function SnapToRest(live: State, history: seq<real>, v: real, threshold: real): (r: State)
    ensures AtRestOrAbove(r.velocity, threshold)
    ensures Abs(v) < threshold ==> r.velocity == 0.0 && r.velocities == []
    ensures Abs(v) >= threshold ==> r.velocity == v && r.velocities == history
    ensures r.scrolling == live.scrolling && r.horizontal == live.horizontal && r.lastWheelDelta == live.lastWheelDelta
  {
    if Abs(v) < threshold then Zeroed(live) else live.(velocity := v, velocities := history)
  }

  /** The accepted path of a wheel event: the old velocity plus the increment joins the
      history, the velocity becomes the history's average, then the acceleration clamp,
      the speed clamp and the snap to rest below the threshold apply, in that order.
      The engine is either brought to rest or left at or above the threshold with the
      pushed history, never faster than a non-negative speed limit, with its flags
      untouched. `live` holds the velocity and history from before the event. */
  function Estimated(live: State, deltaV: real, t: Tunables, millisPerFrame: int): (r: State)
    requires millisPerFrame >= 1
    ensures r.scrolling == live.scrolling && r.horizontal == live.horizontal && r.lastWheelDelta == live.lastWheelDelta
    ensures (r.velocity == 0.0 && r.velocities == []) ||
            (r.velocities == Pushed(live.velocities, live.velocity + deltaV) && Abs(r.velocity) >= t.threshold)
    ensures t.speedLimit >= 0.0 ==> Abs(r.velocity) <= t.speedLimit
  {
    var pushed := Pushed(live.velocities, live.velocity + deltaV);
    SnapToRest(live, pushed,
               SpeedLimited(AccelerationLimited(live.velocity, Average(pushed), t.accelerationLimit, millisPerFrame),
                            t.speedLimit),
               t.threshold)
  }

  /** When no clamp applies, the velocity an accepted event leaves is exactly the rolling
      average of the history it has just extended. */
  lemma EstimatedFollowsAverage(live: State, deltaV: real, t: Tunables, millisPerFrame: int)
    requires millisPerFrame >= 1
    ensures var r := Estimated(live, deltaV, t, millisPerFrame);
            var average := Average(Pushed(live.velocities, live.velocity + deltaV));
            (Abs(average - live.velocity) <= t.accelerationLimit * millisPerFrame as real &&
             Abs(average) <= t.speedLimit && Abs(average) >= t.threshold)
            ==> r.velocity == average && r.velocities == Pushed(live.velocities, live.velocity + deltaV)
  {
    var pushed := Pushed(live.velocities, live.velocity + deltaV);
    var average := Average(pushed);
    var limited := AccelerationLimited(live.velocity, average, t.accelerationLimit, millisPerFrame);
    if Abs(average - live.velocity) <= t.accelerationLimit * millisPerFrame as real {
      assert limited == average;
      if Abs(average) <= t.speedLimit && Abs(average) >= t.threshold {
        assert SpeedLimited(limited, t.speedLimit) == average;
      }
    }
  }

  /** What every wheel event does first: mark scrolling live, take the axis from the
      modifier keys and remember the rotation for the next direction test. */
  function Live(s: State, e: WheelEvent): (r: State)
    ensures r.scrolling && r.horizontal == (e.modifiersEx != 0) && r.lastWheelDelta == e.rotation
    ensures r.velocity == s.velocity && r.velocities == s.velocities
  {
    s.(scrolling := true, horizontal := e.modifiersEx != 0, lastWheelDelta := e.rotation)
  }

  /** mouseWheelMoved. Every event marks scrolling live, takes its axis from the
      modifiers and records its rotation; a change of direction (a first event or a
      zero rotation included) drops all momentum; a same-direction increment below the
      threshold (jitter) leaves velocity and history alone; any other event takes the
      accepted path. */
  function WheelMoved(s: State, e: WheelEvent, t: Tunables, millisPerFrame: int): (r: State)
    requires millisPerFrame >= 1
    ensures r.scrolling && r.horizontal == (e.modifiersEx != 0) && r.lastWheelDelta == e.rotation
    ensures !SameDirection(s.lastWheelDelta, e.rotation) ==> r.velocity == 0.0 && r.velocities == []
    ensures (SameDirection(s.lastWheelDelta, e.rotation) && Abs(DeltaV(e, t.multiplier, millisPerFrame)) < t.threshold)
              ==> r.velocity == s.velocity && r.velocities == s.velocities
    ensures Accepted(s, e, t, millisPerFrame) ==>
              r == Estimated(Live(s, e), DeltaV(e, t.multiplier, millisPerFrame), t, millisPerFrame)
  {
    var live := Live(s, e);
    if !SameDirection(s.lastWheelDelta, e.rotation) then Zeroed(live)
    else
      var deltaV := DeltaV(e, t.multiplier, millisPerFrame);
      if Abs(deltaV) < t.threshold then live
      else Estimated(live, deltaV, t, millisPerFrame)
  }

  /** A wheel event keeps the history bound, the speed bound and the rule that the
      engine never moves slower than the threshold. */
  lemma WheelMovedKeepsInvariants(s: State, e: WheelEvent, t: Tunables, millisPerFrame: int)
    requires millisPerFrame >= 1
    ensures var r := WheelMoved(s, e, t, millisPerFrame);
            |s.velocities| <= MAX_VELOCITIES ==> |r.velocities| <= MAX_VELOCITIES
    ensures var r := WheelMoved(s, e, t, millisPerFrame);
            t.speedLimit >= 0.0 && Abs(s.velocity) <= t.speedLimit ==> Abs(r.velocity) <= t.speedLimit
    ensures var r := WheelMoved(s, e, t, millisPerFrame);
            AtRestOrAbove(s.velocity, t.threshold) ==> AtRestOrAbove(r.velocity, t.threshold)
  {
  }

  /** The runActionOnScrollingFinished callback: live input has ended, the history is
      dropped, the velocity is kept for the ticks to decay. */
  function ScrollingFinished(s: State): (r: State)
    ensures !r.scrolling && r.velocities == []
    ensures r.velocity == s.velocity && r.lastWheelDelta == s.lastWheelDelta && r.horizontal == s.horizontal
  {
    s.(scrolling := false, velocities := [])
  }

  /** The velocity at the start of a tick: decayed by the factor exp(-friction *
      MILLIS_PER_FRAME) unless wheel input is live. */
  function Decayed(s: State, decay: real): (v: real)
    ensures s.scrolling ==> v == s.velocity
    ensures 0.0 <= decay <= 1.0 ==> Abs(v) <= Abs(s.velocity) && v * s.velocity >= 0.0
    ensures !s.scrolling && 0.0 <= decay < 1.0 && s.velocity != 0.0 ==> Abs(v) < Abs(s.velocity)
  {
    if s.scrolling then s.velocity
    else
      assert Abs(s.velocity * decay) == Abs(s.velocity) * Abs(decay);
      s.velocity * decay
  }

  /** The offset a tick writes: the current offset moved by one frame at velocity v,
      rounded as Math.round does, and never below 0. */
  function NextOffset(current: int, v: real, millisPerFrame: int): (n: int)
    ensures n >= 0
    ensures current as real + v * millisPerFrame as real < 0.5 ==> n == 0
    ensures current as real + v * millisPerFrame as real >= 0.5 ==>
              n as real - 0.5 <= current as real + v * millisPerFrame as real < n as real + 0.5
  {
    var rounded := JavaRound(current as real + v * millisPerFrame as real);
    if rounded < 0 then 0 else rounded
  }

  /** update: one animation tick. Only the axis chosen by the last wheel event is
      written; below the threshold the engine is brought to rest and nothing is written. */
  function Tick(s: State, o: Offsets, threshold: real, decay: real, millisPerFrame: int): (r: (State, Offsets))
    ensures r.0.scrolling == s.scrolling && r.0.horizontal == s.horizontal && r.0.lastWheelDelta == s.lastWheelDelta
    ensures AtRestOrAbove(r.0.velocity, threshold)
    ensures Abs(Decayed(s, decay)) >= threshold ==>
              r.0.velocity == Decayed(s, decay) && r.0.velocities == s.velocities &&
              if s.horizontal then
                r.1 == o.(horizontal := NextOffset(o.horizontal, Decayed(s, decay), millisPerFrame))
              else
                r.1 == o.(vertical := NextOffset(o.vertical, Decayed(s, decay), millisPerFrame))
    ensures Abs(Decayed(s, decay)) < threshold ==> r.0.velocity == 0.0 && r.0.velocities == [] && r.1 == o
  {
    var v := Decayed(s, decay);
    if Abs(v) >= threshold then
      var moved := s.(velocity := v);
      if s.horizontal then (moved, o.(horizontal := NextOffset(o.horizontal, v, millisPerFrame)))
      else (moved, o.(vertical := NextOffset(o.vertical, v, millisPerFrame)))
    else
      (Zeroed(s), o)
  }

  /** n ticks in a row with no wheel input in between. */
  function Ticks(s: State, o: Offsets, threshold: real, decay: real, millisPerFrame: int, n: nat): (State, Offsets)
    decreases n
  {
    if n == 0 then (s, o)
    else
      var next := Tick(s, o, threshold, decay, millisPerFrame);
      Ticks(next.0, next.1, threshold, decay, millisPerFrame, n - 1)
  }

  /** Once wheel input has ended, friction brings the engine to rest, velocity zero and
      history empty, within any n ticks with n * (1 - decay) * threshold >= |velocity|.
      The bound is linear while the decay is geometric, so it is loose: from a velocity
      of 10 with decay 0.2 and threshold 0.01 it asks for 1250 ticks where 5 suffice. */
  lemma {:induction false} DecayReachesRest(s: State, o: Offsets, threshold: real, decay: real, millisPerFrame: int, n: nat)
    requires !s.scrolling
    requires 0.0 <= decay < 1.0 && threshold > 0.0
    requires n as real * (1.0 - decay) * threshold >= Abs(s.velocity)
    ensures Ticks(s, o, threshold, decay, millisPerFrame, n).0.velocity == 0.0
    ensures Ticks(s, o, threshold, decay, millisPerFrame, n).0.velocities == [] || n == 0
    decreases n
  {
    if n == 0 {
      assert s.velocity == 0.0;
    } else {
      var next := Tick(s, o, threshold, decay, millisPerFrame);
      var v := Decayed(s, decay);
      if Abs(v) >= threshold {
        assert next.0.velocity == v && !next.0.scrolling;
        assert v == s.velocity * decay;
        assert Abs(v) == Abs(s.velocity) * decay;
        FrictionBudget(Abs(s.velocity), Abs(v), decay, threshold, n);
        DecayReachesRest(next.0, next.1, threshold, decay, millisPerFrame, n - 1);
      } else {
        RestStaysAtRest(next.0, next.1, threshold, decay, millisPerFrame, n - 1);
      }
    }
  }

  /** The arithmetic of one tick above the threshold: a speed a that decays to
      b = a * decay, still at least the threshold, uses up one of the n ticks' worth
      of friction. */
  lemma FrictionBudget(a: real, b: real, decay: real, threshold: real, n: nat)
    requires a >= 0.0 && 0.0 <= decay < 1.0 && threshold > 0.0
    requires b == a * decay && b >= threshold
    requires n as real * (1.0 - decay) * threshold >= a
    ensures n >= 1 && (n - 1) as real * (1.0 - decay) * threshold >= b
  {
    ProductNonNegative(a, 1.0 - decay);
    assert a >= threshold;
    ProductNonNegative(1.0 - decay, a - threshold);
  }

  /** A stopped engine with no wheel input stays stopped and writes no offsets. */
  lemma {:induction false} RestStaysAtRest(s: State, o: Offsets, threshold: real, decay: real, millisPerFrame: int, n: nat)
    requires !s.scrolling && s.velocity == 0.0 && s.velocities == [] && threshold > 0.0
    ensures Ticks(s, o, threshold, decay, millisPerFrame, n) == (s, o)
    decreases n
  {
    if n > 0 {
      assert Tick(s, o, threshold, decay, millisPerFrame) == (s, o);
      RestStaysAtRest(s, o, threshold, decay, millisPerFrame, n - 1);
    }
  }

  /** A wheel event during which the host runs the callback as soon as it is registered:
      live input ends again and the history is dropped before the direction test, and
      the rest of the event runs on the emptied history. Such an event leaves scrolling
      off, takes its axis and rotation as usual, and keeps at most the one velocity it has
      just pushed; it keeps the speed bound and the rule that the engine never moves
      slower than the threshold. */
  function WheelMovedSettledAtOnce(s: State, e: WheelEvent, t: Tunables, millisPerFrame: int): (r: State)
    requires millisPerFrame >= 1
    ensures !r.scrolling && r.horizontal == (e.modifiersEx != 0) && r.lastWheelDelta == e.rotation
    ensures r.velocities == [] || r.velocities == [s.velocity + DeltaV(e, t.multiplier, millisPerFrame)]
    ensures t.speedLimit >= 0.0 && Abs(s.velocity) <= t.speedLimit ==> Abs(r.velocity) <= t.speedLimit
    ensures AtRestOrAbove(s.velocity, t.threshold) ==> AtRestOrAbove(r.velocity, t.threshold)
  {
    var cleared := ScrollingFinished(s);
    WheelMovedKeepsInvariants(cleared, e, t, millisPerFrame);
    assert Pushed([], s.velocity + DeltaV(e, t.multiplier, millisPerFrame)) == [s.velocity + DeltaV(e, t.multiplier, millisPerFrame)];
    WheelMoved(cleared, e, t, millisPerFrame).(scrolling := false)
  }

  /** The things that reach the engine on the event-dispatch thread, each with the
      configuration values its handler reads: a wheel event (the host running the callback
      later, or at once where it is registered), an animation tick with its threshold and
      decay factor, and the callback run between two inputs. */
  datatype Input =
    | Wheel(event: WheelEvent, tunables: Tunables)
    | WheelSettledAtOnce(event: WheelEvent, tunables: Tunables)
    | Frame(threshold: real, decay: real)
    | Settled

  /** One input, handled to completion. */
  function Step(s: State, o: Offsets, input: Input, millisPerFrame: int): (State, Offsets)
    requires millisPerFrame >= 1
  {
    match input
    case Wheel(e, t) => (WheelMoved(s, e, t, millisPerFrame), o)
    case WheelSettledAtOnce(e, t) => (WheelMovedSettledAtOnce(s, e, t, millisPerFrame), o)
    case Frame(threshold, decay) => Tick(s, o, threshold, decay, millisPerFrame)
    case Settled => (ScrollingFinished(s), o)
  }

  /** A run of inputs handled one after the other. */
  function Run(s: State, o: Offsets, inputs: seq<Input>, millisPerFrame: int): (State, Offsets)
    requires millisPerFrame >= 1
    decreases |inputs|
  {
    if inputs == [] then (s, o)
    else
      var next := Step(s, o, inputs[0], millisPerFrame);
      Run(next.0, next.1, inputs[1..], millisPerFrame)
  }

  /** The engine's invariants for fixed tunables: bounded history, speed within the
      limit, never moving slower than the threshold, and no negative scroll offset. */
  predicate Steady(s: State, o: Offsets, t: Tunables) {
    |s.velocities| <= MAX_VELOCITIES && Abs(s.velocity) <= t.speedLimit &&
    AtRestOrAbove(s.velocity, t.threshold) && o.horizontal >= 0 && o.vertical >= 0
  }

  /** Every decay factor in the run lies in [0, 1], as exp(-friction * MILLIS_PER_FRAME)
      does for a non-negative friction. */
  predicate DecaysWithinUnit(inputs: seq<Input>) {
    forall i :: 0 <= i < |inputs| && inputs[i].Frame? ==> 0.0 <= inputs[i].decay <= 1.0
  }

  /** Every handler in the run reads the same configuration t. */
  predicate TunedBy(inputs: seq<Input>, t: Tunables) {
    forall i :: 0 <= i < |inputs| ==>
      (inputs[i].Frame? ==> inputs[i].threshold == t.threshold) &&
      (inputs[i].Wheel? || inputs[i].WheelSettledAtOnce? ==> inputs[i].tunables == t)
  }

  /** While the configuration stays put, whatever mix of wheel events (with the callback
      run at once or later), ticks and callbacks arrives, the engine's invariants hold
      after each of them. */
  lemma {:induction false} RunStaysSteady(s: State, o: Offsets, inputs: seq<Input>, t: Tunables, millisPerFrame: int)
    requires millisPerFrame >= 1
    requires Steady(s, o, t) && DecaysWithinUnit(inputs) && TunedBy(inputs, t)
    ensures Steady(Run(s, o, inputs, millisPerFrame).0, Run(s, o, inputs, millisPerFrame).1, t)
    decreases |inputs|
  {
    if inputs != [] {
      var next := Step(s, o, inputs[0], millisPerFrame);
      match inputs[0] {
        case Wheel(e, _) =>
          WheelMovedKeepsInvariants(s, e, t, millisPerFrame);
        case WheelSettledAtOnce(_, _) =>
        case Frame(_, decay) =>
          assert 0.0 <= decay <= 1.0;
        case Settled =>
      }
      assert Steady(next.0, next.1, t);
      assert DecaysWithinUnit(inputs[1..]) && TunedBy(inputs[1..], t) by {
        forall i | 0 <= i < |inputs[1..]|
          ensures inputs[1..][i] == inputs[i + 1]
        {
        }
      }
      RunStaysSteady(next.0, next.1, inputs[1..], t, millisPerFrame);
    }
  }

  /** Whatever the configuration does between inputs, the history never exceeds
      MAX_VELOCITIES entries and no scroll offset goes negative. */
  lemma {:induction false} RunKeepsHistoryBound(s: State, o: Offsets, inputs: seq<Input>, millisPerFrame: int)
    requires millisPerFrame >= 1
    requires |s.velocities| <= MAX_VELOCITIES && o.horizontal >= 0 && o.vertical >= 0
    ensures var r := Run(s, o, inputs, millisPerFrame);
            |r.0.velocities| <= MAX_VELOCITIES && r.1.horizontal >= 0 && r.1.vertical >= 0
    decreases |inputs|
  {
    if inputs != [] {
      var next := Step(s, o, inputs[0], millisPerFrame);
      match inputs[0] {
        case Wheel(e, t) =>
          WheelMovedKeepsInvariants(s, e, t, millisPerFrame);
        case WheelSettledAtOnce(_, _) =>
        case Frame(_, _) =>
        case Settled =>
      }
      RunKeepsHistoryBound(next.0, next.1, inputs[1..], millisPerFrame);
    }
  }

  /** The speed bound, by contrast, does not survive a lowered speed limit: an engine
      moving at 5 under a limit of 5 receives a jitter event read with a limit of 3,
      which returns before either clamp, and it is left moving at 5. */
  lemma LoweredSpeedLimitOutlivesJitter()
    ensures var s := State(5.0, [5.0], 1.0, false, false);
            var before := Tunables(2.0, 5.0, 1.0, 1.0);
            var lowered := Tunables(2.0, 3.0, 1.0, 1.0);
            var r := Run(s, Offsets(0, 0), [Wheel(WheelEvent(0.5, 1, 0), lowered)], 1);
            Steady(s, Offsets(0, 0), before) && Abs(r.0.velocity) > lowered.speedLimit
  {
  }

  /** The engine starts steady for any non-negative speed limit and offsets. */
  lemma InitialIsSteady(o: Offsets, t: Tunables)
    requires t.speedLimit >= 0.0 && o.horizontal >= 0 && o.vertical >= 0
    ensures Steady(Initial, o, t)
  {
  }
}
