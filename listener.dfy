/** SmoothScrollerMouseWheelListener: the engine object whose fields the wheel handler
    and the animation tick update in place, and the scrolling model it writes offsets to. */
module SmoothScroller {
  import opened Numerics
  import opened FrameRate
  import opened VelocityHistory
  import opened ScrollPhysics

  /** The host editor's scrolling model, reduced to its two scroll offsets. */
  class ScrollingModel {
    var horizontalOffset: int
    var verticalOffset: int

    constructor (horizontal: int, vertical: int)
      ensures horizontalOffset == horizontal && verticalOffset == vertical
    {
      horizontalOffset := horizontal;
      verticalOffset := vertical;
    }
  }

  class SmoothScrollerMouseWheelListener {
    const scrollingModel: ScrollingModel
    /** MILLIS_PER_FRAME, fixed when the engine is created. */
    const millisPerFrame: int

    var lastWheelDelta: real
    var scrolling: bool
    var scrollingHorizontal: bool
    var velocity: real
    var velocities: seq<real>

    ghost predicate Valid()
      reads this
    {
      millisPerFrame >= 1 && |velocities| <= MAX_VELOCITIES
    }

    /** The engine's fields as a value. */
    ghost function Snapshot(): State
      reads this
    {
      State(velocity, velocities, lastWheelDelta, scrolling, scrollingHorizontal)
    }

    /** The scrolling model's offsets as a value. */
    ghost function ModelOffsets(): Offsets
      reads scrollingModel
    {
      Offsets(scrollingModel.horizontalOffset, scrollingModel.verticalOffset)
    }

    /** Attaches to a scrolling model; framesPerSecond is the highest display
        refresh rate, from which the frame interval is derived. */
    constructor (model: ScrollingModel, framesPerSecond: nat)
      ensures Valid()
      ensures scrollingModel == model && millisPerFrame == FrameInterval(framesPerSecond)
      ensures Snapshot() == Initial
    {
      scrollingModel := model;
      millisPerFrame := FrameInterval(framesPerSecond);
      lastWheelDelta := 0.0;
      scrolling := false;
      scrollingHorizontal := false;
      velocity := 0.0;
      velocities := [];
    }

    /** zeroVelocity */
    method ZeroVelocity()
      modifies this
      ensures velocity == 0.0 && velocities == []
      ensures lastWheelDelta == old(lastWheelDelta) && scrolling == old(scrolling)
      ensures scrollingHorizontal == old(scrollingHorizontal)
    {
      velocity := 0.0;
      velocities := [];
    }

    /** The body of the callback registered with runActionOnScrollingFinished. */
    method OnScrollingFinished()
      requires Valid()
      modifies this
      ensures Valid()
      ensures Snapshot() == ScrollingFinished(old(Snapshot()))
    {
      scrolling := false;
      velocities := [];
    }

    /** mouseWheelMoved, with the configuration values passed in. */
    method MouseWheelMoved(e: WheelEvent, t: Tunables)
      requires Valid()
      modifies this
      ensures Valid()
      ensures Snapshot() == WheelMoved(old(Snapshot()), e, t, millisPerFrame)
    {
      // no easing while wheel input is live
      scrolling := true;
      scrollingHorizontal := e.modifiersEx != 0;

      var wheelDelta := e.rotation;
      var sameDirection := lastWheelDelta * wheelDelta > 0.0;
      SameDirectionIsPositiveProduct(lastWheelDelta, wheelDelta);
      lastWheelDelta := wheelDelta;

      if !sameDirection {
        ZeroVelocity();
        return;
      }

      AddIncrement(e, t);
    }

    /** The part of mouseWheelMoved after a same-direction test has passed: the velocity
        increment is computed, ignored when below the threshold, and otherwise accepted. */
    method AddIncrement(e: WheelEvent, t: Tunables)
      requires Valid()
      modifies this
      ensures Valid()
      ensures var deltaV := DeltaV(e, t.multiplier, millisPerFrame);
              Snapshot() == if Abs(deltaV) < t.threshold then old(Snapshot())
                            else Estimated(old(Snapshot()), deltaV, t, millisPerFrame)
    {
      var scrollDelta := e.scrollAmount as real * e.rotation * t.multiplier;
      var deltaV := scrollDelta / millisPerFrame as real;
      assert deltaV == DeltaV(e, t.multiplier, millisPerFrame);
      if Abs(deltaV) < t.threshold {
        // skip small movements
        return;
      }

      var oldVelocity := velocity;
      PushVelocity(velocity + deltaV);
      ghost var pushed := velocities;
      var average := GetAverage(velocities);
      velocity := average;
      LimitVelocity(oldVelocity, t);
      ghost var limited := velocity;
      if Abs(velocity) < t.threshold {
        ZeroVelocity();
      }
      assert Snapshot() == SnapToRest(old(Snapshot()), pushed, limited, t.threshold);
    }

    /** Appends to the history, first dropping its oldest entry when it is full. */
    method PushVelocity(newVelocity: real)
      requires Valid()
      modifies this
      ensures Valid()
      ensures velocities == Pushed(old(velocities), newVelocity)
      ensures velocity == old(velocity) && lastWheelDelta == old(lastWheelDelta)
      ensures scrolling == old(scrolling) && scrollingHorizontal == old(scrollingHorizontal)
    {
      if |velocities| == MAX_VELOCITIES {
        velocities := velocities[1..];
      }
      velocities := velocities + [newVelocity];
    }

    /** The two clamps on the averaged velocity, acceleration first, then speed. */
    method LimitVelocity(oldVelocity: real, t: Tunables)
      requires Valid()
      modifies this`velocity
      ensures velocity == SpeedLimited(AccelerationLimited(oldVelocity, old(velocity), t.accelerationLimit, millisPerFrame),
                                       t.speedLimit)
    {
      LimitAcceleration(oldVelocity, t.accelerationLimit);
      LimitSpeed(t.speedLimit);
    }

    /** The acceleration clamp on the averaged velocity, relative to oldVelocity. */
    method LimitAcceleration(oldVelocity: real, accelerationLimit: real)
      requires Valid()
      modifies this`velocity
      ensures velocity == AccelerationLimited(oldVelocity, old(velocity), accelerationLimit, millisPerFrame)
    {
      var acc := (velocity - oldVelocity) / millisPerFrame as real;
      if Abs(acc) > accelerationLimit {
        velocity := oldVelocity + accelerationLimit * millisPerFrame as real * Signum(acc);
      }
    }

    /** The speed clamp. */
    method LimitSpeed(speedLimit: real)
      modifies this`velocity
      ensures velocity == SpeedLimited(old(velocity), speedLimit)
    {
      if Abs(velocity) > speedLimit {
        velocity := speedLimit * Signum(velocity);
      }
    }

    /** update, with the threshold passed in and Math.exp(-friction * MILLIS_PER_FRAME)
        passed in as decay. */
    method Update(threshold: real, decay: real)
      requires Valid()
      modifies this, scrollingModel
      ensures Valid()
      ensures (Snapshot(), ModelOffsets()) == Tick(old(Snapshot()), old(ModelOffsets()), threshold, decay, millisPerFrame)
    {
      ghost var before := Snapshot();
      if !scrolling {
        velocity := velocity * decay;
      }
      assert velocity == Decayed(before, decay);

      if Abs(velocity) >= threshold {
        if scrollingHorizontal {
          var currentOffset := scrollingModel.horizontalOffset;
          scrollingModel.horizontalOffset := NextOffset(currentOffset, velocity, millisPerFrame);
        } else {
          var currentOffset := scrollingModel.verticalOffset;
          scrollingModel.verticalOffset := NextOffset(currentOffset, velocity, millisPerFrame);
        }
      } else {
        ZeroVelocity();
      }
    }
  }
}
