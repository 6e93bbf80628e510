# Smooth scroller: inertial scrolling engine

A Dafny model of `SmoothScrollerMouseWheelListener`, the engine of the smooth-scroller
editor plugin. It turns mouse-wheel events into a velocity, then moves the editor's scroll
offset at that velocity on each animation frame. Friction slows it down once wheel input
ends.

What the engine does:

- Each wheel event marks scrolling as live and picks the axis from the modifier keys.
- A change of wheel direction drops all momentum.
- Jitter is ignored: a same-direction increment below the threshold leaves the velocity and
  history alone.
- Any other event:
  - appends the old velocity plus the increment to a history of at most ten velocities;
  - sets the velocity to the history's average;
  - clamps that velocity first against an acceleration limit, then against a speed limit;
  - brings the engine to rest if the result is below the threshold.
- Each animation tick:
  - decays the velocity by friction, unless wheel input is live;
  - writes the offset `max(0, round(current + velocity * MILLIS_PER_FRAME))` to the chosen
    axis;
  - or brings the engine to rest when the velocity is below the threshold.
- The host editor's "scrolling finished" callback ends live input and clears the history.

Layout:

- `numerics.dfy` (`Numerics`): stand-ins for the `java.lang.Math` calls.
- `frame_rate.dfy` (`FrameRate`): the frame interval `MILLIS_PER_FRAME`.
- `velocity_history.dfy` (`VelocityHistory`): the bounded history and `getAverage`.
- `scroll_physics.dfy` (`ScrollPhysics`): the engine as pure functions of its state. Covers a
  wheel event (`WheelMoved`), a tick (`Tick`), the callback (`ScrollingFinished`) and any
  interleaving of them (`Run`), each input carrying the configuration values its handler
  reads, with the lemmas about them.
- `listener.dfy` (`SmoothScroller`): the listener as a class whose methods update its fields
  and the scrolling model's offsets in place. Each method is proved to leave exactly the state
  the matching `ScrollPhysics` function computes.

`mouseWheelMoved` is written as several methods with the source's statements, in the
source's order:

- `MouseWheelMoved` runs up to the direction test.
- `AddIncrement` runs from the increment onwards.
- `AddIncrement`'s history update is the method `PushVelocity`. Its two clamps are
  `LimitVelocity`, which runs `LimitAcceleration` and then `LimitSpeed`.
- Both call `ZeroVelocity`, the model of `zeroVelocity`.

Java `double` is modelled as an exact `real`.

The values the engine reads from its configuration are parameters:

- wheel events read the threshold, speed limit, acceleration limit and multiplier;
- a tick reads the threshold, plus friction through the decay factor.

The decay factor `Math.exp(-friction * MILLIS_PER_FRAME)` is a parameter `decay`. Properties
that need it bounded assume `0 <= decay <= 1`, which holds for any non-negative friction.

## Model

| member | source | states |
|---|---|---|
| Numerics.JavaRound | src/main/java/com/weebly/opus1269/smoothscroller/SmoothScrollerMouseWheelListener.java:202-204 | `Math.round`: the result is the integer nearest to its argument, halves rounded up (`r - 1/2 <= x < r + 1/2`) |
| Numerics.Abs | src/main/java/com/weebly/opus1269/smoothscroller/SmoothScrollerMouseWheelListener.java:153-161 | `Math.abs`: the result is non-negative and is either the argument or its negation |
| Numerics.Signum | src/main/java/com/weebly/opus1269/smoothscroller/SmoothScrollerMouseWheelListener.java:153-159 | `Math.signum`: the result times the argument's magnitude gives back the argument; it is 0 for 0 and has magnitude 1 otherwise |
| FrameRate.FrameIntervalAsWritten | src/main/java/com/weebly/opus1269/smoothscroller/SmoothScrollerMouseWheelListener.java:68 | `1000 / FRAMES_PER_SECOND` as written: no value (the division throws) exactly when the rate is 0; otherwise the truncated quotient `q`, with `q * fps <= 1000 < (q + 1) * fps` |
| FrameRate.FrameIntervalAsWrittenIsZeroAbove1000Hz | src/main/java/com/weebly/opus1269/smoothscroller/SmoothScrollerMouseWheelListener.java:68 | any display faster than 1000 Hz makes the written frame interval 0 |
| FrameRate.FrameInterval | src/main/java/com/weebly/opus1269/smoothscroller/SmoothScrollerMouseWheelListener.java:68 | the corrected interval is at least 1 ms; from 1 to 1000 Hz it equals the source's value; with no known rate it is the 60 Hz interval |
| VelocityHistory.GetAverage | src/main/java/com/weebly/opus1269/smoothscroller/SmoothScrollerMouseWheelListener.java:233-242 | the loop returns the arithmetic mean of the list (its sum over its size), and 0 for an empty list |
| VelocityHistory.SumWithin | src/main/java/com/weebly/opus1269/smoothscroller/SmoothScrollerMouseWheelListener.java:236-238 | a sum of entries that all lie in `[lo, hi]` lies in `[n * lo, n * hi]` |
| VelocityHistory.AverageWithin | src/main/java/com/weebly/opus1269/smoothscroller/SmoothScrollerMouseWheelListener.java:149 | the velocity set from the history's average never leaves the range its entries span |
| VelocityHistory.Newest | src/main/java/com/weebly/opus1269/smoothscroller/SmoothScrollerMouseWheelListener.java:88-90 | the newest `MAX_VELOCITIES` entries: a suffix of the input of length `min(length, 10)` |
| VelocityHistory.Pushed | src/main/java/com/weebly/opus1269/smoothscroller/SmoothScrollerMouseWheelListener.java:144-147 | after `remove(0)` on a full list and `add`, the new value is the last entry; a history of at most 10 entries stays within 10 |
| VelocityHistory.PushedKeepsNewest | src/main/java/com/weebly/opus1269/smoothscroller/SmoothScrollerMouseWheelListener.java:144-147 | on a history within the bound, one push keeps exactly the newest 10 of the old entries plus the new one |
| VelocityHistory.PushAllKeepsNewest | src/main/java/com/weebly/opus1269/smoothscroller/SmoothScrollerMouseWheelListener.java:144-147 | however many velocities are pushed, the history is exactly the newest 10 values and its length is `min(old + pushed, 10)` |
| ScrollPhysics.SameDirectionIsPositiveProduct | src/main/java/com/weebly/opus1269/smoothscroller/SmoothScrollerMouseWheelListener.java:122 | `mLastWheelDelta * wheelDelta > 0` holds exactly when both deltas are non-zero with the same sign; a first event (last delta 0) and a zero rotation count as a change of direction |
| ScrollPhysics.DeltaV | src/main/java/com/weebly/opus1269/smoothscroller/SmoothScrollerMouseWheelListener.java:132-133 | the velocity increment times `MILLIS_PER_FRAME` is the scroll delta `scrollAmount * rotation * multiplier` |
| ScrollPhysics.Zeroed | src/main/java/com/weebly/opus1269/smoothscroller/SmoothScrollerMouseWheelListener.java:222-225 | `zeroVelocity` on the state: velocity 0 and an empty history, with the last delta and both flags kept |
| ScrollPhysics.AccelerationLimited | src/main/java/com/weebly/opus1269/smoothscroller/SmoothScrollerMouseWheelListener.java:151-155 | with a non-negative limit, the clamped velocity is within `accelerationLimit * MILLIS_PER_FRAME` of the old velocity, and it lies between the old velocity and the average. An average already within reach is kept unchanged; one out of reach is approached by exactly `accelerationLimit * MILLIS_PER_FRAME` |
| ScrollPhysics.PerFrameScaling | src/main/java/com/weebly/opus1269/smoothscroller/SmoothScrollerMouseWheelListener.java:152-153 | dividing the change by `MILLIS_PER_FRAME` keeps its sign, and its per-millisecond size exceeds the limit exactly when the change exceeds `accelerationLimit * MILLIS_PER_FRAME` |
| ScrollPhysics.SpeedLimited | src/main/java/com/weebly/opus1269/smoothscroller/SmoothScrollerMouseWheelListener.java:157-160 | with a non-negative limit the result's magnitude is at most the limit; a velocity within the limit is unchanged; a faster one keeps its sign and takes exactly the limit's magnitude |
| ScrollPhysics.SnapToRest | src/main/java/com/weebly/opus1269/smoothscroller/SmoothScrollerMouseWheelListener.java:161-163 | the engine ends at rest or at least at the threshold: a velocity below it (0 included) zeroes velocity and history, any other keeps both; the flags are untouched |
| ScrollPhysics.Estimated | src/main/java/com/weebly/opus1269/smoothscroller/SmoothScrollerMouseWheelListener.java:140-163 | an accepted event leaves either velocity 0 with an empty history, or the pushed history with a speed at least the threshold. The speed never exceeds a non-negative speed limit, and the flags are untouched |
| ScrollPhysics.EstimatedFollowsAverage | src/main/java/com/weebly/opus1269/smoothscroller/SmoothScrollerMouseWheelListener.java:140-155 | when neither clamp nor the threshold applies, the new velocity is exactly the average of the history, which now ends with old velocity + `deltaV` |
| ScrollPhysics.Live | src/main/java/com/weebly/opus1269/smoothscroller/SmoothScrollerMouseWheelListener.java:111-123 | every event sets scrolling, takes the axis from the modifiers and records its rotation as the last delta, leaving velocity and history as they were |
| ScrollPhysics.WheelMoved | src/main/java/com/weebly/opus1269/smoothscroller/SmoothScrollerMouseWheelListener.java:104-164 | `mouseWheelMoved`: every event sets scrolling, takes the axis from the modifiers and records its rotation. A direction change zeroes velocity and history. Jitter below the threshold leaves both unchanged. Any other event gives exactly the accepted-path result `Estimated` |
| ScrollPhysics.WheelMovedKeepsInvariants | src/main/java/com/weebly/opus1269/smoothscroller/SmoothScrollerMouseWheelListener.java:104-164 | a wheel event preserves the history bound of 10, the speed bound, and the rule that the engine is at rest or at least at the threshold |
| ScrollPhysics.WheelMovedSettledAtOnce | src/main/java/com/weebly/opus1269/smoothscroller/SmoothScrollerMouseWheelListener.java:111-164 | when the host runs the callback the moment it is registered, the event ends with scrolling off, the axis and rotation recorded, a history that is empty or holds only old velocity + `deltaV`, and the speed bound and at-rest-or-above rule kept |
| ScrollPhysics.ScrollingFinished | src/main/java/com/weebly/opus1269/smoothscroller/SmoothScrollerMouseWheelListener.java:114-117 | the callback ends live scrolling and empties the history; velocity, last delta and axis are unchanged |
| ScrollPhysics.Decayed | src/main/java/com/weebly/opus1269/smoothscroller/SmoothScrollerMouseWheelListener.java:193-196 | no decay while scrolling; with a decay in `[0, 1]` the speed never grows and never changes sign; with decay below 1 and no live input a moving engine strictly slows |
| ScrollPhysics.NextOffset | src/main/java/com/weebly/opus1269/smoothscroller/SmoothScrollerMouseWheelListener.java:202-211 | the written offset is never negative: 0 when `current + v * MILLIS_PER_FRAME` is below 1/2, otherwise the nearest integer to it |
| ScrollPhysics.Tick | src/main/java/com/weebly/opus1269/smoothscroller/SmoothScrollerMouseWheelListener.java:189-217 | `update`: flags are kept and the engine ends at rest or at least at the threshold. At or above the threshold the velocity is the decayed one, the history is kept, and only the chosen axis is rewritten. Below it, velocity and history are zeroed and neither offset is written |
| ScrollPhysics.FrictionBudget | src/main/java/com/weebly/opus1269/smoothscroller/SmoothScrollerMouseWheelListener.java:195 | one decay step above the threshold uses up at least one tick's worth of the friction budget `(1 - decay) * threshold` |
| ScrollPhysics.DecayReachesRest | src/main/java/com/weebly/opus1269/smoothscroller/SmoothScrollerMouseWheelListener.java:189-217 | once input has ended, with `decay < 1` and a positive threshold, the engine comes to rest within any `n` ticks with `n * (1 - decay) * threshold >= |velocity|` |
| ScrollPhysics.RestStaysAtRest | src/main/java/com/weebly/opus1269/smoothscroller/SmoothScrollerMouseWheelListener.java:213-216 | a stopped engine without input stays stopped and never writes an offset |
| ScrollPhysics.RunStaysSteady | src/main/java/com/weebly/opus1269/smoothscroller/SmoothScrollerMouseWheelListener.java:104-217 | while the configuration stays the same, across any interleaving of wheel events (callback run at once or later), ticks (decay in `[0, 1]`) and callbacks, four things hold: the history bound, the speed limit, at-rest-or-above-threshold, and non-negative offsets |
| ScrollPhysics.RunKeepsHistoryBound | src/main/java/com/weebly/opus1269/smoothscroller/SmoothScrollerMouseWheelListener.java:104-217 | with the configuration re-read by every handler and free to change between inputs, the history bound of 10 and non-negative offsets hold across any interleaving |
| ScrollPhysics.LoweredSpeedLimitOutlivesJitter | src/main/java/com/weebly/opus1269/smoothscroller/SmoothScrollerMouseWheelListener.java:135-137 | a speed limit lowered from 5 to 3 between events is not enforced by a jitter event, which returns before the clamps: the engine keeps moving at 5 |
| ScrollPhysics.InitialIsSteady | src/main/java/com/weebly/opus1269/smoothscroller/SmoothScrollerMouseWheelListener.java:77-89 | the field initialisers satisfy those invariants |
| SmoothScroller.SmoothScrollerMouseWheelListener.constructor | src/main/java/com/weebly/opus1269/smoothscroller/SmoothScrollerMouseWheelListener.java:77-101 | a new engine holds the initial field values, the given scrolling model and a frame interval of at least 1 ms |
| SmoothScroller.SmoothScrollerMouseWheelListener.ZeroVelocity | src/main/java/com/weebly/opus1269/smoothscroller/SmoothScrollerMouseWheelListener.java:222-225 | sets velocity 0 and empties the history; touches nothing else |
| SmoothScroller.SmoothScrollerMouseWheelListener.OnScrollingFinished | src/main/java/com/weebly/opus1269/smoothscroller/SmoothScrollerMouseWheelListener.java:114-117 | the fields afterwards are `ScrollingFinished` of the fields before |
| SmoothScroller.SmoothScrollerMouseWheelListener.MouseWheelMoved | src/main/java/com/weebly/opus1269/smoothscroller/SmoothScrollerMouseWheelListener.java:104-164 | the fields afterwards are `WheelMoved` of the fields before, and the history bound is kept |
| SmoothScroller.SmoothScrollerMouseWheelListener.AddIncrement | src/main/java/com/weebly/opus1269/smoothscroller/SmoothScrollerMouseWheelListener.java:131-163 | an increment below the threshold changes nothing; otherwise the fields become the accepted-path result `Estimated` |
| SmoothScroller.SmoothScrollerMouseWheelListener.PushVelocity | src/main/java/com/weebly/opus1269/smoothscroller/SmoothScrollerMouseWheelListener.java:144-147 | the history becomes `Pushed` of the old one; the other fields are unchanged |
| SmoothScroller.SmoothScrollerMouseWheelListener.LimitVelocity | src/main/java/com/weebly/opus1269/smoothscroller/SmoothScrollerMouseWheelListener.java:151-160 | the velocity becomes the speed-clamped value of the acceleration-clamped average |
| SmoothScroller.SmoothScrollerMouseWheelListener.LimitAcceleration | src/main/java/com/weebly/opus1269/smoothscroller/SmoothScrollerMouseWheelListener.java:151-155 | the velocity becomes the acceleration-clamped average |
| SmoothScroller.SmoothScrollerMouseWheelListener.LimitSpeed | src/main/java/com/weebly/opus1269/smoothscroller/SmoothScrollerMouseWheelListener.java:157-160 | the velocity becomes the speed-clamped velocity |
| SmoothScroller.SmoothScrollerMouseWheelListener.Update | src/main/java/com/weebly/opus1269/smoothscroller/SmoothScrollerMouseWheelListener.java:189-217 | the fields and both scroll offsets afterwards are `Tick` of those before |

## Left out

- The static initializer's display query is not modelled (lines 50-66). It is hardware I/O;
  the highest refresh rate is a parameter of the constructor. Its logging is left out too.
- `mTimer`, `actionPerformed`, `startAnimating` and `stopAnimating` are not modelled. They
  are timer scheduling; one firing of the timer is one call of `Update`.
- The constructor's editor lookup and its call to `disableAnimation` are not modelled. They
  belong to the host editor; the model receives the scrolling model directly.
- Registering the callback with `runActionOnScrollingFinished` is not modelled. The host
  decides when the callback runs. Its body is `OnScrollingFinished`. In `Run` it runs either
  between two inputs (`Settled`) or at once where it is registered, in the middle of a wheel
  event (`WheelSettledAtOnce`); the class's `MouseWheelMoved` covers only the first.
- ScrollPhysics.RunStaysSteady: the speed bound and the at-rest-or-above rule are proved only
  for a run whose handlers all read the same configuration. Under any retuning only the
  history bound and the offsets are proved (`RunKeepsHistoryBound`).
  - A lowered speed limit is applied only by the next accepted event (line 158), or cleared by
    a change of direction (line 127). A jitter event returns before the clamps
    (`LoweredSpeedLimitOutlivesJitter`).
  - Ticks never read the speed limit. While input is live they do not decay the velocity
    either. Among ticks, only friction after input ends, or a threshold raised above the
    current speed (line 215), brings the speed under a lowered limit.
  - A raised threshold is applied by the next accepted event (line 161) or the next tick
    (line 215).
- Reads from the configuration store are not modelled; the values arrive as parameters.
- `Math.exp` is not modelled: the decay factor is a parameter.
- IEEE 754 arithmetic is not modelled: no rounding error, infinity or NaN. Every velocity is
  an exact real.
- ScrollPhysics.NextOffset: the `(int)` cast of the `long` that `Math.round` returns is not
  modelled, so offsets beyond the `int` range do not wrap. Offsets are unbounded integers.
- Concurrency is not modelled. Wheel events, ticks and the callback are handled one at a time,
  as on the event-dispatch thread.

## Findings

| source | as written | input that shows it | evidently intended | confidence | as-written member | corrected member |
|---|---|---|---|---|---|---|
| src/main/java/com/weebly/opus1269/smoothscroller/SmoothScrollerMouseWheelListener.java:68 | `MILLIS_PER_FRAME = 1000 / FRAMES_PER_SECOND` in `int` arithmetic | a display reporting 1001 Hz gives `MILLIS_PER_FRAME = 0`. Line 133 then turns every increment into an infinite or NaN `deltaV`. No display, or only 0 Hz displays, makes line 68 itself throw | a frame interval of at least one millisecond | medium, not executed | FrameRate.FrameIntervalAsWrittenIsZeroAbove1000Hz | FrameRate.FrameInterval |
