/** The animation frame interval, MILLIS_PER_FRAME.
    The source derives it once, as `1000 / FRAMES_PER_SECOND` in Java `int` arithmetic,
    from the highest refresh rate reported by any display (the display query itself is
    not part of this model: the rate is a parameter). */
module FrameRate {

  datatype Option<T> = None | Some(value: T)

  /** Refresh rate assumed when no display reports one (60 Hz). */
  const FALLBACK_FRAMES_PER_SECOND: nat := 60

  /** The frame interval as the source writes it. Java's integer division throws
      when the rate is 0 (no display, or every display reports 0 Hz): that is `None`.
      On non-negative operands Java's truncating division and Dafny's agree. */
  function FrameIntervalAsWritten(framesPerSecond: nat): (r: Option<int>)
    ensures r.None? <==> framesPerSecond == 0
    ensures r.Some? ==> r.value >= 0 && r.value * framesPerSecond <= 1000 < (r.value + 1) * framesPerSecond
  {
    if framesPerSecond == 0 then None else Some(1000 / framesPerSecond)
  }

  /** A display faster than 1000 Hz makes the written interval 0, after which every
      velocity increment `scrollDelta / MILLIS_PER_FRAME` divides by zero. */
  lemma FrameIntervalAsWrittenIsZeroAbove1000Hz(framesPerSecond: nat)
    requires framesPerSecond > 1000
    ensures FrameIntervalAsWritten(framesPerSecond) == Some(0)
  {
  }

  /** The frame interval the rest of the model uses: the source's value wherever that is
      a positive number of milliseconds, at least one millisecond above 1000 Hz, and the
      60 Hz interval when no rate is known. */
  function FrameInterval(framesPerSecond: nat): (r: int)
    ensures r >= 1
    ensures 1 <= framesPerSecond <= 1000 ==> FrameIntervalAsWritten(framesPerSecond) == Some(r)
    ensures framesPerSecond == 0 ==> FrameIntervalAsWritten(FALLBACK_FRAMES_PER_SECOND) == Some(r)
  {
    if framesPerSecond == 0 then 1000 / FALLBACK_FRAMES_PER_SECOND
    else if framesPerSecond > 1000 then 1
    else 1000 / framesPerSecond
  }
}
