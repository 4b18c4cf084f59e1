/**
 * The throttle shared by every animation callback of the repository: a
 * callback at `currentTime` does its work only when at least `interval`
 * milliseconds have passed since the last time it did, and otherwise only
 * asks for the next frame.
 */
module Gate {

  /**
   * Whether a callback at `currentTime` passes a gate last opened at `last`:
   * the negation of the source's early-return test, which holds exactly
   * when the next allowed time `last + interval` has been reached.
   */
  function FrameDue(currentTime: real, last: real, interval: real): (due: bool)
    ensures due <==> last + interval <= currentTime
  {
    !(currentTime - last < interval)
  }
}
