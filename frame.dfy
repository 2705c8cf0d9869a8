/**
 * The time-step clamp of the animation `loop`: the elapsed wall-clock time,
 * converted from milliseconds to seconds, capped at 0.033 s.
 */
module FrameLoop {

  /** Largest time step, in seconds, that one frame may simulate. */
  const MaxStep := 0.033

  /**
   * `Math.min((now - last) / 1000, 0.033)` for clock readings in milliseconds:
   * never more than the cap and never more than the elapsed seconds, and equal
   * to one of the two. There is no lower bound: a clock that went backwards
   * gives a negative step.
   */
  function ClampDt(now: real, last: real): (dt: real)
    ensures dt <= MaxStep && dt <= (now - last) / 1000.0
    ensures dt == MaxStep || dt == (now - last) / 1000.0
  {
    var elapsed := (now - last) / 1000.0;
    if elapsed <= MaxStep then elapsed else MaxStep
  }

  /** A long gap, such as a tab that was in the background for five seconds, simulates only the cap. */
  lemma LongGapIsCapped(last: real)
    ensures ClampDt(last + 5000.0, last) == MaxStep
  {
  }
}
