/** The game's clocks, in integer milliseconds: the countdown shown to the
    player and the spawn cadence of targets. */
module Timing {

  import opened CppArith

  /** Length of a session, in whole seconds (`gameDuration`). */
  const GameDuration: int := 30

  const MillisPerSecond: int := 1000

  /** A new target is spawned once this much time has passed since the last one. */
  const SpawnIntervalMs: int := 3 * MillisPerSecond

  /** Seconds left in the session: the duration minus the elapsed time in
      seconds, the fraction cut off as `static_cast<int>` does. */
  function RemainingTime(duration: int, elapsedMs: int): (r: int)
    ensures elapsedMs >= 0 ==> r <= duration
    ensures elapsedMs <= 0 ==> r >= duration
    ensures elapsedMs >= 0 ==>
      (duration - r) * MillisPerSecond <= elapsedMs < (duration - r + 1) * MillisPerSecond
  {
    duration - TruncDiv(elapsedMs, MillisPerSecond)
  }

  /** The session is over exactly when 30 whole seconds have elapsed; a clock
      reading before the start (negative elapsed time) never ends it. */
  lemma TimeUpIff(elapsedMs: int)
    ensures RemainingTime(GameDuration, elapsedMs) <= 0
        <==> elapsedMs >= GameDuration * MillisPerSecond
  {
    if elapsedMs >= 0 {
      TruncDivOfNonNegative(elapsedMs, MillisPerSecond);
    }
  }

  /** The countdown never goes up as time passes. */
  lemma RemainingTimeNonIncreasing(duration: int, e: int, e': int)
    requires e <= e'
    ensures RemainingTime(duration, e') <= RemainingTime(duration, e)
  {
    if e >= 0 {
      TruncDivOfNonNegative(e, MillisPerSecond);
      TruncDivOfNonNegative(e', MillisPerSecond);
    } else if e' <= 0 {
      TruncDivOfNonNegative(-e, MillisPerSecond);
      TruncDivOfNonNegative(-e', MillisPerSecond);
    }
  }

  /** At least three seconds have passed since the last spawn at `last`: the
      elapsed time, in seconds with the fraction cut off, is at least 3. */
  predicate SpawnDue(now: int, last: int)
    ensures SpawnDue(now, last) <==> TruncDiv(now - last, MillisPerSecond) >= 3
  {
    now - last >= SpawnIntervalMs
  }
}
