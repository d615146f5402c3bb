/** public/js/time.js: the clock in seconds and the whole number of days
    between two instants, rounded up. */
module Time {
  import opened Wrappers

  const SECONDS_PER_DAY: int := 86_400

  /** nowSeconds: the clock reading Date.now() (milliseconds, a parameter here)
      floored to whole seconds. */
  function NowSeconds(clockMs: int): (s: int)
    ensures s * 1000 <= clockMs < s * 1000 + 1000
  {
    clockMs / 1000
  }

  /** Math.ceil(seconds / SECONDS_PER_DAY) on an integral number of seconds. */
  function CeilDays(seconds: int): (days: int)
    ensures (days - 1) * 86_400 < seconds <= days * 86_400
  {
    -((-seconds) / SECONDS_PER_DAY)
  }

  /** nDaysDiff: the days from `timeInSeconds` to `from`, rounded up; a null
      `from` is the clock's nowSeconds(). */
  function NDaysDiff(timeInSeconds: int, from: Option<int>, clockMs: int): (days: int)
    ensures var f := if from.None? then NowSeconds(clockMs) else from.value;
            (days - 1) * SECONDS_PER_DAY < f - timeInSeconds <= days * SECONDS_PER_DAY
  {
    var f := if from.None? then NowSeconds(clockMs) else from.value;
    CeilDays(f - timeInSeconds)
  }

  /** The same instant is zero days away. */
  lemma NDaysDiffSelf(t: int, clockMs: int)
    ensures NDaysDiff(t, Some(t), clockMs) == 0
  {
  }

  /** Exactly k days apart gives k. */
  lemma NDaysDiffWholeDays(t: int, k: int, clockMs: int)
    ensures NDaysDiff(t, Some(t + k * SECONDS_PER_DAY), clockMs) == k
  {
  }

  /** Any positive span of at most one day rounds up to one day. */
  lemma NDaysDiffWithinOneDay(t: int, from: int, clockMs: int)
    requires 0 < from - t <= SECONDS_PER_DAY
    ensures NDaysDiff(t, Some(from), clockMs) == 1
  {
  }

  /** A due time not yet reached is zero or a negative number of days away. */
  lemma NDaysDiffFuture(t: int, from: int, clockMs: int)
    requires t >= from
    ensures NDaysDiff(t, Some(from), clockMs) <= 0
  {
  }

  /** The result grows with `from` and shrinks as `t` grows. */
  lemma NDaysDiffMonotone(t: int, t': int, from: int, from': int, clockMs: int)
    requires t' <= t && from <= from'
    ensures NDaysDiff(t, Some(from), clockMs) <= NDaysDiff(t', Some(from'), clockMs)
  {
  }

  /** A null `from` is the clock reading, floored to seconds. */
  lemma NDaysDiffDefaultsToClock(t: int, clockMs: int)
    ensures NDaysDiff(t, None, clockMs) == NDaysDiff(t, Some(clockMs / 1000), clockMs)
  {
  }
}
