/**
 * The closed, minute-aligned interval spanning a set of events and the
 * evenly spaced grid of instants generated over it.
 */
module TimeGrid {
  import opened Wrappers
  import opened Types

  /** The instant with its seconds and microseconds cleared: the start of its minute. */
  function FloorMinute(t: int): (m: int)
    ensures m % MinuteMicros == 0
    ensures m <= t < m + MinuteMicros
  {
    t - t % MinuteMicros
  }

  /** A minute-aligned instant within a minute before `t` can only be `FloorMinute(t)`. */
  lemma FloorMinuteUnique(m: int, t: int)
    requires m % MinuteMicros == 0
    requires m <= t < m + MinuteMicros
    ensures m == FloorMinute(t)
  {
  }

  /**
   * The interval from the start of `first`'s minute to the start of the
   * minute after `last` (or after `first` when no `last` is given). Fails
   * when a `last` is given that is not strictly after `first`.
   */
  function CalculateClosedTimeInterval(first: int, last: Option<int> := None): (r: Result<TimeInterval, ValueError>)
    ensures r.Err? <==> last.Some? && first >= last.value
    ensures r.Err? ==> r.error == FirstNotBeforeLast
    ensures r.Ok? ==>
      var iv := r.value;
      var upto := last.GetOr(first);
      && iv.start % MinuteMicros == 0 && iv.start <= first < iv.start + MinuteMicros
      && iv.end % MinuteMicros == 0 && iv.end - MinuteMicros <= upto < iv.end
    ensures r.Ok? ==> r.value.start < r.value.end && (r.value.end - r.value.start) % MinuteMicros == 0
  {
    if last.Some? && first >= last.value then
      Err(FirstNotBeforeLast)
    else
      var start := FloorMinute(first);
      var end := (if last.Some? then FloorMinute(last.value) else start) + MinuteMicros;
      Ok(TimeInterval(start, end))
  }

  lemma MulWithinOne(x: int, b: int)
    requires b > 0
    requires -b < x * b < b
    ensures x == 0
  {
  }

  lemma DivUnique(a: int, b: int, q: int)
    requires b > 0
    requires q * b <= a < q * b + b
    ensures a / b == q
  {
    var d := a / b;
    assert d * b + a % b == a;
    assert (q - d) * b == q * b - d * b;
    MulWithinOne(q - d, b);
  }

  /**
   * The instants `current`, `current + step`, ... up to `end`: what the
   * generator's loop yields from `current` on.
   */
  function Steps(current: int, end: int, step: int): (r: seq<int>)
    requires step > 0
    ensures forall i :: 0 <= i < |r| ==> r[i] == current + i * step
    ensures current <= end ==> |r| == (end - current) / step + 1
    ensures current > end ==> |r| == 0
    decreases end - current
  {
    if current <= end then
      var rest := Steps(current + step, end, step);
      if current + step <= end then
        DivUnique(end - current, step, (end - current - step) / step + 1);
        [current] + rest
      else
        DivUnique(end - current, step, 0);
        [current] + rest
    else
      []
  }

  /**
   * `g` is the evenly spaced grid over `interval`: empty when the interval
   * is, otherwise from `start` to exactly `end` in strides of `step`.
   */
  predicate IsGrid(g: seq<int>, interval: TimeInterval, step: int)
    requires step > 0
  {
    && (interval.start > interval.end ==> |g| == 0)
    && (interval.start <= interval.end ==>
          && |g| == (interval.end - interval.start) / step + 1
          && g[|g| - 1] == interval.end)
    && forall i :: 0 <= i < |g| ==> g[i] == interval.start + i * step
  }

  /** A grid starts at the interval's start and its neighbours lie `step` apart. */
  lemma GridIsEvenlySpaced(g: seq<int>, interval: TimeInterval, step: int)
    requires step > 0 && IsGrid(g, interval, step) && interval.start <= interval.end
    ensures |g| > 0 && g[0] == interval.start
    ensures forall i :: 0 < i < |g| ==> g[i] - g[i - 1] == step
  {
  }

  /**
   * The instants of `interval` from `start` to `end` inclusive, `step` apart.
   * Fails when the step is not positive or does not divide the interval's length.
   */
  function GenerateTimeRange(interval: TimeInterval, step: int := MinuteMicros): (r: Result<seq<int>, ValueError>)
    ensures step <= 0 ==> r == Err(StepNotPositive)
    ensures step > 0 && (interval.end - interval.start) % step != 0 ==> r == Err(StepNotDividing)
    ensures step > 0 && (interval.end - interval.start) % step == 0 ==>
      r.Ok? && IsGrid(r.value, interval, step)
  {
    if step <= 0 then
      Err(StepNotPositive)
    else if (interval.end - interval.start) % step != 0 then
      Err(StepNotDividing)
    else
      var g := Steps(interval.start, interval.end, step);
      if interval.start <= interval.end then
        var n := (interval.end - interval.start) / step;
        assert n * step == interval.end - interval.start;
        assert g[n] == interval.start + n * step;
        Ok(g)
      else
        Ok(g)
  }
}
