/** The inclusive trailing-window membership test. */
module Window {
  import opened Wrappers
  import opened Types

  /** `timestamp` lies in the `windowSize` minutes up to `date`, both ends included. */
  predicate InWindow(date: int, timestamp: int, windowSize: int) {
    date - windowSize * MinuteMicros <= timestamp <= date
  }

  /**
   * Whether `event` falls in the trailing window of `date`. Seen from the
   * event, the dates whose window holds it run from its own instant to
   * `windowSize` minutes later. Fails on a non-positive window size.
   */
  function IsInWindow(date: int, event: Event, windowSize: int := 10): (r: Result<bool, ValueError>)
    ensures r.Err? <==> windowSize <= 0
    ensures r.Err? ==> r.error == WindowSizeNotPositive
    ensures r.Ok? ==> (r.value <==> event.timestamp <= date <= event.timestamp + windowSize * MinuteMicros)
  {
    if windowSize <= 0 then Err(WindowSizeNotPositive)
    else Ok(InWindow(date, event.timestamp, windowSize))
  }

  /**
   * The events of `events` that lie in the window of `date`, in their
   * original order.
   */
  function Within(date: int, events: seq<Event>, windowSize: int): (r: seq<Event>)
    ensures |r| <= |events|
  {
    if |events| == 0 then
      []
    else
      assert events == [events[0]] + events[1..];
      (if InWindow(date, events[0].timestamp, windowSize) then [events[0]] else [])
        + Within(date, events[1..], windowSize)
  }

  /**
   * Each event occurs in the selection as often as in `events` when it lies
   * in the window, and not at all otherwise.
   */
  lemma {:induction false} WithinCounts(date: int, events: seq<Event>, windowSize: int, e: Event)
    ensures multiset(Within(date, events, windowSize))[e] ==
      if InWindow(date, e.timestamp, windowSize) then multiset(events)[e] else 0
  {
    if |events| > 0 {
      assert events == [events[0]] + events[1..];
      WithinCounts(date, events[1..], windowSize, e);
    }
  }

  /** The selection of a window depends on the events only as a multiset. */
  lemma WithinPermutation(date: int, a: seq<Event>, b: seq<Event>, windowSize: int)
    requires multiset(a) == multiset(b)
    ensures multiset(Within(date, a, windowSize)) == multiset(Within(date, b, windowSize))
  {
    forall e
      ensures multiset(Within(date, a, windowSize))[e] == multiset(Within(date, b, windowSize))[e]
    {
      WithinCounts(date, a, windowSize, e);
      WithinCounts(date, b, windowSize, e);
    }
  }

  /** An event is selected exactly when it is one of `events` and lies in the window. */
  lemma {:induction false} WithinMembership(date: int, events: seq<Event>, windowSize: int, e: Event)
    ensures e in Within(date, events, windowSize) <==> e in events && InWindow(date, e.timestamp, windowSize)
  {
    if |events| > 0 {
      assert events == [events[0]] + events[1..];
      WithinMembership(date, events[1..], windowSize, e);
    }
  }
}
