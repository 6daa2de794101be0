/**
 * The moving-average engine: sort the events, span them with a closed
 * minute-aligned interval, walk its one-minute grid and emit the mean
 * duration of the events in each grid point's trailing window.
 */
module Engine {
  import opened Wrappers
  import opened Types
  import opened Averager
  import opened TimeGrid
  import opened Window
  import opened Sorting
  import opened Permutations

  /** The earliest instant among `events`. */
  function Earliest(events: seq<Event>): int
    requires |events| > 0
  {
    if |events| == 1 then
      events[0].timestamp
    else
      var rest := Earliest(events[1..]);
      if events[0].timestamp <= rest then events[0].timestamp else rest
  }

  /** The latest instant among `events`. */
  function Latest(events: seq<Event>): int
    requires |events| > 0
  {
    if |events| == 1 then
      events[0].timestamp
    else
      var rest := Latest(events[1..]);
      if events[0].timestamp >= rest then events[0].timestamp else rest
  }

  /** `Earliest` is a lower bound of the instants, attained by the event at `k`. */
  lemma {:induction false} EarliestIsMinimum(events: seq<Event>) returns (k: int)
    requires |events| > 0
    ensures 0 <= k < |events| && events[k].timestamp == Earliest(events)
    ensures forall i :: 0 <= i < |events| ==> Earliest(events) <= events[i].timestamp
  {
    if |events| == 1 {
      k := 0;
    } else {
      var j := EarliestIsMinimum(events[1..]);
      k := if events[0].timestamp <= Earliest(events[1..]) then 0 else j + 1;
      forall i | 1 <= i < |events|
        ensures Earliest(events) <= events[i].timestamp
      {
        assert events[i] == events[1..][i - 1];
      }
    }
  }

  /** `Latest` is an upper bound of the instants, attained by the event at `k`. */
  lemma {:induction false} LatestIsMaximum(events: seq<Event>) returns (k: int)
    requires |events| > 0
    ensures 0 <= k < |events| && events[k].timestamp == Latest(events)
    ensures forall i :: 0 <= i < |events| ==> events[i].timestamp <= Latest(events)
  {
    if |events| == 1 {
      k := 0;
    } else {
      var j := LatestIsMaximum(events[1..]);
      k := if events[0].timestamp >= Latest(events[1..]) then 0 else j + 1;
      forall i | 1 <= i < |events|
        ensures events[i].timestamp <= Latest(events)
      {
        assert events[i] == events[1..][i - 1];
      }
    }
  }

  /** Two or more events, all at one and the same instant. */
  predicate AllAtOneInstant(events: seq<Event>) {
    && |events| >= 2
    && forall i, j :: 0 <= i < |events| && 0 <= j < |events| ==> events[i].timestamp == events[j].timestamp
  }

  /** Events all share one instant exactly when their earliest and latest instants agree. */
  lemma AllAtOneInstantIffNoSpan(events: seq<Event>)
    requires |events| >= 2
    ensures AllAtOneInstant(events) <==> Earliest(events) == Latest(events)
  {
  }

  /** The first and last events of a sorted copy carry the earliest and latest instants. */
  lemma SortedEnds(events: seq<Event>, sorted: seq<Event>)
    requires |events| > 0
    requires SortedByTimestamp(sorted) && multiset(sorted) == multiset(events)
    ensures |sorted| == |events|
    ensures sorted[0].timestamp == Earliest(events)
    ensures sorted[|sorted| - 1].timestamp == Latest(events)
  {
    assert |sorted| == |multiset(sorted)| == |events|;
    var first := IndexIn(events, sorted, sorted[0]);
    var last := IndexIn(events, sorted, sorted[|sorted| - 1]);
    var i := EarliestIsMinimum(events);
    var j := LatestIsMaximum(events);
    var k := IndexIn(sorted, events, events[i]);
    var l := IndexIn(sorted, events, events[j]);
  }

  /** An element of `a` sits somewhere in its reordering `b`. */
  lemma IndexIn(a: seq<Event>, b: seq<Event>, e: Event) returns (k: int)
    requires multiset(a) == multiset(b) && e in b
    ensures 0 <= k < |a| && a[k] == e
  {
    assert e in multiset(b);
    assert e in a;
    k :| 0 <= k < |a| && a[k] == e;
  }

  /** The durations of `events`, in order: `[event.duration for event in events]`. */
  function Durations(events: seq<Event>): (r: seq<real>)
    ensures |r| == |events|
  {
    if |events| == 0 then [] else [events[0].duration] + Durations(events[1..])
  }

  lemma {:induction false} DurationsConcat(a: seq<Event>, b: seq<Event>)
    ensures Durations(a + b) == Durations(a) + Durations(b)
  {
    if |a| == 0 {
      assert a + b == b;
    } else {
      assert (a + b)[1..] == a[1..] + b;
      DurationsConcat(a[1..], b);
    }
  }

  /** The `k`-th duration is the duration of the `k`-th event. */
  lemma {:induction false} DurationsAt(events: seq<Event>, k: int)
    requires 0 <= k < |events|
    ensures Durations(events)[k] == events[k].duration
    decreases k
  {
    if k > 0 {
      DurationsAt(events[1..], k - 1);
    }
  }

  /** Taking the event at `k` out of `b` takes its duration out of `Durations(b)`. */
  lemma DurationsRemove(b: seq<Event>, k: int)
    requires 0 <= k < |b|
    ensures multiset(Durations(b)) == multiset(Durations(b[..k] + b[k + 1..])) + multiset{b[k].duration}
  {
    var pre, post := b[..k], b[k + 1..];
    assert b == pre + ([b[k]] + post);
    assert ([b[k]] + post)[1..] == post;
    DurationsConcat(pre, [b[k]] + post);
    DurationsConcat(pre, post);
    var dp, dq := Durations(pre), Durations(post);
    assert Durations(b) == dp + ([b[k].duration] + dq);
    assert multiset(Durations(b)) == multiset(dp) + multiset{b[k].duration} + multiset(dq);
  }

  /** Reordering events reorders their durations the same way. */
  lemma {:induction false} DurationsPermutation(a: seq<Event>, b: seq<Event>)
    requires multiset(a) == multiset(b)
    ensures multiset(Durations(a)) == multiset(Durations(b))
    decreases |a|
  {
    if |a| == 0 {
      assert |b| == |multiset(b)| == 0;
      assert Durations(b) == [];
    } else {
      var k := MatchFirst(a, b);
      DurationsPermutation(a[1..], b[..k] + b[k + 1..]);
      DurationsRemove(b, k);
      assert Durations(a) == [a[0].duration] + Durations(a[1..]);
    }
  }

  /**
   * The value the series should carry for a window holding `selected`: the
   * mean duration, or `0.0` when the window is empty.
   */
  function WindowMean(selected: seq<Event>): real {
    if |selected| == 0 then 0.0 else Sum(Durations(selected)) / (|selected| as real)
  }

  /** The window mean, taken once per selected event, gives their total duration. */
  lemma {:induction false} WindowMeanIsMean(selected: seq<Event>)
    ensures |selected| == 0 ==> WindowMean(selected) == 0.0
    ensures WindowMean(selected) * (|selected| as real) == Sum(Durations(selected))
  {
  }

  /** The window mean depends on a selection only as a multiset. */
  lemma WindowMeanPermutation(a: seq<Event>, b: seq<Event>)
    requires multiset(a) == multiset(b)
    ensures WindowMean(a) == WindowMean(b)
  {
    assert |a| == |multiset(a)| == |b|;
    if |a| > 0 {
      DurationsPermutation(a, b);
      SumPermutation(Durations(a), Durations(b));
    }
  }

  /**
   * The engine's record value, the average with "no value" read as `0.0`,
   * is the window mean.
   */
  lemma RecordValueIsWindowMean(selected: seq<Event>)
    ensures CalculateAverage(Durations(selected)).GetOr(0.0) == WindowMean(selected)
  {
  }

  /**
   * `list(filter(partial(is_in_window, date, window_size=...), events))`:
   * the events in the window of `date`, failing as soon as the membership
   * test is asked about one event with a non-positive window size.
   */
  function EventsInWindow(date: int, events: seq<Event>, windowSize: int): (r: Result<seq<Event>, ValueError>)
    ensures r.Err? <==> windowSize <= 0 && |events| > 0
    ensures r.Err? ==> r.error == WindowSizeNotPositive
    ensures r.Ok? ==> r.value == Within(date, events, windowSize)
  {
    if |events| == 0 then
      Ok([])
    else
      match IsInWindow(date, events[0], windowSize)
      case Err(e) => Err(e)
      case Ok(keep) =>
        match EventsInWindow(date, events[1..], windowSize)
        case Err(e) => Err(e)
        case Ok(rest) => Ok((if keep then [events[0]] else []) + rest)
  }

  /** The loop body of the engine run over `dates`: one record per date, in order. */
  function AveragesAt(dates: seq<int>, events: seq<Event>, windowSize: int): (r: Result<seq<AverageDeliveryTime>, ValueError>)
    ensures r.Err? <==> |dates| > 0 && |events| > 0 && windowSize <= 0
    ensures r.Err? ==> r.error == WindowSizeNotPositive
    ensures r.Ok? ==> |r.value| == |dates|
    ensures r.Ok? ==> forall i :: 0 <= i < |dates| ==>
      r.value[i].date == dates[i] && r.value[i].averageDeliveryTime == WindowMean(Within(dates[i], events, windowSize))
  {
    if |dates| == 0 then
      Ok([])
    else
      match EventsInWindow(dates[0], events, windowSize)
      case Err(e) => Err(e)
      case Ok(selected) =>
        var average := CalculateAverage(Durations(selected));
        var record := AverageDeliveryTime(dates[0], average.GetOr(0.0));
        RecordValueIsWindowMean(selected);
        match AveragesAt(dates[1..], events, windowSize)
        case Err(e) => Err(e)
        case Ok(rest) =>
          assert forall i :: 1 <= i < |dates| ==> ([record] + rest)[i] == rest[i - 1] && dates[i] == dates[1..][i - 1];
          Ok([record] + rest)
  }

  /**
   * `calculate_closed_time_interval(first, last=last)` as the engine calls it
   * on its sorted events: `last` is only passed when there are two or more.
   */
  function SpanOf(sorted: seq<Event>): (r: Result<TimeInterval, ValueError>)
    requires |sorted| > 0
    ensures r.Err? <==> |sorted| > 1 && sorted[0].timestamp >= sorted[|sorted| - 1].timestamp
    ensures r.Err? ==> r.error == FirstNotBeforeLast
    ensures r.Ok? ==> r.value.start == FloorMinute(sorted[0].timestamp)
  {
    var first := sorted[0].timestamp;
    var last := if |sorted| > 1 then Some(sorted[|sorted| - 1].timestamp) else None;
    CalculateClosedTimeInterval(first, last)
  }

  /** `calculate_moving_averages(events, window_size)`. */
  function CalculateMovingAverages(events: seq<Event>, windowSize: int := 10): (r: Result<seq<AverageDeliveryTime>, ValueError>)
    ensures windowSize < 0 ==> r == Err(WindowSizeNotPositive)
    ensures windowSize >= 0 && |events| == 0 ==> r == Ok([])
    ensures r.Ok? && |events| > 0 ==> |r.value| >= 2
  {
    if windowSize < 0 then
      Err(WindowSizeNotPositive)
    else if |events| == 0 then
      Ok([])
    else
      var sorted := SortByTimestamp(events);
      match SpanOf(sorted)
      case Err(e) => Err(e)
      case Ok(interval) =>
        match GenerateTimeRange(interval)
        case Err(e) => Err(e)
        case Ok(dates) => AveragesAt(dates, sorted, windowSize)
  }

  /** The interval arithmetic behind `SpanOfSorted`, given the earliest and latest instants of `count` events. */
  lemma IntervalOfEnds(first: int, latest: int, count: int)
    requires count > 0 && first <= latest
    requires count == 1 ==> first == latest
    ensures count >= 2 && first == latest ==>
      CalculateClosedTimeInterval(first, if count > 1 then Some(latest) else None) == Err(FirstNotBeforeLast)
    ensures !(count >= 2 && first == latest) ==>
      CalculateClosedTimeInterval(first, if count > 1 then Some(latest) else None)
        == Ok(TimeInterval(FloorMinute(first), FloorMinute(latest) + MinuteMicros))
  {
  }

  /**
   * The interval the engine spans a sorted copy of the events with: from
   * the start of the earliest event's minute to the start of the minute
   * after the latest event. Two or more events at one instant make
   * `first == last` and fail.
   */
  lemma SpanOfSorted(events: seq<Event>, sorted: seq<Event>)
    requires |events| > 0
    requires SortedByTimestamp(sorted) && multiset(sorted) == multiset(events)
    ensures |sorted| == |events|
    ensures AllAtOneInstant(events) ==> SpanOf(sorted) == Err(FirstNotBeforeLast)
    ensures !AllAtOneInstant(events) ==>
      SpanOf(sorted) == Ok(TimeInterval(FloorMinute(Earliest(events)), FloorMinute(Latest(events)) + MinuteMicros))
  {
    SortedEnds(events, sorted);
    if |events| >= 2 {
      AllAtOneInstantIffNoSpan(events);
    } else {
      assert Earliest(events) == events[0].timestamp == Latest(events);
    }
    IntervalOfEnds(Earliest(events), Latest(events), |events|);
  }

  /**
   * The series the engine emits for events it accepts, stated over the
   * caller's events as given: one record per minute from the start of the
   * earliest event's minute to the start of the minute after the latest
   * event, each carrying the mean duration of its trailing window.
   */
  predicate IsMovingAverageSeries(out: seq<AverageDeliveryTime>, events: seq<Event>, windowSize: int)
    requires |events| > 0
  {
    var start := FloorMinute(Earliest(events));
    var stop := FloorMinute(Latest(events)) + MinuteMicros;
    && |out| == (FloorMinute(Latest(events)) - start) / MinuteMicros + 2
    && |out| >= 2
    && out[|out| - 1].date == stop
    && (forall i :: 0 <= i < |out| ==> out[i].date == start + i * MinuteMicros)
    && (forall i :: 0 <= i < |out| ==> out[i].averageDeliveryTime == WindowMean(Within(out[i].date, events, windowSize)))
  }

  /**
   * When the engine fails, and with which error: a negative window size at
   * once; no events never fail; two or more events at one instant fail on
   * the interval; a zero window size passes the entry check and fails at
   * the first membership test.
   */
  lemma MovingAveragesErrors(events: seq<Event>, windowSize: int)
    ensures windowSize < 0 ==> CalculateMovingAverages(events, windowSize) == Err(WindowSizeNotPositive)
    ensures windowSize >= 0 && |events| == 0 ==> CalculateMovingAverages(events, windowSize) == Ok([])
    ensures windowSize >= 0 && AllAtOneInstant(events) ==> CalculateMovingAverages(events, windowSize) == Err(FirstNotBeforeLast)
    ensures windowSize == 0 && |events| > 0 && !AllAtOneInstant(events) ==>
      CalculateMovingAverages(events, windowSize) == Err(WindowSizeNotPositive)
    ensures CalculateMovingAverages(events, windowSize).Err? <==>
      windowSize < 0 || (|events| > 0 && (windowSize == 0 || AllAtOneInstant(events)))
  {
    if windowSize >= 0 && |events| > 0 {
      if AllAtOneInstant(events) {
        SpanOfSorted(events, SortByTimestamp(events));
      } else {
        var dates := EngineGrid(events, windowSize);
      }
    }
  }

  /**
   * Past the checks on the window size and the span, the engine walks the
   * grid from the start of the earliest event's minute to the start of the
   * minute after the latest event, over the sorted events.
   */
  lemma EngineGrid(events: seq<Event>, windowSize: int) returns (dates: seq<int>)
    requires windowSize >= 0 && |events| > 0 && !AllAtOneInstant(events)
    ensures dates == GenerateTimeRange(TimeInterval(FloorMinute(Earliest(events)), FloorMinute(Latest(events)) + MinuteMicros), MinuteMicros).value
    ensures |dates| == (FloorMinute(Latest(events)) - FloorMinute(Earliest(events))) / MinuteMicros + 2
    ensures dates[|dates| - 1] == FloorMinute(Latest(events)) + MinuteMicros
    ensures forall i :: 0 <= i < |dates| ==> dates[i] == FloorMinute(Earliest(events)) + i * MinuteMicros
    ensures CalculateMovingAverages(events, windowSize) == AveragesAt(dates, SortByTimestamp(events), windowSize)
  {
    var sorted := SortByTimestamp(events);
    var interval := TimeInterval(FloorMinute(Earliest(events)), FloorMinute(Latest(events)) + MinuteMicros);
    assert SpanOf(sorted) == Ok(interval) by {
      SpanOfSorted(events, sorted);
    }
    var grid := GenerateTimeRange(interval, MinuteMicros);
    assert interval.start < interval.end && (interval.end - interval.start) % MinuteMicros == 0;
    assert grid.Ok? && IsGrid(grid.value, interval, MinuteMicros);
    dates := grid.value;
  }

  /**
   * Past its checks, the engine emits one record per grid point, each with
   * the window mean over the sorted events.
   */
  lemma EngineOutput(events: seq<Event>, windowSize: int) returns (out: seq<AverageDeliveryTime>)
    requires windowSize > 0 && |events| > 0 && !AllAtOneInstant(events)
    ensures CalculateMovingAverages(events, windowSize) == Ok(out)
    ensures |out| == (FloorMinute(Latest(events)) - FloorMinute(Earliest(events))) / MinuteMicros + 2
    ensures out[|out| - 1].date == FloorMinute(Latest(events)) + MinuteMicros
    ensures forall i :: 0 <= i < |out| ==> out[i].date == FloorMinute(Earliest(events)) + i * MinuteMicros
    ensures forall i :: 0 <= i < |out| ==>
      out[i].averageDeliveryTime == WindowMean(Within(out[i].date, SortByTimestamp(events), windowSize))
  {
    var dates := EngineGrid(events, windowSize);
    var sorted := SortByTimestamp(events);
    var averages := AveragesAt(dates, sorted, windowSize);
    assert averages.Ok?;
    out := averages.value;
    assert |out| == |dates|;
    assert forall i :: 0 <= i < |out| ==> out[i].date == dates[i];
  }

  /**
   * The dates of the engine's output: one per minute from the start of the
   * earliest event's minute to the start of the minute after the latest.
   */
  lemma MovingAveragesDates(events: seq<Event>, windowSize: int)
    requires windowSize > 0 && |events| > 0 && !AllAtOneInstant(events)
    ensures CalculateMovingAverages(events, windowSize).Ok?
    ensures var out := CalculateMovingAverages(events, windowSize).value;
      && |out| == (FloorMinute(Latest(events)) - FloorMinute(Earliest(events))) / MinuteMicros + 2
      && out[|out| - 1].date == FloorMinute(Latest(events)) + MinuteMicros
      && forall i :: 0 <= i < |out| ==> out[i].date == FloorMinute(Earliest(events)) + i * MinuteMicros
  {
    var out := EngineOutput(events, windowSize);
  }

  /** For events the engine accepts, its output is the moving-average series of those events. */
  lemma MovingAveragesSeries(events: seq<Event>, windowSize: int)
    requires windowSize > 0 && |events| > 0 && !AllAtOneInstant(events)
    ensures CalculateMovingAverages(events, windowSize).Ok?
    ensures IsMovingAverageSeries(CalculateMovingAverages(events, windowSize).value, events, windowSize)
  {
    var out := EngineOutput(events, windowSize);
    ValuesOfReorderedEvents(out, SortByTimestamp(events), events, windowSize);
  }

  /** A record holding the window mean over some ordering of the events holds it over any other. */
  lemma ValuesOfReorderedEvents(out: seq<AverageDeliveryTime>, a: seq<Event>, b: seq<Event>, windowSize: int)
    requires multiset(a) == multiset(b)
    requires forall i :: 0 <= i < |out| ==> out[i].averageDeliveryTime == WindowMean(Within(out[i].date, a, windowSize))
    ensures forall i :: 0 <= i < |out| ==> out[i].averageDeliveryTime == WindowMean(Within(out[i].date, b, windowSize))
  {
    forall i | 0 <= i < |out|
      ensures out[i].averageDeliveryTime == WindowMean(Within(out[i].date, b, windowSize))
    {
      WithinPermutation(out[i].date, a, b, windowSize);
      WindowMeanPermutation(Within(out[i].date, a, windowSize), Within(out[i].date, b, windowSize));
    }
  }

  /** Reordering the events moves neither the earliest nor the latest instant. */
  lemma EndsPermutation(a: seq<Event>, b: seq<Event>)
    requires |a| > 0 && multiset(a) == multiset(b)
    ensures |b| == |a|
    ensures Earliest(a) == Earliest(b) && Latest(a) == Latest(b)
    ensures AllAtOneInstant(a) <==> AllAtOneInstant(b)
  {
    var sorted := SortByTimestamp(a);
    SortedEnds(a, sorted);
    SortedEnds(b, sorted);
    if |a| >= 2 {
      AllAtOneInstantIffNoSpan(a);
      AllAtOneInstantIffNoSpan(b);
    }
  }

  /**
   * The engine's result does not depend on the order of the caller's
   * events: the sort it performs leaves nothing of the input order behind.
   */
  lemma {:induction false} MovingAveragesIgnoreInputOrder(a: seq<Event>, b: seq<Event>, windowSize: int)
    requires multiset(a) == multiset(b)
    ensures CalculateMovingAverages(a, windowSize) == CalculateMovingAverages(b, windowSize)
  {
    MovingAveragesErrors(a, windowSize);
    MovingAveragesErrors(b, windowSize);
    assert |a| == |multiset(a)| == |b|;
    if |a| > 0 {
      EndsPermutation(a, b);
      if windowSize > 0 && !AllAtOneInstant(a) {
        MovingAveragesSeries(a, windowSize);
        MovingAveragesSeries(b, windowSize);
        SeriesOfReorderedEvents(CalculateMovingAverages(a, windowSize).value, CalculateMovingAverages(b, windowSize).value, a, b, windowSize);
      }
    }
  }

  /** Reordered events have one and the same moving-average series. */
  lemma SeriesOfReorderedEvents(outA: seq<AverageDeliveryTime>, outB: seq<AverageDeliveryTime>, a: seq<Event>, b: seq<Event>, windowSize: int)
    requires |a| > 0 && |b| > 0 && multiset(a) == multiset(b)
    requires IsMovingAverageSeries(outA, a, windowSize)
    requires IsMovingAverageSeries(outB, b, windowSize)
    ensures outA == outB
  {
    EndsPermutation(a, b);
    ValuesOfReorderedEvents(outA, a, b, windowSize);
    assert |outA| == |outB|;
    forall i | 0 <= i < |outA|
      ensures outA[i] == outB[i]
    {
      assert outA[i].date == outB[i].date;
    }
  }

  /**
   * The extra minute at the end of the interval pays off: the window of the
   * last grid point holds the latest event, so the series never ends on an
   * empty window.
   */
  lemma {:induction false} LastPointHoldsLatestEvent(events: seq<Event>, windowSize: int)
    requires windowSize > 0 && |events| > 0 && !AllAtOneInstant(events)
    ensures CalculateMovingAverages(events, windowSize).Ok?
    ensures
      var out := CalculateMovingAverages(events, windowSize).value;
      |out| > 0 && Within(out[|out| - 1].date, events, windowSize) != []
  {
    MovingAveragesDates(events, windowSize);
    var out := CalculateMovingAverages(events, windowSize).value;
    var date := out[|out| - 1].date;
    assert date == FloorMinute(Latest(events)) + MinuteMicros;
    assert InWindow(date, Latest(events), windowSize);
    LatestSelected(date, events, windowSize);
  }

  /** A window that reaches back to the latest event selects something. */
  lemma LatestSelected(date: int, events: seq<Event>, windowSize: int)
    requires |events| > 0
    requires InWindow(date, Latest(events), windowSize)
    ensures Within(date, events, windowSize) != []
  {
  }

  /**
   * The first grid point's window ends at the start of the earliest event's
   * minute, so unless that event sits exactly on the minute, the series
   * starts with the empty-window value `0.0`.
   */
  lemma {:induction false} FirstPointEmptyUnlessAligned(events: seq<Event>, windowSize: int)
    requires windowSize > 0 && |events| > 0 && !AllAtOneInstant(events)
    requires Earliest(events) % MinuteMicros != 0
    ensures CalculateMovingAverages(events, windowSize).Ok?
    ensures CalculateMovingAverages(events, windowSize).value[0].averageDeliveryTime == 0.0
  {
    MovingAveragesSeries(events, windowSize);
    NothingBeforeEarliest(CalculateMovingAverages(events, windowSize).value[0].date, events, windowSize);
  }

  /** No event lies in the window of an instant before the earliest event. */
  lemma NothingBeforeEarliest(date: int, events: seq<Event>, windowSize: int)
    requires |events| > 0 && date < Earliest(events)
    ensures Within(date, events, windowSize) == []
  {
  }

  /**
   * For events the engine accepts, its output is exactly the moving-average
   * series: it is one, and no other sequence is.
   */
  lemma MovingAveragesCharacterized(events: seq<Event>, windowSize: int, out: seq<AverageDeliveryTime>)
    requires windowSize > 0 && |events| > 0 && !AllAtOneInstant(events)
    ensures CalculateMovingAverages(events, windowSize) == Ok(out) <==> IsMovingAverageSeries(out, events, windowSize)
  {
    MovingAveragesSeries(events, windowSize);
    if IsMovingAverageSeries(out, events, windowSize) {
      SeriesOfReorderedEvents(CalculateMovingAverages(events, windowSize).value, out, events, events, windowSize);
    }
  }

  /** A non-empty window whose durations all lie in `[lo, hi]` has its mean there too. */
  lemma WindowMeanBounds(selected: seq<Event>, lo: real, hi: real)
    requires |selected| > 0
    requires forall e :: e in selected ==> lo <= e.duration <= hi
    ensures lo <= WindowMean(selected) <= hi
  {
    var points := Durations(selected);
    forall k | 0 <= k < |points|
      ensures lo <= points[k] <= hi
    {
      DurationsAt(selected, k);
    }
    AverageBounds(points, lo, hi);
    RecordValueIsWindowMean(selected);
  }

  /**
   * Every record of the engine's output is either `0.0` (an empty window) or
   * lies between the shortest and the longest duration of the events.
   */
  lemma MovingAveragesBounded(events: seq<Event>, windowSize: int, lo: real, hi: real)
    requires windowSize > 0 && |events| > 0 && !AllAtOneInstant(events)
    requires forall i :: 0 <= i < |events| ==> lo <= events[i].duration <= hi
    ensures CalculateMovingAverages(events, windowSize).Ok?
    ensures var out := CalculateMovingAverages(events, windowSize).value;
      forall i :: 0 <= i < |out| ==> out[i].averageDeliveryTime == 0.0 || lo <= out[i].averageDeliveryTime <= hi
  {
    MovingAveragesSeries(events, windowSize);
    var out := CalculateMovingAverages(events, windowSize).value;
    forall i | 0 <= i < |out|
      ensures out[i].averageDeliveryTime == 0.0 || lo <= out[i].averageDeliveryTime <= hi
    {
      WindowValueBounded(out[i].date, events, windowSize, lo, hi);
    }
  }

  /** The value for one date: `0.0`, or between the bounds of the durations. */
  lemma WindowValueBounded(date: int, events: seq<Event>, windowSize: int, lo: real, hi: real)
    requires forall i :: 0 <= i < |events| ==> lo <= events[i].duration <= hi
    ensures var v := WindowMean(Within(date, events, windowSize));
      v == 0.0 || lo <= v <= hi
  {
    var selected := Within(date, events, windowSize);
    if selected != [] {
      forall e | e in selected
        ensures lo <= e.duration <= hi
      {
        WithinMembership(date, events, windowSize, e);
      }
      WindowMeanBounds(selected, lo, hi);
    }
  }
}
