/**
 * The repository's own test vectors, restated over the model. Instants are
 * microseconds since 2018-12-26 18:00:00, so `m * MinuteMicros` is 18:m.
 */
module Examples {
  import opened Wrappers
  import opened Types
  import opened Averager
  import opened TimeGrid
  import opened Window
  import opened Engine

  /** 18:11:08.509654, the instant of the repository's sample event. */
  const SampleInstant: int := 11 * MinuteMicros + 8_509_654

  lemma AverageExamples()
    ensures CalculateAverage([]) == None
    ensures CalculateAverage([0.0]) == Some(0.0)
    ensures CalculateAverage([1.0]) == Some(1.0)
    ensures CalculateAverage([1.0, 2.0, 3.0]) == Some(2.0)
    ensures CalculateAverage([1.5, 2.5, 3.5]) == Some(2.5)
    ensures CalculateAverage([0.1, 0.2, 0.3]) == Some(0.2)
  {
  }

  lemma IntervalExamples()
    ensures CalculateClosedTimeInterval(5_000_000, None) == Ok(TimeInterval(0, MinuteMicros))
    ensures CalculateClosedTimeInterval(5_000_000, Some(55_000_000)) == Ok(TimeInterval(0, MinuteMicros))
    ensures CalculateClosedTimeInterval(15_000_000, Some(2 * MinuteMicros + 45_000_000)) == Ok(TimeInterval(0, 3 * MinuteMicros))
    ensures CalculateClosedTimeInterval(2 * MinuteMicros, Some(MinuteMicros)) == Err(FirstNotBeforeLast)
    ensures CalculateClosedTimeInterval(0, Some(0)) == Err(FirstNotBeforeLast)
  {
  }

  lemma GridExamples()
    ensures GenerateTimeRange(TimeInterval(0, 6 * MinuteMicros), MinuteMicros)
      == Ok([0, MinuteMicros, 2 * MinuteMicros, 3 * MinuteMicros, 4 * MinuteMicros, 5 * MinuteMicros, 6 * MinuteMicros])
    ensures GenerateTimeRange(TimeInterval(0, 6 * MinuteMicros), 2 * MinuteMicros)
      == Ok([0, 2 * MinuteMicros, 4 * MinuteMicros, 6 * MinuteMicros])
    ensures GenerateTimeRange(TimeInterval(0, 6 * MinuteMicros), 3 * MinuteMicros)
      == Ok([0, 3 * MinuteMicros, 6 * MinuteMicros])
    ensures GenerateTimeRange(TimeInterval(0, 6 * MinuteMicros), 0) == Err(StepNotPositive)
    ensures GenerateTimeRange(TimeInterval(0, 6 * MinuteMicros), -MinuteMicros) == Err(StepNotPositive)
    ensures GenerateTimeRange(TimeInterval(0, 6 * MinuteMicros), 4 * MinuteMicros) == Err(StepNotDividing)
  {
    var one := GenerateTimeRange(TimeInterval(0, 6 * MinuteMicros), MinuteMicros).value;
    assert |one| == 7 && one[0] == 0 && one[1] == MinuteMicros && one[2] == 2 * MinuteMicros;
    assert one[3] == 3 * MinuteMicros && one[4] == 4 * MinuteMicros;
    assert one[5] == 5 * MinuteMicros && one[6] == 6 * MinuteMicros;
    assert one == [0, MinuteMicros, 2 * MinuteMicros, 3 * MinuteMicros, 4 * MinuteMicros, 5 * MinuteMicros, 6 * MinuteMicros];
    var two := GenerateTimeRange(TimeInterval(0, 6 * MinuteMicros), 2 * MinuteMicros).value;
    assert |two| == 4 && two[0] == 0 && two[1] == 2 * MinuteMicros;
    assert two[2] == 4 * MinuteMicros && two[3] == 6 * MinuteMicros;
    assert two == [0, 2 * MinuteMicros, 4 * MinuteMicros, 6 * MinuteMicros];
    var three := GenerateTimeRange(TimeInterval(0, 6 * MinuteMicros), 3 * MinuteMicros).value;
    assert |three| == 3 && three[0] == 0 && three[1] == 3 * MinuteMicros && three[2] == 6 * MinuteMicros;
    assert three == [0, 3 * MinuteMicros, 6 * MinuteMicros];
  }

  lemma WindowExamples()
    ensures IsInWindow(20 * MinuteMicros, Event(SampleInstant, 20.0)) == Ok(true)
    ensures IsInWindow(21 * MinuteMicros, Event(SampleInstant, 20.0)) == Ok(true)
    ensures IsInWindow(22 * MinuteMicros, Event(SampleInstant, 20.0)) == Ok(false)
    ensures IsInWindow(23 * MinuteMicros, Event(SampleInstant, 20.0)) == Ok(false)
    ensures IsInWindow(0, Event(SampleInstant, 20.0), -1) == Err(WindowSizeNotPositive)
    ensures IsInWindow(0, Event(SampleInstant, 20.0), 0) == Err(WindowSizeNotPositive)
  {
  }

  /**
   * One event: an empty first minute, then the event's own duration. The
   * events come in as a parameter so the verifier does not unroll the engine
   * on a literal sequence.
   */
  lemma OneEventExample(e: seq<Event>)
    requires e == [Event(SampleInstant, 20.0)]
    ensures CalculateMovingAverages([], 10) == Ok([])
    ensures CalculateMovingAverages(e, 10)
      == Ok([AverageDeliveryTime(11 * MinuteMicros, 0.0), AverageDeliveryTime(12 * MinuteMicros, 20.0)])
    ensures CalculateMovingAverages(e, -10) == Err(WindowSizeNotPositive)
  {
    MovingAveragesSeries(e, 10);
    OneEventIsSeries();
    var expected := [AverageDeliveryTime(11 * MinuteMicros, 0.0), AverageDeliveryTime(12 * MinuteMicros, 20.0)];
    SeriesOfReorderedEvents(CalculateMovingAverages(e, 10).value, expected, e, e, 10);
  }

  lemma OneEventIsSeries()
    ensures IsMovingAverageSeries(
      [AverageDeliveryTime(11 * MinuteMicros, 0.0), AverageDeliveryTime(12 * MinuteMicros, 20.0)],
      [Event(SampleInstant, 20.0)], 10)
  {
    var events := [Event(SampleInstant, 20.0)];
    assert Earliest(events) == SampleInstant == Latest(events);
    assert FloorMinute(SampleInstant) == 11 * MinuteMicros;
    assert Within(11 * MinuteMicros, events, 10) == [];
    assert Within(12 * MinuteMicros, events, 10) == events;
    MeanOfOne(events[0]);
  }

  /** The repository's three-event example, already in timestamp order. */
  function ProvidedEvents(): seq<Event> {
    [ Event(SampleInstant, 20.0),
      Event(15 * MinuteMicros + 19_903_159, 31.0),
      Event(23 * MinuteMicros + 19_903_159, 54.0) ]
  }

  /** The selection from three events, unfolded. */
  lemma WithinThree(date: int, a: Event, b: Event, c: Event, windowSize: int)
    ensures Within(date, [a, b, c], windowSize) ==
      (if InWindow(date, a.timestamp, windowSize) then [a] else [])
      + (if InWindow(date, b.timestamp, windowSize) then [b] else [])
      + (if InWindow(date, c.timestamp, windowSize) then [c] else [])
  {
    var pa := if InWindow(date, a.timestamp, windowSize) then [a] else [];
    var pb := if InWindow(date, b.timestamp, windowSize) then [b] else [];
    var pc := if InWindow(date, c.timestamp, windowSize) then [c] else [];
    assert [a, b, c][1..] == [b, c];
    assert [b, c][1..] == [c];
    assert Within(date, [c], windowSize) == pc + Within(date, [], windowSize);
    assert Within(date, [b, c], windowSize) == pb + pc;
    assert Within(date, [a, b, c], windowSize) == pa + (pb + pc);
  }

  /** Which of the three events the ten-minute window of 18:m selects. */
  lemma ProvidedWindow(m: int)
    requires 11 <= m <= 24
    ensures var e := ProvidedEvents();
      Within(m * MinuteMicros, e, 10) ==
        if m == 11 then []
        else if m <= 15 then [e[0]]
        else if m <= 21 then [e[0], e[1]]
        else if m <= 23 then [e[1]]
        else [e[1], e[2]]
  {
    var e := ProvidedEvents();
    WithinThree(m * MinuteMicros, e[0], e[1], e[2], 10);
  }

  /** The mean the example expects at 18:m. */
  function ProvidedMean(m: int): real {
    if m == 11 then 0.0 else if m <= 15 then 20.0 else if m <= 21 then 25.5 else if m <= 23 then 31.0 else 42.5
  }

  lemma ProvidedWindowMean(m: int)
    requires 11 <= m <= 24
    ensures WindowMean(Within(m * MinuteMicros, ProvidedEvents(), 10)) == ProvidedMean(m)
  {
    ProvidedWindow(m);
    var e := ProvidedEvents();
    if m == 11 {
    } else if m <= 15 {
      MeanOfOne(e[0]);
    } else if m <= 21 {
      MeanOfTwo(e[0], e[1]);
    } else if m <= 23 {
      MeanOfOne(e[1]);
    } else {
      MeanOfTwo(e[1], e[2]);
    }
  }

  lemma MeanOfOne(x: Event)
    ensures WindowMean([x]) == x.duration
  {
    assert [x][1..] == [];
    assert Durations([x]) == [x.duration];
    assert Sum([x.duration]) == x.duration + Sum([]);
  }

  lemma MeanOfTwo(x: Event, y: Event)
    ensures WindowMean([x, y]) == (x.duration + y.duration) / 2.0
  {
    assert [x, y][1..] == [y];
    assert [y][1..] == [];
    assert Durations([x, y]) == [x.duration, y.duration];
    assert [x.duration, y.duration][1..] == [y.duration];
    assert [y.duration][1..] == [];
    assert Sum([y.duration]) == y.duration + Sum([]);
    assert Sum([x.duration, y.duration]) == x.duration + Sum([y.duration]);
  }

  lemma ProvidedEnds()
    ensures Earliest(ProvidedEvents()) == SampleInstant
    ensures Latest(ProvidedEvents()) == 23 * MinuteMicros + 19_903_159
    ensures !AllAtOneInstant(ProvidedEvents())
    ensures FloorMinute(Earliest(ProvidedEvents())) == 11 * MinuteMicros
    ensures FloorMinute(Latest(ProvidedEvents())) == 23 * MinuteMicros
  {
  }

  /** The series the repository expects for its three-event example. */
  function ProvidedSeries(): seq<AverageDeliveryTime> {
    [ AverageDeliveryTime(11 * MinuteMicros, 0.0),
      AverageDeliveryTime(12 * MinuteMicros, 20.0),
      AverageDeliveryTime(13 * MinuteMicros, 20.0),
      AverageDeliveryTime(14 * MinuteMicros, 20.0),
      AverageDeliveryTime(15 * MinuteMicros, 20.0),
      AverageDeliveryTime(16 * MinuteMicros, 25.5),
      AverageDeliveryTime(17 * MinuteMicros, 25.5),
      AverageDeliveryTime(18 * MinuteMicros, 25.5),
      AverageDeliveryTime(19 * MinuteMicros, 25.5),
      AverageDeliveryTime(20 * MinuteMicros, 25.5),
      AverageDeliveryTime(21 * MinuteMicros, 25.5),
      AverageDeliveryTime(22 * MinuteMicros, 31.0),
      AverageDeliveryTime(23 * MinuteMicros, 31.0),
      AverageDeliveryTime(24 * MinuteMicros, 42.5) ]
  }

  lemma ProvidedSeriesShape()
    ensures |ProvidedSeries()| == 14
    ensures forall i :: 0 <= i < 14 ==>
      ProvidedSeries()[i] == AverageDeliveryTime((i + 11) * MinuteMicros, ProvidedMean(i + 11))
  {
  }

  /** The expected series is the moving-average series of the example's events. */
  lemma ProvidedIsSeries()
    ensures IsMovingAverageSeries(ProvidedSeries(), ProvidedEvents(), 10)
  {
    ProvidedEnds();
    ProvidedSeriesShape();
    var out := ProvidedSeries();
    forall i | 0 <= i < |out|
      ensures out[i].averageDeliveryTime == WindowMean(Within(out[i].date, ProvidedEvents(), 10))
    {
      ProvidedWindowMean(i + 11);
    }
  }

  /**
   * The repository's three-event example. As in `OneEventExample`, the events
   * come in as a parameter so the verifier does not unroll the engine on a
   * literal sequence.
   */
  lemma ProvidedExample(e: seq<Event>)
    requires e == ProvidedEvents()
    ensures CalculateMovingAverages(e, 10) == Ok(ProvidedSeries())
  {
    ProvidedEnds();
    MovingAveragesSeries(e, 10);
    ProvidedIsSeries();
    SeriesOfReorderedEvents(CalculateMovingAverages(e, 10).value, ProvidedSeries(), e, e, 10);
  }
}
