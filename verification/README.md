# Moving average of translation delivery times, in Dafny

This project models the windowed moving-average core of the `unbabel_cli`
command-line tool. The tool reads "translation delivered" events and emits,
for every minute of the span they cover, the mean delivery duration of the
events in a trailing window of `window_size` minutes. The modelled core
(`solution/unbabel_cli/core.py`) has five parts:

- `calculate_average`: the mean of a list of numbers. It returns `None` for
  an empty list.
- `calculate_closed_time_interval`: the minute-aligned interval from the
  start of the first event's minute to the start of the minute after the
  last event.
- `generate_time_range`: the grid of instants over that interval, one step
  apart, with both ends included.
- `is_in_window`: the trailing-window membership test, inclusive at both
  ends.
- `calculate_moving_averages`: the engine. It sorts the events, spans them
  with the interval, walks the one-minute grid and emits one record per grid
  point. A record holds the window's mean duration, or `0.0` for an empty
  window.

Modelling choices:

- Instants are integer microseconds counted from a minute-aligned epoch.
  "Set the seconds and microseconds to zero" becomes `t - t % MinuteMicros`.
  Dafny's `%` never returns a negative remainder, so this matches Python's
  floor behaviour on datetimes.
- Durations are exact reals.
- Every `ValueError` the source raises is an `Err` of a `ValueError` datatype,
  with one constructor per distinct message.
- `sorted` becomes an insertion sort, proved to give a sorted permutation.
- The generator becomes an eagerly built sequence.
- The source's default arguments are Dafny default parameters: `last := None`, `step := MinuteMicros` and `windowSize := 10`. The engine calls `GenerateTimeRange` with its default step, as the source does.

The engine's contract is stated over the caller's events in their original
order:

- `IsMovingAverageSeries` defines the expected output in closed form. Its
  length and dates do not follow the engine's code: they count minutes from
  the floor of the earliest event, with no interval, grid or sort involved.
  Its values share the window selection (`Window.Within`) with the engine.
  Each value is `Engine.WindowMean`, the plain mean of the selected durations,
  or `0.0` for an empty window. `Engine.RecordValueIsWindowMean` links that
  to the engine's `calculate_average` with "no value" read as `0.0`.
- `MovingAveragesCharacterized` proves that, for every input the engine
  accepts, its output satisfies that definition and nothing else does.
- `MovingAveragesErrors` states exactly which inputs fail, and with which
  error.

Files:

- `wrappers.dfy`: `Option` and `Result`.
- `types.dfy`: instants, events, intervals, output records and errors.
- `permutations.dfy`: one reusable multiset step.
- `averager.dfy`: the mean.
- `time_grid.dfy`: the interval and the grid.
- `window.dfy`: the membership test and window selection.
- `sorting.dfy`: the sort.
- `engine.dfy`: the engine.
- `examples.dfy`: the repository's own test vectors, restated as lemmas.

Behaviour kept as the code has it:

- **Two or more events at one instant fail.** The engine passes `last` only
  when there is more than one event. So two events with the same timestamp
  reach `first >= last`, and the engine raises "first datetime must be
  before last datetime". They are not treated as a single event
  (`AllAtOneInstant` in `Engine.MovingAveragesErrors`).
- **A window size of 0 fails late.** The engine's own guard only rejects
  negative values. So with no events, a window size of 0 returns `[]`. With
  events that are not all at one instant, it fails at the first membership
  test, with the same message as a negative size. With two or more events at
  one instant, the interval error above comes first.

## Model

| member | source | states |
|---|---|---|
| `Averager.CalculateAverage` | solution/unbabel_cli/core.py:22-36 | No value exactly when the list is empty. Otherwise the result, taken once per point, gives the sum of the points. |
| `Averager.SumPermutation` | solution/unbabel_cli/core.py:34 | The sum of the points does not depend on their order. |
| `Averager.AverageIsOrderIndependent` | solution/unbabel_cli/core.py:33-36 | Reordering the points leaves the average, or its absence, unchanged. |
| `Averager.AverageBounds` | solution/unbabel_cli/core.py:33-35 | When every point lies in `[lo, hi]`, the exact (unrounded) average of a non-empty list lies there too. |
| `TimeGrid.FloorMinute` | solution/unbabel_cli/core.py:61 | Dropping seconds and microseconds gives a minute-aligned instant at or before `t`, less than a minute earlier. |
| `TimeGrid.FloorMinuteUnique` | solution/unbabel_cli/core.py:61-62 | Any minute-aligned instant within the minute up to `t` is that floor. |
| `TimeGrid.CalculateClosedTimeInterval` | solution/unbabel_cli/core.py:39-63 | Fails, with the "first before last" error, exactly when `last` is given and `first >= last`, equality included. Otherwise the start is the floor of `first`. The end is the aligned minute right after `last`, or after `first` when there is no `last`. The interval is non-empty and a whole number of minutes long. |
| `TimeGrid.Steps` | solution/unbabel_cli/core.py:85-88 | The loop yields `current + i*step` at position `i`. It yields `(end - current)/step + 1` values, or none when `current > end`. |
| `TimeGrid.GenerateTimeRange` | solution/unbabel_cli/core.py:66-88 | A non-positive step fails with the step-sign error. A step that does not divide the interval fails with the divisibility error. Otherwise the result satisfies `IsGrid`: it is empty for a reversed interval, and otherwise runs from `start` to exactly `end`. Element `i` is `start + i*step`, and the length is `(end - start)/step + 1`. |
| `TimeGrid.GridIsEvenlySpaced` | solution/unbabel_cli/core.py:85-88 | A grid over a non-empty interval starts at `start`, and neighbouring elements are exactly `step` apart. |
| `Window.IsInWindow` | solution/unbabel_cli/core.py:91-109 | Fails exactly when `window_size <= 0`. Otherwise it is true exactly when `date` lies between the event's instant and `window_size` minutes after it, both ends included. |
| `Window.WithinCounts` | solution/unbabel_cli/core.py:137-138 | The filter keeps every copy of an event in the window and drops every copy of an event outside it. |
| `Window.WithinMembership` | solution/unbabel_cli/core.py:137-138 | An event is selected exactly when it is one of the events and lies in the window. |
| `Window.WithinPermutation` | solution/unbabel_cli/core.py:137-138 | Reordering the events reorders the selection, as a multiset, and nothing more. |
| `Sorting.Insert` | solution/unbabel_cli/core.py:132 | Inserting into a sorted sequence keeps it sorted and adds exactly that one event. |
| `Sorting.SortByTimestamp` | solution/unbabel_cli/core.py:132 | The sorted copy is ordered by timestamp and is a permutation of the input. |
| `Engine.EarliestIsMinimum` | solution/unbabel_cli/core.py:134 | The earliest instant bounds every event from below and belongs to one of them. |
| `Engine.LatestIsMaximum` | solution/unbabel_cli/core.py:134 | The latest instant bounds every event from above and belongs to one of them. |
| `Engine.SortedEnds` | solution/unbabel_cli/core.py:132-134 | The first and last elements of a sorted copy carry the earliest and latest instants of the input. |
| `Engine.AllAtOneInstantIffNoSpan` | solution/unbabel_cli/core.py:134 | Two or more events share one instant exactly when their earliest and latest instants coincide. |
| `Engine.Durations` | solution/unbabel_cli/core.py:139 | `[event.duration for event in events]`: one duration per event. Element `i` is event `i`'s duration (`Engine.DurationsAt`). |
| `Engine.DurationsPermutation` | solution/unbabel_cli/core.py:139 | Reordering events reorders their durations as a multiset. |
| `Engine.WindowMeanIsMean` | solution/unbabel_cli/core.py:139-143 | The window value is `0.0` for an empty window. Otherwise, taken once per selected event, it gives their total duration. |
| `Engine.WindowMeanPermutation` | solution/unbabel_cli/core.py:138-139 | The window value depends on the selection only as a multiset. |
| `Engine.RecordValueIsWindowMean` | solution/unbabel_cli/core.py:139-143 | Collapsing the average's "no value" to `0.0` gives the window mean. |
| `Engine.EventsInWindow` | solution/unbabel_cli/core.py:137-138 | Filtering fails, with the window-size error, exactly when the window size is not positive and there is an event to test. Otherwise it returns the window's selection. |
| `Engine.AveragesAt` | solution/unbabel_cli/core.py:136-145 | The loop fails exactly when there is a date, an event and a non-positive window size. Otherwise it emits one record per date, in order, holding that date and the mean of its window. |
| `Engine.SpanOf` | solution/unbabel_cli/core.py:134-136 | The interval call on the sorted events passes `last` only for two or more events. It fails, with the "first before last" error, exactly when there are two or more and the first is not before the last. Otherwise the interval starts at the floor of the first instant. |
| `Engine.IntervalOfEnds` | solution/unbabel_cli/core.py:58-63 | Given the earliest and latest instants: with two or more events at one instant, the interval fails. Otherwise it runs from the floor of the earliest instant to the minute after the latest. |
| `Engine.SpanOfSorted` | solution/unbabel_cli/core.py:132-136 | The interval the engine builds from its sorted copy fails exactly when all of two or more events share one instant. Otherwise it runs from the floor of the earliest instant to the minute after the latest. |
| `Engine.CalculateMovingAverages` | solution/unbabel_cli/core.py:112-147 | `calculate_moving_averages` with its default window of 10. A negative window size fails at once; no events gives `[]`; an accepted non-empty input gives at least two records. Which inputs fail is stated as an if-and-only-if by `Engine.MovingAveragesErrors`, and the series on accepted input by `Engine.MovingAveragesCharacterized`. |
| `Engine.MovingAveragesErrors` | solution/unbabel_cli/core.py:126-136 | A negative window size fails at once. No events gives `[]`. Two or more events at one instant fail on the interval. A window size of 0 with other events fails in the membership test. The engine fails exactly in these cases. |
| `Engine.EngineGrid` | solution/unbabel_cli/core.py:132-136 | Past the checks, the grid the engine walks has `(floor(last) - floor(first))/1min + 2` points. Point `i` is `floor(first) + i` minutes, and the last point is the minute after `last`. |
| `Engine.EngineOutput` | solution/unbabel_cli/core.py:136-147 | Past the checks, the engine returns one record per grid point. Each record holds its date and the mean over its window of the sorted events. |
| `Engine.MovingAveragesDates` | solution/unbabel_cli/core.py:134-147 | For accepted input, the output dates rise by exactly one minute from the floor of the earliest event to the minute after the latest, with no gaps or duplicates. |
| `Engine.MovingAveragesSeries` | solution/unbabel_cli/core.py:112-147 | For accepted input, the output is the moving-average series (`IsMovingAverageSeries`) of the caller's events in their original order. |
| `Engine.MovingAveragesCharacterized` | solution/unbabel_cli/core.py:112-147 | For accepted input, the engine returns a sequence exactly when that sequence is the moving-average series. |
| `Engine.ValuesOfReorderedEvents` | solution/unbabel_cli/core.py:132-139 | A record holding the window mean over one ordering of the events holds it over any reordering. |
| `Engine.EndsPermutation` | solution/unbabel_cli/core.py:132-134 | Reordering the events changes neither the earliest nor the latest instant, nor whether they all share one instant. |
| `Engine.SeriesOfReorderedEvents` | solution/unbabel_cli/core.py:112-147 | Two series of the same events, in any order, are equal. |
| `Engine.MovingAveragesIgnoreInputOrder` | solution/unbabel_cli/core.py:132 | The engine's result, error or series, depends only on the events as a multiset, not on the caller's order. |
| `Engine.LastPointHoldsLatestEvent` | solution/unbabel_cli/core.py:62 | The last grid point's window always holds the latest event, so the series never ends on an empty window. |
| `Engine.LatestSelected` | solution/unbabel_cli/core.py:109 | A window that reaches the latest event selects at least one event. |
| `Engine.FirstPointEmptyUnlessAligned` | solution/unbabel_cli/core.py:61 | When the earliest event is not on a whole minute, the first record is `0.0`. |
| `Engine.NothingBeforeEarliest` | solution/unbabel_cli/core.py:109 | The window of an instant before the earliest event selects nothing. |
| `Engine.WindowMeanBounds` | solution/unbabel_cli/core.py:139 | The exact (unrounded) mean of a non-empty window lies between the bounds of its durations. |
| `Engine.WindowValueBounded` | solution/unbabel_cli/core.py:137-143 | The value recorded for any date is `0.0`, or an exact (unrounded) mean that lies between the bounds of the durations. |
| `Engine.MovingAveragesBounded` | solution/unbabel_cli/core.py:139-143 | Every output value is `0.0`, or an exact (unrounded) mean that lies between the shortest and the longest duration. With non-negative durations, every output is non-negative. |
| `Examples.AverageExamples` | solution/tests/test_core.py:16-26 | The averages the tests expect, including no value for `[]` and 0.2 for `[0.1, 0.2, 0.3]`. |
| `Examples.IntervalExamples` | solution/tests/test_core.py:29-45 | The intervals the tests expect, and the error for both a reversed pair and an equal pair. |
| `Examples.GridExamples` | solution/tests/test_core.py:48-94 | The grids of a six-minute interval with steps of 1, 2 and 3 minutes. A step of 0 or -1 gives the step-sign error, and a step of 4 gives the divisibility error. |
| `Examples.WindowExamples` | solution/tests/test_core.py:97-125 | An event at 18:11:08 is in the ten-minute windows of 18:20 and 18:21, but not of 18:22 or 18:23. Window sizes 0 and -1 fail. |
| `Examples.OneEventExample` | solution/tests/test_core.py:128-152 | No events give `[]`. One event at 18:11:08 with duration 20 gives `[(18:11, 0.0), (18:12, 20.0)]`. A window size of -10 fails. |
| `Examples.ProvidedExample` | solution/tests/test_core.py:155-210 | Three events give the expected fourteen records, from 18:11 to 18:24. |

## Left out

- `Averager.CalculateAverage`: states the exact mean, without `round(avg, n_decimal)`. Decimal rounding of binary floating point is not modelled, and the `n_decimal` parameter is dropped. The source's tests compare with a tolerance, and the test vectors hold exactly over reals.
- Floating point in general: durations are exact reals, so sums are order-independent. In Python, reordering can change the last bits of a sum.
- `Sorting.SortByTimestamp`: sortedness and permutation are stated, stability is not. Every engine result is proved to depend on the events only as a multiset, so ties cannot show.
- `generate_time_range`: the `isinstance(step, timedelta)` check has no counterpart, because the step is an integer by type. Laziness is not modelled either. The engine consumes the generator at once, and both checks fire on the first `next()`, which happens before any record is built.
- Calendar handling of `datetime`: time zones, leap seconds and the datetime range limits are not modelled. Instants are plain integers.
- The events' pass-through fields (translation id, languages, client, word count, event name) are not modelled. The core never reads them.
- Non-mutation of the caller's list is not stated as a contract. Sequences are values in the model, so `SortByTimestamp` cannot alter its argument.
- `average_duration if average_duration else 0.0` is modelled as "no value becomes `0.0`". A computed average of exactly `0.0` also becomes `0.0` in Python, which is the same value.
- `solution/unbabel_cli/models.py`, `utils.py` and `cli.py` are not part of this model. They hold event parsing and validation, JSON input and output, and command-line argument handling.
