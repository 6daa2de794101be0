/**
 * The data model of the moving-average core: instants, events, intervals,
 * output records and the errors the core raises.
 *
 * Instants are integer microseconds counted from a minute-aligned epoch, so
 * "zero seconds and zero microseconds" is divisibility by one minute.
 */
module Types {

  /** One minute, in microseconds. */
  const MinuteMicros: int := 60_000_000

  /** A delivered translation as the core sees it: only the instant and the duration are read. */
  datatype Event = Event(timestamp: int, duration: real)

  /** A closed interval of instants, `start` and `end` both included. */
  datatype TimeInterval = TimeInterval(start: int, end: int)

  /** One point of the output series. */
  datatype AverageDeliveryTime = AverageDeliveryTime(date: int, averageDeliveryTime: real)

  /**
   * The `ValueError`s the core raises, one per distinct message. Both
   * window-size checks raise the same message, hence one constructor.
   */
  datatype ValueError =
    | WindowSizeNotPositive   // "window size must be a positive integer"
    | FirstNotBeforeLast      // "first datetime must be before last datetime"
    | StepNotPositive         // "step must be a positive timedelta"
    | StepNotDividing         // "step must evenly divide the time interval"
}
