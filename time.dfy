/** Timestamps as `System.DateTime` counts them: ticks of 100 ns since
    0001-01-01 00:00. Only the parts of the calendar the billing rules use
    are modelled: the date (midnight) of a timestamp and the length of a
    time span in minutes. */
module Time {

  /** A `DateTime`, as its `Ticks`. */
  type Ticks = nat

  const TicksPerMinute: nat := 600_000_000
  const MinutesPerDay: nat := 1440
  const TicksPerDay: nat := 864_000_000_000

  // The functions below write these constants as numerals, so that dividing
  // and multiplying by them stays linear arithmetic for the verifier.

  /** The number of the calendar day a timestamp falls on (day 0 is 0001-01-01). */
  function DayNumber(t: Ticks): nat
  {
    t / 864_000_000_000
  }

  /** `DateTime.Date`: the midnight that starts the timestamp's day. */
  function Date(t: Ticks): (d: Ticks)
    ensures d <= t < d + TicksPerDay
    ensures d % TicksPerDay == 0
  {
    DayNumber(t) * 864_000_000_000
  }

  /** `TimeSpan.TotalMinutes` of a span given in ticks (fractional, not truncated). */
  function TotalMinutes(span: int): real
  {
    span as real / 600_000_000.0
  }

  /** Two timestamps have the same date exactly when they fall on the same day number. */
  lemma SameDate(a: Ticks, b: Ticks)
    ensures Date(a) == Date(b) <==> DayNumber(a) == DayNumber(b)
  {
  }

  /** A whole day is 1440 minutes long. */
  lemma MinutesInADay()
    ensures TotalMinutes(TicksPerDay) == MinutesPerDay as real
  {
  }
}
