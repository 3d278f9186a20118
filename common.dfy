/** Option and Result wrappers, clock arithmetic and small sum helpers shared by every module. */
module Common {

  datatype Option<+T> = None | Some(value: T)

  datatype Result<+T, +E> = Ok(value: T) | Err(error: E)

  /** Python's `x or 0` for a nullable integer column. */
  function OrZero(x: Option<int>): int {
    if x.Some? then x.value else 0
  }

  /** Python truthiness of a nullable integer: `None` and `0` are falsy. */
  predicate TruthyInt(x: Option<int>) {
    x.Some? && x.value != 0
  }

  /** Python truthiness of a nullable string: `None` and `""` are falsy. */
  predicate TruthyStr(s: Option<string>) {
    s.Some? && s.value != ""
  }

  // Timestamps are integer minutes since 1970-01-01 00:00 (local time); dates are day numbers.
  const MinutesPerDay: int := 1440
  const MinutesPerHour: int := 60

  /** The calendar date (day number) of a timestamp, as `datetime.date()` gives it. */
  function DayOf(t: int): int {
    t / MinutesPerDay
  }

  /** The hour of day, 0..23, as `datetime.hour` gives it. */
  function HourOf(t: int): (h: int)
    ensures 0 <= h < 24
  {
    (t % MinutesPerDay) / MinutesPerHour
  }

  /** `datetime.weekday()`: Monday is 0 and Sunday is 6; day 0 (1970-01-01) was a Thursday. */
  function WeekdayOf(t: int): (w: int)
    ensures 0 <= w < 7
  {
    (DayOf(t) + 3) % 7
  }

  /** `timedelta(days = n)` in minutes. */
  function Days(n: int): int {
    n * MinutesPerDay
  }
}
