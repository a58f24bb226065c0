/** Instants and calendar days. An instant is what `Date.getTime()` returns: milliseconds since the epoch. */
module Dates {

  type Instant = int

  const MsPerDay: int := 86_400_000

  /** The number of the calendar day that contains `t`. Two dates agree on `toDateString()`
      exactly when they have the same day number. */
  function Day(t: Instant): (d: int)
    ensures d * MsPerDay <= t < (d + 1) * MsPerDay
  {
    t / MsPerDay
  }

  predicate SameDay(a: Instant, b: Instant)
  {
    Day(a) == Day(b)
  }

  /** The day of an instant depends only on its calendar date, not on its time of day. */
  lemma TimeOfDayIrrelevant(d: int, x: int, y: int)
    requires 0 <= x < MsPerDay && 0 <= y < MsPerDay
    ensures SameDay(d * MsPerDay + x, d * MsPerDay + y)
    ensures Day(d * MsPerDay + x) == d
  {
    DayUnique(d * MsPerDay + x, d);
    DayUnique(d * MsPerDay + y, d);
  }

  /** A day number whose interval contains `t` is its day. */
  lemma DayUnique(t: Instant, d: int)
    requires d * MsPerDay <= t < (d + 1) * MsPerDay
    ensures Day(t) == d
  {
  }
}
