/**
 * Instants as whole seconds since the Unix epoch (1970-01-01T00:00:00, a
 * Thursday), in the server's time zone with no daylight-saving shifts.
 * A calendar date is a day number and a time of day is a second within
 * that day, so the `Y-m-d` and `H:i:s` texts the source builds and parses
 * become plain integers here.
 */
module Clock {

  const SecondsPerMinute := 60
  const SecondsPerHour := 3600
  const SecondsPerDay := 86400
  const SecondsPerWeek := 7 * 86400

  /** A TIME column value: `H:i:s` as seconds after midnight. */
  type TimeOfDay = s: int | 0 <= s < 86400

  /** ISO 8601 weekday numbers, PHP's `format('N')`: Monday 1 .. Sunday 7. */
  type Weekday = d: int | 1 <= d <= 7 witness 1

  /** The calendar day of an instant. */
  function DayOf(t: int): int {
    t / SecondsPerDay
  }

  /** The time of day of an instant. */
  function TimeOf(t: int): TimeOfDay {
    t % SecondsPerDay
  }

  /** The instant at `time` on `day`: the source's `new DateTimeImmutable(date . ' ' . time)`. */
  function At(day: int, time: TimeOfDay): (t: int)
    ensures DayOf(t) == day && TimeOf(t) == time
  {
    day * SecondsPerDay + time
  }

  /** Every instant is its day at its time of day. */
  lemma AtDayAndTime(t: int)
    ensures At(DayOf(t), TimeOf(t)) == t
  {
  }

  /** The ISO weekday of a day number (day 0 is a Thursday). */
  function IsoWeekday(day: int): Weekday {
    (day + 3) % 7 + 1
  }

  /** A time of day with its seconds cut off: `setTime(H, i, 0)`. */
  function HourMinute(time: TimeOfDay): (r: TimeOfDay)
    ensures r <= time < r + SecondsPerMinute
    ensures r % SecondsPerMinute == 0
  {
    time - time % SecondsPerMinute
  }
}
