/** `java.time` as the core uses it. A `LocalDateTime` is the number of
    seconds since 1970-01-01T00:00 (a Thursday), a `LocalDate` the number of
    days since that date; sub-second precision is not represented. */
module Time {

  const SECONDS_PER_MINUTE: int := 60
  const SECONDS_PER_HOUR: int := 3600
  const SECONDS_PER_DAY: int := 86400

  /** `LocalDateTime.toLocalDate`. */
  function Day(t: int): int {
    t / SECONDS_PER_DAY
  }

  /** `LocalDateTime.getHour`. */
  function Hour(t: int): (h: int)
    ensures 0 <= h < 24
  {
    (t % SECONDS_PER_DAY) / SECONDS_PER_HOUR
  }

  /** `getDayOfWeek().getValue()` of a date: Monday is 1, Sunday is 7. */
  function DayOfWeekOfDate(d: int): (w: int)
    ensures 1 <= w <= 7
  {
    (d + 3) % 7 + 1
  }

  function DayOfWeek(t: int): (w: int)
    ensures 1 <= w <= 7
  {
    DayOfWeekOfDate(Day(t))
  }

  /** `date.atTime(h, m)`. */
  function AtTime(d: int, h: int, m: int): int {
    d * SECONDS_PER_DAY + h * SECONDS_PER_HOUR + m * SECONDS_PER_MINUTE
  }

  /** `date.atStartOfDay()` and `date.atTime(LocalTime.MAX)` to the second. */
  function StartOfDay(d: int): int { AtTime(d, 0, 0) }
  function EndOfDay(d: int): int { AtTime(d, 23, 59) + 59 }

  lemma AtTimeFields(d: int, h: int, m: int)
    requires 0 <= h < 24 && 0 <= m < 60
    ensures Day(AtTime(d, h, m)) == d
    ensures Hour(AtTime(d, h, m)) == h
    ensures DayOfWeek(AtTime(d, h, m)) == DayOfWeekOfDate(d)
  {
    var t := AtTime(d, h, m);
    var sod := h * SECONDS_PER_HOUR + m * SECONDS_PER_MINUTE;
    assert t == d * SECONDS_PER_DAY + sod && 0 <= sod < SECONDS_PER_DAY;
    assert t / SECONDS_PER_DAY == d && t % SECONDS_PER_DAY == sod;
  }

  /** The days of one date all lie between its start and its end. */
  lemma DayBounds(t: int)
    ensures StartOfDay(Day(t)) <= t <= EndOfDay(Day(t))
  {
  }

  /** `Duration.toMinutes`: truncation toward zero. */
  function ToMinutes(seconds: int): (m: int)
    ensures seconds >= 0 ==> 0 <= m * SECONDS_PER_MINUTE <= seconds < (m + 1) * SECONDS_PER_MINUTE
    ensures seconds < 0 ==> (m - 1) * SECONDS_PER_MINUTE < seconds <= m * SECONDS_PER_MINUTE <= 0
  {
    if seconds >= 0 then seconds / SECONDS_PER_MINUTE else -((-seconds) / SECONDS_PER_MINUTE)
  }
}
