/**
 * Wall-clock arithmetic used throughout the app. An instant is a whole number
 * of seconds; every calendar day is 86400 seconds long (no time zones and no
 * daylight-saving transitions). `Calendar.startOfDay(for:)` and
 * `date(bySettingHour:minute:second:of:)` become the functions below.
 */
module Clock {
  const SecondsPerDay: int := 86400

  /** An hour-and-minute setting, as minutes since midnight. */
  type MinuteOfDay = m: int | 0 <= m < 1440

  /** Seconds elapsed since the midnight that starts the day of `t`. */
  function SecondOfDay(t: int): (r: int)
    ensures 0 <= r < SecondsPerDay
    ensures (t - r) % SecondsPerDay == 0
  {
    t % SecondsPerDay
  }

  /** `Calendar.current.startOfDay(for: t)`. */
  function StartOfDay(t: int): (r: int)
    ensures r <= t < r + SecondsPerDay
    ensures r % SecondsPerDay == 0
  {
    t - SecondOfDay(t)
  }

  /** The hour and minute of `t`, as minutes since midnight (seconds dropped). */
  function MinuteOf(t: int): (m: MinuteOfDay)
    ensures StartOfDay(t) + m * 60 <= t < StartOfDay(t) + m * 60 + 60
  {
    SecondOfDay(t) / 60
  }

  /** `date(bySettingHour: m / 60, minute: m % 60, second: 0, of: day)`. */
  function AtMinute(day: int, m: MinuteOfDay): (r: int)
    ensures StartOfDay(r) == StartOfDay(day)
    ensures MinuteOf(r) == m && SecondOfDay(r) == m * 60
  {
    StartOfDay(day) + m * 60
  }

  /** Moving an instant by whole days moves its day by the same amount and keeps its time of day. */
  lemma ShiftByDays(t: int, k: int)
    ensures StartOfDay(t + k * SecondsPerDay) == StartOfDay(t) + k * SecondsPerDay
    ensures SecondOfDay(t + k * SecondsPerDay) == SecondOfDay(t)
    ensures MinuteOf(t + k * SecondsPerDay) == MinuteOf(t)
  {
    assert (t + k * SecondsPerDay) % SecondsPerDay == t % SecondsPerDay;
  }
}
