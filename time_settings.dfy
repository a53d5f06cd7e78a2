/**
 * The user's eight time-window boundaries and the classification of the
 * current moment into a time category (Models/TimeSettings.swift). Only the
 * hour and minute of each stored `Date` are ever read, so each boundary is a
 * minute of the day.
 */
module TimeSettings {
  import opened Clock
  import opened TodoItem

  datatype TimeSettings = TimeSettings(
    morningStart: MinuteOfDay, morningEnd: MinuteOfDay,
    daytimeStart: MinuteOfDay, daytimeEnd: MinuteOfDay,
    eveningStart: MinuteOfDay, eveningEnd: MinuteOfDay,
    nightStart: MinuteOfDay, nightEnd: MinuteOfDay)

  /** `defaultSettings`: morning 06:00-09:00, daytime 09:00-18:00, evening 18:00-22:00, night 22:00-06:00. */
  const DefaultSettings: TimeSettings :=
    TimeSettings(6 * 60, 9 * 60, 9 * 60, 18 * 60, 18 * 60, 22 * 60, 22 * 60, 6 * 60)

  function WindowStart(s: TimeSettings, c: TimeCategory): MinuteOfDay {
    match c
    case Morning => s.morningStart
    case Daytime => s.daytimeStart
    case Evening => s.eveningStart
    case Night => s.nightStart
  }

  function WindowEnd(s: TimeSettings, c: TimeCategory): MinuteOfDay {
    match c
    case Morning => s.morningEnd
    case Daytime => s.daytimeEnd
    case Evening => s.eveningEnd
    case Night => s.nightEnd
  }

  /**
   * The window test of the classifier: a window whose start is not after its
   * end is the half-open interval [start, end); otherwise it wraps past
   * midnight. Equivalently, walking forward round the clock from `start`, `t`
   * is reached before `end` is.
   */
  predicate InWindow(t: MinuteOfDay, start: MinuteOfDay, end: MinuteOfDay)
    ensures InWindow(t, start, end) <==> (t - start) % 1440 < (end - start) % 1440
  {
    if start <= end then t >= start && t < end else t >= start || t < end
  }

  predicate InCategoryWindow(s: TimeSettings, c: TimeCategory, t: MinuteOfDay) {
    InWindow(t, WindowStart(s, c), WindowEnd(s, c))
  }

  /**
   * `getCurrentTimeCategory()` with the clock reading passed in: the first
   * window, in the order morning, daytime, evening, night, that holds the
   * current minute; daytime when none does.
   */
  function GetCurrentTimeCategory(s: TimeSettings, now: int): (r: TimeCategory)
    ensures InCategoryWindow(s, r, MinuteOf(now)) ==>
      forall d :: CategoryIndex(d) < CategoryIndex(r) ==> !InCategoryWindow(s, d, MinuteOf(now))
    ensures !InCategoryWindow(s, r, MinuteOf(now)) ==>
      r == Daytime && forall d :: !InCategoryWindow(s, d, MinuteOf(now))
  {
    var current := MinuteOf(now);
    if InWindow(current, s.morningStart, s.morningEnd) then Morning
    else if InWindow(current, s.daytimeStart, s.daytimeEnd) then Daytime
    else if InWindow(current, s.eveningStart, s.eveningEnd) then Evening
    else if InWindow(current, s.nightStart, s.nightEnd) then Night
    else Daytime
  }

  /** A window whose start equals its end holds no minute at all. */
  lemma EmptyWindow(t: MinuteOfDay, start: MinuteOfDay)
    ensures !InWindow(t, start, start)
  {
  }

  /** The default windows partition the day: every minute lies in exactly one of them. */
  lemma DefaultWindowsPartition(t: MinuteOfDay)
    ensures exists c :: InCategoryWindow(DefaultSettings, c, t)
    ensures forall c, d :: InCategoryWindow(DefaultSettings, c, t) && InCategoryWindow(DefaultSettings, d, t) ==> c == d
  {
    if t < 360 || t >= 1320 {
      assert InCategoryWindow(DefaultSettings, Night, t);
    } else if t < 540 {
      assert InCategoryWindow(DefaultSettings, Morning, t);
    } else if t < 1080 {
      assert InCategoryWindow(DefaultSettings, Daytime, t);
    } else {
      assert InCategoryWindow(DefaultSettings, Evening, t);
    }
  }

  /** Under the defaults the current category is the one window holding the current minute, never the fallback. */
  lemma DefaultCurrentCategory(now: int)
    ensures InCategoryWindow(DefaultSettings, GetCurrentTimeCategory(DefaultSettings, now), MinuteOf(now))
    ensures var m := MinuteOf(now);
      GetCurrentTimeCategory(DefaultSettings, now) ==
        if m < 6 * 60 || m >= 22 * 60 then Night
        else if m < 9 * 60 then Morning
        else if m < 18 * 60 then Daytime
        else Evening
  {
    DefaultWindowsPartition(MinuteOf(now));
  }
}
