/** Classification of an instant, an event or a reminder into a time category (Services/TimeCategoryHelper.swift). */
module TimeCategoryHelper {
  import opened Wrappers
  import opened Clock
  import opened TodoItem
  import opened TimeSettings
  import opened EventKitRecords

  /**
   * `getTimeCategory(for: Date, timeSettings:)`: the first window, in the
   * order morning, daytime, evening, night, that holds the hour and minute of
   * `date`, and daytime when none does. Its Swift result type is optional,
   * but it is never nil.
   */
  function GetTimeCategory(s: TimeSettings, date: int): (r: Option<TimeCategory>)
    ensures r.Some?
    ensures InCategoryWindow(s, r.value, MinuteOf(date)) ==>
      forall d :: CategoryIndex(d) < CategoryIndex(r.value) ==> !InCategoryWindow(s, d, MinuteOf(date))
    ensures !InCategoryWindow(s, r.value, MinuteOf(date)) ==>
      r.value == Daytime && forall d :: !InCategoryWindow(s, d, MinuteOf(date))
  {
    var dateTimeInMinutes := MinuteOf(date);
    if InWindow(dateTimeInMinutes, s.morningStart, s.morningEnd) then Some(Morning)
    else if InWindow(dateTimeInMinutes, s.daytimeStart, s.daytimeEnd) then Some(Daytime)
    else if InWindow(dateTimeInMinutes, s.eveningStart, s.eveningEnd) then Some(Evening)
    else if InWindow(dateTimeInMinutes, s.nightStart, s.nightEnd) then Some(Night)
    else Some(Daytime)
  }

  /** `getTimeCategory(for: EKEvent, …)`: nil exactly when the event has no start. */
  function GetTimeCategoryForEvent(s: TimeSettings, e: CalendarEvent): (r: Option<TimeCategory>)
    ensures r.None? <==> e.startDate.None?
    ensures e.startDate.Some? ==> r == GetTimeCategory(s, e.startDate.value)
  {
    match e.startDate
    case None => None
    case Some(start) => GetTimeCategory(s, start)
  }

  /** `getTimeCategory(for: EKReminder, …)`: nil exactly when the reminder has no usable due date. */
  function GetTimeCategoryForReminder(s: TimeSettings, r: Reminder): (c: Option<TimeCategory>)
    ensures c.None? <==> r.dueDate.None?
    ensures r.dueDate.Some? ==> c == GetTimeCategory(s, r.dueDate.value)
  {
    match r.dueDate
    case None => None
    case Some(due) => GetTimeCategory(s, due)
  }

  /** Only the time of day matters: instants on different days at the same minute fall in the same category. */
  lemma TimeOfDayOnly(s: TimeSettings, t: int, k: int)
    ensures GetTimeCategory(s, t + k * SecondsPerDay) == GetTimeCategory(s, t)
  {
    ShiftByDays(t, k);
  }

  /** `TimeSettings.getCurrentTimeCategory` is this classifier applied to the current instant. */
  lemma CurrentCategoryAgrees(s: TimeSettings, now: int)
    ensures GetTimeCategory(s, now) == Some(GetCurrentTimeCategory(s, now))
  {
  }
}
