/**
 * What the app reads from EventKit, as plain values. A calendar event keeps
 * its optional identifier and start; a reminder keeps its due date already
 * converted from its date components (none when the components are missing
 * or do not form a date) and whether those components carry no time of day.
 */
module EventKitRecords {
  import opened Wrappers

  datatype CalendarEvent = CalendarEvent(
    eventIdentifier: Option<string>,
    startDate: Option<int>,
    title: string,
    notes: Option<string>)

  datatype Reminder = Reminder(
    calendarItemIdentifier: string,
    dueDate: Option<int>,
    hasOnlyDate: bool,
    isCompleted: bool,
    title: string,
    notes: Option<string>)
}
