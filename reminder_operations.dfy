/**
 * The reminder write-backs the app asks of EventKit when a to-do changes
 * (Services/ReminderOperations.swift): removing a reminder's time, deleting
 * it, marking it completed or not completed. Their EventKit effects are not
 * modelled; what is recorded is which write-back was requested, for which
 * to-do value, in order.
 */
module ReminderOperations {
  import opened TodoItem

  datatype ReminderCall =
    | RemoveReminderTime(todo: TodoItem)
    | DeleteReminder(todo: TodoItem)
    | CompleteReminder(todo: TodoItem)
    | IncompleteReminder(todo: TodoItem)

  class ReminderOperations {
    ghost var calls: seq<ReminderCall>

    constructor ()
      ensures calls == []
    {
      calls := [];
    }

    method RemoveReminderTime(todo: TodoItem)
      modifies this
      ensures calls == old(calls) + [ReminderCall.RemoveReminderTime(todo)]
    {
      calls := calls + [ReminderCall.RemoveReminderTime(todo)];
    }

    method DeleteReminder(todo: TodoItem)
      modifies this
      ensures calls == old(calls) + [ReminderCall.DeleteReminder(todo)]
    {
      calls := calls + [ReminderCall.DeleteReminder(todo)];
    }

    method CompleteReminder(todo: TodoItem)
      modifies this
      ensures calls == old(calls) + [ReminderCall.CompleteReminder(todo)]
    {
      calls := calls + [ReminderCall.CompleteReminder(todo)];
    }

    method IncompleteReminder(todo: TodoItem)
      modifies this
      ensures calls == old(calls) + [ReminderCall.IncompleteReminder(todo)]
    {
      calls := calls + [ReminderCall.IncompleteReminder(todo)];
    }
  }
}
