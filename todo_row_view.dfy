/**
 * One row of a to-do list (Views/TodoRowView.swift): the checkbox, which
 * toggles the stored item's status and mirrors a change into or out of
 * "completed" on its reminder, and the visibility of the buttons that move
 * the item one category earlier or later.
 */
module TodoRowView {
  import opened Wrappers
  import opened TodoItem
  import opened TodoStore
  import opened ReminderOperations

  // ---------------------------------------------------------------------
  // Move buttons
  // ---------------------------------------------------------------------

  /** `canMoveToNextTimeCategory`. */
  function CanMoveToNextTimeCategory(todo: TodoItem): (r: bool)
    ensures r <==> MovedToNext(todo).Some?
  {
    match todo.timeCategory
    case None => false
    case Some(currentCategory) => CategoryIndex(currentCategory) < |AllCases| - 1
  }

  /** `canMoveToPreviousTimeCategory`. */
  function CanMoveToPreviousTimeCategory(todo: TodoItem): (r: bool)
    ensures r <==> MovedToPrevious(todo).Some?
  {
    match todo.timeCategory
    case None => false
    case Some(currentCategory) => CategoryIndex(currentCategory) > 0
  }

  /** The move buttons appear on swipeable rows of open items that have a category. */
  predicate ShowsMoveButtons(allowSwipe: bool, todo: TodoItem) {
    allowSwipe && todo.timeCategory.Some? && todo.status != Completed
  }

  /** Wherever the move buttons appear, at least one of the two is enabled; both are in the middle two categories. */
  lemma MoveButtonsOffered(allowSwipe: bool, todo: TodoItem)
    requires ShowsMoveButtons(allowSwipe, todo)
    ensures CanMoveToNextTimeCategory(todo) || CanMoveToPreviousTimeCategory(todo)
    ensures (CanMoveToNextTimeCategory(todo) && CanMoveToPreviousTimeCategory(todo)) <==>
      todo.timeCategory.value in {Daytime, Evening}
  {
  }

  // ---------------------------------------------------------------------
  // The checkbox
  // ---------------------------------------------------------------------

  /**
   * The reminder write-back after a tap, from the status the row showed and
   * the stored item after the toggle: completing asks for the reminder to be
   * completed, leaving "completed" asks for it to be reopened.
   */
  function WriteBack(previousStatus: TodoStatus, updatedTodo: TodoItem): (r: seq<ReminderCall>)
    ensures |r| <= 1
    ensures r == [ReminderCall.CompleteReminder(updatedTodo)] <==>
      updatedTodo.status == Completed && previousStatus != Completed
    ensures r == [ReminderCall.IncompleteReminder(updatedTodo)] <==>
      updatedTodo.status != Completed && previousStatus == Completed
  {
    if updatedTodo.status == Completed && previousStatus != Completed then
      [ReminderCall.CompleteReminder(updatedTodo)]
    else if updatedTodo.status != Completed && previousStatus == Completed then
      [ReminderCall.IncompleteReminder(updatedTodo)]
    else
      []
  }

  /** Toggling leaves every UUID where it was, so the updated item is found at the same place. */
  lemma ToggleKeepsIndex(s: seq<TodoItem>, id: Uuid, now: int)
    ensures IndexOfId(ToggleById(s, id, now), id) == IndexOfId(s, id)
  {
    var r := ToggleById(s, id, now);
    assert forall j :: 0 <= j < |s| ==> r[j].id == s[j].id;
  }

  /** The checkbox action. */
  method CheckboxTapped(todo: TodoItem, todoStore: TodoStore, calendarSyncService: ReminderOperations, now: int)
    modifies todoStore, calendarSyncService
    ensures todoStore.todos == ToggleById(old(todoStore.todos), todo.id, now)
    ensures todoStore.saveCount == old(todoStore.saveCount) + if todo.id in Ids(old(todoStore.todos)) then 1 else 0
    ensures calendarSyncService.calls == old(calendarSyncService.calls) +
      match IndexOfId(old(todoStore.todos), todo.id)
      case None => []
      case Some(i) => WriteBack(todo.status, Toggled(old(todoStore.todos)[i], now))
  {
    ghost var before := todoStore.todos;
    var previousStatus := todo.status;
    todoStore.ToggleStatus(todo, now);
    ToggleKeepsIndex(before, todo.id, now);
    var found := IndexOfId(todoStore.todos, todo.id);
    if found.Some? {
      var updatedTodo := todoStore.todos[found.value];
      if updatedTodo.status == Completed && previousStatus != Completed {
        calendarSyncService.CompleteReminder(updatedTodo);
      } else if updatedTodo.status != Completed && previousStatus == Completed {
        calendarSyncService.IncompleteReminder(updatedTodo);
      }
    }
  }

  /**
   * When the row shows the stored item, the reminder is completed exactly on
   * the step into "completed" and reopened exactly on the step out of it;
   * the step from "not started" to "in progress" writes nothing back.
   */
  lemma WriteBackFollowsToggle(t: TodoItem, now: int)
    ensures var u := Toggled(t, now);
      WriteBack(t.status, u) == match t.status
        case NotStarted => []
        case InProgress => [ReminderCall.CompleteReminder(u)]
        case Completed => [ReminderCall.IncompleteReminder(u)]
  {
  }

  /**
   * The rule compares with the status the row showed, not the stored one: a
   * row still showing "completed" for an item stored as "not started" asks
   * for its reminder to be reopened although the item never was completed.
   */
  lemma StaleRowReopens(t: TodoItem, now: int)
    requires t.status == NotStarted
    ensures WriteBack(Completed, Toggled(t, now)) == [ReminderCall.IncompleteReminder(Toggled(t, now))]
  {
  }
}
