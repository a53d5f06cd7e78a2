# myTodoAPP: a verified model of the to-do core

myTodoAPP is an iOS to-do list app. It files every to-do into one of four
daily time categories: morning, daytime, evening and night. Each category is
a time-of-day window that the user can set, and a window may cross midnight.

The app also does the following:
- keeps the to-dos in a store with a three-state status: not started, in progress, completed;
- sorts them with one fixed display order;
- shows the to-dos of "today", a day that starts at the user's morning boundary;
- brings calendar events and reminders in as to-dos and keeps them in step with their source;
- clears away yesterday's synced items once the morning boundary has passed;
- feeds a home-screen widget and a "current category" panel.

This project states that logic in Dafny and proves what the app promises:
- the classifier gives first-match priority with a daytime fallback;
- the day window contains `now` and is exactly one day long;
- the store's operations change exactly the targeted item;
- `completedAt` is set exactly when an item is completed;
- the sort order is a strict weak order and sorting is a permutation;
- a sync pass never links two items to the same event or reminder;
- a sync step repeated with the same data changes nothing;
- the views' filtered lists are exactly the store's items that meet their filters.

Conventions of the model:
- A time is an `int` count of seconds, with days of 86400 seconds and no time zones or daylight saving time (module `Clock`).
- A time setting is a minute of the day, `0..1439`.
- The clock reading is a parameter `now`.
- Fresh UUIDs come from a parameter `newId: nat -> Uuid`.
- EventKit events and reminders are value snapshots (`EventKitRecords`). A lookup by identifier is a `map`, where a missing key means "not found".
- The store is a class whose `todos` sequence the methods reassign. A ghost counter `saveCount` records calls to `saveTodos`.
- Calls to the reminder service (`completeReminder`, `incompleteReminder`, `removeReminderTime`, `deleteReminder`) are appended to a ghost call log in class `ReminderOperations`.

Modules:
- `TodoItem`, `TimeSettings`, `TimeCategoryHelper` and `AllTodosExpansionState`: the value types and the classifier.
- `TodoStore`: the store.
- `MainViewHelper`: the day window and the main screen's queries.
- `CalendarEventSync` and `ReminderSync`: the sync passes keyed on `startTime`.
- `CalendarSyncService`: the older sync passes keyed on `createdAt`, and the category-to-due-date mapping.
- `TodoWidgetProvider`: the widget's entry.
- `CurrentTimeCategoryView`, `FullTodoListView` and `TodoRowView`: the views' logic.
- `Wrappers`, `Lists`, `Clock`: generic helpers.

## Model

| member | source | states |
|---|---|---|
| TodoItem.NewTodoItem | myTodoAPP/myTodoAPP/Models/TodoItem.swift:55-66 | a new item keeps the given id, title, type and creation time. It is not started and has no completion time, memo, category, start time or links |
| TodoItem.SetIsCompleted | myTodoAPP/myTodoAPP/Models/TodoItem.swift:50-53 | reading `isCompleted` back gives the value just set. Setting false gives not started, so an in-progress item is reset. Nothing but the status changes; `completedAt` is left alone |
| TodoItem.SetIsCompletedIdempotent | myTodoAPP/myTodoAPP/Models/TodoItem.swift:50-53 | writing back the value read leaves the item unchanged, exactly when it is not in progress |
| TodoItem.CategoryIndex | myTodoAPP/myTodoAPP/Models/TodoItem.swift:10-14 | every category has a position in `allCases`, and the case at that position is the category |
| TodoItem.AllCasesEnumerates | myTodoAPP/myTodoAPP/Models/TodoItem.swift:10-14 | `allCases` lists every category, and no category twice |
| TodoItem.NextCategory | myTodoAPP/myTodoAPP/Models/TodoItem.swift:10-14 | the next category is one position later in `allCases`; there is none exactly after night |
| TodoItem.PreviousCategory | myTodoAPP/myTodoAPP/Models/TodoItem.swift:10-14 | the previous category is one position earlier; there is none exactly before morning |
| TodoItem.NextPreviousInverse | myTodoAPP/myTodoAPP/Models/TodoItem.swift:10-14 | d follows c exactly when c precedes d |
| TimeSettings.InWindow | myTodoAPP/myTodoAPP/Services/TimeCategoryHelper.swift:44-53 | the window test, ordinary and midnight-crossing, is the same as walking round the clock from the start and reaching t before the end |
| TimeSettings.EmptyWindow | myTodoAPP/myTodoAPP/Services/TimeCategoryHelper.swift:44-48 | a window whose start equals its end never matches |
| TimeSettings.GetCurrentTimeCategory | myTodoAPP/myTodoAPP/Models/TimeSettings.swift:37-98 | the result's window holds the current minute and no earlier category's does, or else (the daytime fallback) no window holds it |
| TimeSettings.DefaultWindowsPartition | myTodoAPP/myTodoAPP/Models/TimeSettings.swift:26-33 | under the defaults every minute of the day lies in exactly one window |
| TimeSettings.DefaultCurrentCategory | myTodoAPP/myTodoAPP/Models/TimeSettings.swift:26-33 | under the defaults the current category is given by the hour boundaries 06, 09, 18 and 22, and the fallback is never taken |
| TimeCategoryHelper.GetTimeCategory | myTodoAPP/myTodoAPP/Services/TimeCategoryHelper.swift:28-88 | the result is never nil. It is the first category (morning, daytime, evening, night) whose window holds the date's minute, or daytime when none does |
| TimeCategoryHelper.GetTimeCategoryForEvent | myTodoAPP/myTodoAPP/Services/TimeCategoryHelper.swift:12-15 | nil exactly when the event has no start; otherwise the start's category |
| TimeCategoryHelper.GetTimeCategoryForReminder | myTodoAPP/myTodoAPP/Services/TimeCategoryHelper.swift:17-26 | nil exactly when the reminder has no due date; otherwise the due date's category |
| TimeCategoryHelper.TimeOfDayOnly | myTodoAPP/myTodoAPP/Services/TimeCategoryHelper.swift:30-31 | moving a date by whole days does not change its category |
| TimeCategoryHelper.CurrentCategoryAgrees | myTodoAPP/myTodoAPP/Models/TimeSettings.swift:37-98 | the current category is the classifier applied to `now` |
| AllTodosExpansionState.Next | myTodoAPP/myTodoAPP/Models/AllTodosExpansionState.swift:15-24 | `next` moves one step round the cycle collapsed, medium, expanded |
| AllTodosExpansionState.NextCycles | myTodoAPP/myTodoAPP/Models/AllTodosExpansionState.swift:15-24 | three steps return to the start, and no step stays put |
| AllTodosExpansionState.NextBijective | myTodoAPP/myTodoAPP/Models/AllTodosExpansionState.swift:10-24 | `next` is one-to-one and onto |
| TodoStore.IndexOfId | myTodoAPP/myTodoAPP/Models/TodoStore.swift:27 | `firstIndex(where:)` finds the first item with the id, and finds none exactly when no item has it |
| TodoStore.ReplaceById | myTodoAPP/myTodoAPP/Models/TodoStore.swift:26-31 | only the first item with the id is replaced. The length and every other item are unchanged, and an absent id changes nothing |
| TodoStore.RemoveById | myTodoAPP/myTodoAPP/Models/TodoStore.swift:33-36 | the items left are exactly the items without the id |
| TodoStore.RemoveByIdCounts | myTodoAPP/myTodoAPP/Models/TodoStore.swift:33-36 | every item without the id keeps its number of occurrences |
| TodoStore.RemoveByIdSubsequence | myTodoAPP/myTodoAPP/Models/TodoStore.swift:33-36 | the remaining items keep their relative order |
| TodoStore.Toggled | myTodoAPP/myTodoAPP/Models/TodoStore.swift:48-59 | the status moves one step round not started, in progress, completed. Completing stamps `completedAt`, reopening clears it, starting leaves it alone, and nothing else changes |
| TodoStore.ToggleKeepsCompletionConsistent | myTodoAPP/myTodoAPP/Models/TodoStore.swift:46-63 | toggling keeps "`completedAt` is set exactly when completed". Three toggles restore the status, and for a started item the result depends only on the time of the third |
| TodoStore.ToggleById | myTodoAPP/myTodoAPP/Models/TodoStore.swift:46-63 | only the first item with the id is toggled, and an absent id changes nothing |
| TodoStore.MovedToNext | myTodoAPP/myTodoAPP/Models/TodoStore.swift:70-90 | no move without a category or at night. Otherwise one step forward; the start time is cleared exactly when the item has both a start time and a reminder link. Nothing else changes |
| TodoStore.MovedToPrevious | myTodoAPP/myTodoAPP/Models/TodoStore.swift:92-112 | no move without a category or at morning. Otherwise one step back, with the same start-time rule. Nothing else changes |
| TodoStore.MoveRoundTrip | myTodoAPP/myTodoAPP/Models/TodoStore.swift:70-112 | a move forward and then back returns the item, except for the reminder time that the move forward dropped |
| TodoStore.StatusRank | myTodoAPP/myTodoAPP/Models/TodoStore.swift:134-136 | each status has its rank in the order in progress, not started, completed |
| TodoStore.LexLessTotal | myTodoAPP/myTodoAPP/Models/TodoStore.swift:157 | the comparison of UUID strings is total: distinct strings are ordered one way or the other |
| TodoStore.SortBeforeStrictWeakOrder | myTodoAPP/myTodoAPP/Models/TodoStore.swift:131-160 | the comparator is irreflexive and transitive, and incomparability is transitive |
| TodoStore.SameStartTimeEquivalent | myTodoAPP/myTodoAPP/Models/TodoStore.swift:146-148 | two items with the same status, type and start time compare as equivalent |
| TodoStore.Insert | myTodoAPP/myTodoAPP/Models/TodoStore.swift:131-160 | inserting into a sorted list keeps it sorted and adds exactly the one item |
| TodoStore.SortTodos | myTodoAPP/myTodoAPP/Models/TodoStore.swift:131-160 | the result is sorted by the comparator and is a permutation of the input |
| TodoStore.SortedGroupsByStatus | myTodoAPP/myTodoAPP/Models/TodoStore.swift:131-144 | in a sorted list statuses come in rank order, and within a status the must-do items come first |
| TodoStore.SyncedOutsideRange | myTodoAPP/myTodoAPP/Models/TodoStore.swift:259-264 | it selects exactly the synced, timed items whose start is outside the new day |
| TodoStore.Deferred | myTodoAPP/myTodoAPP/Models/TodoStore.swift:245-251 | a deferred item becomes a must-do morning item starting at the day-after-tomorrow boundary. Putting back the old type, category and start time gives the original item, so its id, title, status, notes, times and links are kept |
| TodoStore.DeferredIsThenDeleted | myTodoAPP/myTodoAPP/Models/TodoStore.swift:250-262 | a deferred item always fails the half-open range test of the second pass, so it is then deleted |
| TodoStore.CleanupGuardAlwaysReturns | myTodoAPP/myTodoAPP/Models/TodoStore.swift:207-219 | `now` is always before tomorrow's morning boundary, so the guard always returns early |
| TodoStore.DeleteOutsideLeavesNone | myTodoAPP/myTodoAPP/Models/TodoStore.swift:259-269 | after the second pass no synced, timed item outside the new day is left |
| TodoStore.DeleteOutsideFilter | myTodoAPP/myTodoAPP/Models/TodoStore.swift:259-269 | with unique ids, the second pass leaves exactly the items it keeps, in their order |
| TodoStore.RemoveEachKeepsFilter | myTodoAPP/myTodoAPP/Models/TodoStore.swift:266-269 | deleting by the id of items that are synced and outside the new day never removes an item the clean-up keeps, and keeps their order |
| TodoStore.FilterRemoveDropped | myTodoAPP/myTodoAPP/Models/TodoStore.swift:241-243 | deleting by an id that only dropped items carry leaves the kept items in order |
| TodoStore.FilterKeepsUniqueIds | myTodoAPP/myTodoAPP/Models/TodoStore.swift:229-237 | the due list taken from a store with unique ids has unique ids |
| Lists.FilterUpdateDropped | myTodoAPP/myTodoAPP/Models/TodoStore.swift:245-252 | replacing a dropped item by another dropped item leaves the filtered list unchanged |
| TodoStore.UpdateSameId | myTodoAPP/myTodoAPP/Models/TodoStore.swift:245-252 | writing an item back under its own id keeps the set of ids, and keeps every item with another id |
| TodoStore.DueEachProgress | myTodoAPP/myTodoAPP/Models/TodoStore.swift:239-255 | with unique ids, after each step of the first pass the items handled so far are deleted or deferred. The rest are still present, the clean-up invariant holds and the kept items are unchanged and in order |
| TodoStore.DueLoopDone | myTodoAPP/myTodoAPP/Models/TodoStore.swift:229-255 | after the whole first pass, every due item is deleted when completed and deferred otherwise, and the kept items are unchanged and in order. Something is due exactly when the due list is not empty, and with an empty list the store is unchanged |
| TodoStore.CleanupDone | myTodoAPP/myTodoAPP/Models/TodoStore.swift:229-273 | after both passes the survivors are exactly the kept old items, in order, and one of the passes changed something exactly when some old item was synced and outside the new day |
| TodoStore.TodoStore.constructor | myTodoAPP/myTodoAPP/Models/TodoStore.swift:17-19 | the store starts with the loaded to-dos |
| TodoStore.TodoStore.AddTodo | myTodoAPP/myTodoAPP/Models/TodoStore.swift:21-24 | the item is appended at the end and the store is saved |
| TodoStore.TodoStore.UpdateTodo | myTodoAPP/myTodoAPP/Models/TodoStore.swift:26-31 | the first item with the id is replaced; a save happens exactly when the id is present |
| TodoStore.TodoStore.DeleteTodo | myTodoAPP/myTodoAPP/Models/TodoStore.swift:33-36 | every item with the id is removed, then a save |
| TodoStore.TodoStore.DeleteTodoWithReminder | myTodoAPP/myTodoAPP/Models/TodoStore.swift:38-44 | the reminder is deleted first when the item is linked to one, then the item is deleted |
| TodoStore.TodoStore.ToggleStatus | myTodoAPP/myTodoAPP/Models/TodoStore.swift:46-63 | the store becomes `ToggleById` of the old store; a save happens exactly when the id is present |
| TodoStore.TodoStore.ToggleComplete | myTodoAPP/myTodoAPP/Models/TodoStore.swift:66-68 | the same as `toggleStatus` |
| TodoStore.TodoStore.MoveTodoToNextTimeCategory | myTodoAPP/myTodoAPP/Models/TodoStore.swift:70-90 | without a move nothing changes and nothing is saved. Otherwise the moved item replaces the stored one, the reminder time is removed when it was dropped, and one save happens exactly when the id is present |
| TodoStore.TodoStore.MoveTodoToPreviousTimeCategory | myTodoAPP/myTodoAPP/Models/TodoStore.swift:92-112 | the same, one step back |
| TodoStore.TodoStore.MoveTodoToTimeCategory | myTodoAPP/myTodoAPP/Models/TodoStore.swift:114-118 | the stored item gets the given category and nothing else changes; one save happens exactly when the id is present |
| TodoStore.TodoStore.MoveTodo | myTodoAPP/myTodoAPP/Models/TodoStore.swift:120-129 | the to-dos are unchanged because the reordered copy is thrown away; only a save happens |
| TodoStore.TodoStore.GetTodos | myTodoAPP/myTodoAPP/Models/TodoStore.swift:162-168 | the result is sorted and holds exactly the items of the category (and type, if given), with their multiplicities |
| TodoStore.TodoStore.GetTodosWithoutTimeCategory | myTodoAPP/myTodoAPP/Models/TodoStore.swift:170-176 | the same for the items with no category |
| TodoStore.TodoStore.CleanupOldTodos | myTodoAPP/myTodoAPP/Models/TodoStore.swift:194-219 | the guard always returns, so clean-up never changes the store |
| TodoStore.TodoStore.CleanupPastBoundary | myTodoAPP/myTodoAPP/Models/TodoStore.swift:225-273 | the clean-up body with the two boundaries as inputs. Afterwards no synced, timed item lies outside the new day. With unique ids, the survivors are exactly the old items that are not synced, timed and outside the new day, so untimed and unlinked items all stay. The survivors are the old store filtered by that test, in their old order. One save happens exactly when some old item is synced and outside the new day; otherwise nothing changes |
| TodoStore.TodoStore.ProcessDueTodos | myTodoAPP/myTodoAPP/Models/TodoStore.swift:229-255 | with unique ids, every due completed item's id is gone and every other due item is present in its deferred form. The kept items are unchanged and in order. The flag is set exactly when some item was due, and when it is not set nothing changed. No save |
| TodoStore.TodoStore.DeferOrDelete | myTodoAPP/myTodoAPP/Models/TodoStore.swift:240-254 | one step of the first pass is `DueStep`: a completed item's id is deleted everywhere, otherwise the first item with the id is deferred. The flag is set exactly when the item is completed or its id is present. No save |
| TodoStore.DeleteDueStep | myTodoAPP/myTodoAPP/Models/TodoStore.swift:240-243 | with unique ids, deleting a due completed item keeps the pass's progress: it is gone, earlier due items stay handled, later ones present, kept items unchanged |
| TodoStore.DeferDueStep | myTodoAPP/myTodoAPP/Models/TodoStore.swift:244-252 | the same for deferring a due unfinished item: its deferred form is present |
| TodoStore.DueEachStep | myTodoAPP/myTodoAPP/Models/TodoStore.swift:239-255 | with unique ids, each further step of the first pass keeps its progress |
| TodoStore.TodoStore.DeferOrDeleteEach | myTodoAPP/myTodoAPP/Models/TodoStore.swift:239-255 | the loop computes the first pass `DueEach` over the due items, and its flag is set exactly when the list is not empty |
| TodoStore.TodoStore.DeleteSyncedOutsideRange | myTodoAPP/myTodoAPP/Models/TodoStore.swift:259-269 | every synced, timed item outside the new day is deleted; the flag is set exactly when there was one |
| MainViewHelper.GetCurrentTimeRange | myTodoAPP/myTodoAPP/Views/MainViewHelper.swift:22-62 | the window holds `now`, is one day long and starts at the morning boundary. It starts yesterday exactly when `now` is before today's boundary |
| MainViewHelper.CurrentTimeRangeUnique | myTodoAPP/myTodoAPP/Views/MainViewHelper.swift:22-62 | it is the only window with those three properties |
| MainViewHelper.GetTodayTodos | myTodoAPP/myTodoAPP/Views/MainViewHelper.swift:64-78 | the untimed items and the items starting inside the window, with their multiplicities and in store order |
| MainViewHelper.GetTodosForCategory | myTodoAPP/myTodoAPP/Views/MainViewHelper.swift:80-95 | sorted, and exactly today's items with the given category (nil: no category) |
| MainViewHelper.GetTodosByType | myTodoAPP/myTodoAPP/Views/MainViewHelper.swift:97-112 | sorted, and exactly today's items of the given type |
| MainViewHelper.CategoriesPartitionToday | myTodoAPP/myTodoAPP/Views/MainViewHelper.swift:64-95 | the lists for the four categories and for no category together hold today's items exactly once |
| MainViewHelper.TypesPartitionToday | myTodoAPP/myTodoAPP/Views/MainViewHelper.swift:64-112 | the must-do and want-to-do lists together hold today's items exactly once |
| CalendarEventSync.FirstLinked | myTodoAPP/myTodoAPP/Services/CalendarEventSync.swift:96-98 | finds the first item linked to the event, and none exactly when no item is |
| CalendarEventSync.EventUpdate | myTodoAPP/myTodoAPP/Services/CalendarEventSync.swift:100-107 | a linked item takes the event's title, notes, start and start's category; id, type, status, creation and links are unchanged |
| CalendarEventSync.NewEventTodo | myTodoAPP/myTodoAPP/Services/CalendarEventSync.swift:108-123 | a new item is must-do and not started, starts at the event's start and is linked to the event |
| CalendarEventSync.ApplyEvent | myTodoAPP/myTodoAPP/Services/CalendarEventSync.swift:87-124 | an event without start or identifier changes nothing. A linked event updates its item, inside the day or not. An unlinked event is added exactly when it starts inside the day window |
| CalendarEventSync.ReconcileEvent | myTodoAPP/myTodoAPP/Services/CalendarEventSync.swift:88-123 | one step of the event loop leaves the store at `ApplyEvent` of the old store |
| CalendarEventSync.ReconcileEvents | myTodoAPP/myTodoAPP/Services/CalendarEventSync.swift:84-124 | the loop leaves the store at the result of applying every fetched event in order, and records as found exactly the identifiers of the events with a start and an identifier |
| CalendarEventSync.FoundIdsMembers | myTodoAPP/myTodoAPP/Services/CalendarEventSync.swift:88-91 | an identifier is recorded as found exactly when a fetched event has a start and carries it; events without a start or identifier are skipped |
| CalendarEventSync.ApplyEventsKeepsUnique | myTodoAPP/myTodoAPP/Services/CalendarEventSync.swift:87-124 | with fresh UUIDs, the event loop keeps ids unique and never links two items to one event |
| CalendarEventSync.InRangeEventsLinked | myTodoAPP/myTodoAPP/Services/CalendarEventSync.swift:87-124 | with unique ids and links and fresh UUIDs, after the loop every usable event that starts inside the day window is linked to an item, whether it was linked already or has just been added |
| CalendarEventSync.ApplyEventIdempotent | myTodoAPP/myTodoAPP/Services/CalendarEventSync.swift:87-124 | with unique ids and links and a fresh UUID, applying the same event a second time changes nothing |
| CalendarEventSync.SettledUnchanged | myTodoAPP/myTodoAPP/Services/CalendarEventSync.swift:87-124 | a store that already reflects an event goes through that event's loop step unchanged |
| CalendarEventSync.SettledAfterSame | myTodoAPP/myTodoAPP/Services/CalendarEventSync.swift:87-124 | after an event's loop step the store reflects that event: its linked item carries the event's data, or it is unlinked and starts outside the day |
| CalendarEventSync.SettledAfterOther | myTodoAPP/myTodoAPP/Services/CalendarEventSync.swift:87-124 | the loop step for an event with another identifier leaves the store reflecting the first event |
| CalendarEventSync.ApplyEventsSettled | myTodoAPP/myTodoAPP/Services/CalendarEventSync.swift:87-124 | with distinct event identifiers, after the loop the store reflects every fetched event |
| CalendarEventSync.ReapplySettled | myTodoAPP/myTodoAPP/Services/CalendarEventSync.swift:87-124 | a store reflecting every fetched event goes through the whole loop unchanged |
| CalendarEventSync.ApplyEventsIdempotent | myTodoAPP/myTodoAPP/Services/CalendarEventSync.swift:87-124 | with distinct event identifiers, a second run of the event loop over the same fetch changes nothing, whatever UUIDs and clock it uses |
| CalendarEventSync.PruneStep | myTodoAPP/myTodoAPP/Services/CalendarEventSync.swift:127-149 | one prune step deletes the linked item exactly when its event was not fetched and its lookup fails or starts outside the day; the others are kept |
| CalendarEventSync.DayRange | myTodoAPP/myTodoAPP/Services/CalendarEventSync.swift:44-70 | the window computed inline is the main screen's window |
| CalendarEventSync.SyncCalendarEvents | myTodoAPP/myTodoAPP/Services/CalendarEventSync.swift:14-150 | nothing happens without access. Otherwise the fetch covers the day widened by two days on each side, and the store is the event loop's result. With unique ids and links, that result is then pruned of exactly the identifiers linked before the pass that were not fetched and whose lookup fails or starts outside the day |
| CalendarEventSync.SettledAfterPrune | myTodoAPP/myTodoAPP/Services/CalendarEventSync.swift:127-149 | a clean-up that keeps an event's linked item keeps the store reflecting that event |
| CalendarEventSync.ResyncKeepsItems | myTodoAPP/myTodoAPP/Services/CalendarEventSync.swift:14-150 | a second run with the same fetch, lookups and day range leaves exactly the items the first run left: every event finds its item up to date and no link is pruned |
| ReminderSync.FirstReminderLinked | myTodoAPP/myTodoAPP/Services/ReminderSync.swift:101-103 | finds the first item linked to the reminder, and none exactly when no item is |
| ReminderSync.Mirror | myTodoAPP/myTodoAPP/Services/ReminderSync.swift:122-128 | a completed reminder completes the item and stamps it. An open reminder reopens a completed item and clears the stamp; otherwise the status is kept, so in progress survives. Consistency of `completedAt` is kept |
| ReminderSync.MirrorIdempotent | myTodoAPP/myTodoAPP/Services/ReminderSync.swift:122-128 | mirroring again changes nothing |
| ReminderSync.AppCreatedUpdate | myTodoAPP/myTodoAPP/Services/ReminderSync.swift:114-133 | an app-created item takes title, notes and the completion mirror; its category and start never change |
| ReminderSync.TimedUpdate | myTodoAPP/myTodoAPP/Services/ReminderSync.swift:155-175 | a timed item takes title, notes, due date as start, the due date's category and the mirror |
| ReminderSync.NewReminderTodo | myTodoAPP/myTodoAPP/Services/ReminderSync.swift:176-191 | a new item is must-do and not started, starts at the due date and is linked to the reminder |
| ReminderSync.DateOnlyInRangeOnStartDay | myTodoAPP/myTodoAPP/Services/ReminderSync.swift:144-153 | a date-only reminder is in range exactly when it falls on the window's first calendar day |
| ReminderSync.ApplyReminder | myTodoAPP/myTodoAPP/Services/ReminderSync.swift:94-192 | the store's length is kept, or one item is appended. An unlinked reminder is added exactly when it has a due date, is open and is in range |
| ReminderSync.ApplyReminderLinked | myTodoAPP/myTodoAPP/Services/ReminderSync.swift:114-175 | a linked reminder changes only its item: the app-created update, or the timed update when there is a due date, or nothing |
| ReminderSync.FlattenMembers | myTodoAPP/myTodoAPP/Services/ReminderSync.swift:86-94 | the reminders processed are exactly those of all calendars |
| ReminderSync.FoundIdsMembers | myTodoAPP/myTodoAPP/Services/ReminderSync.swift:95-98 | every fetched reminder's identifier is recorded as found, before any filter |
| ReminderSync.ApplyRemindersKeepsUnique | myTodoAPP/myTodoAPP/Services/ReminderSync.swift:94-192 | with fresh UUIDs, the loop keeps ids unique and never links two items to one reminder |
| ReminderSync.ApplyReminderIdempotent | myTodoAPP/myTodoAPP/Services/ReminderSync.swift:94-192 | with unique ids and a fresh UUID, applying the same reminder a second time changes nothing |
| ReminderSync.ReminderSettledIff | myTodoAPP/myTodoAPP/Services/ReminderSync.swift:94-192 | a store reflects a reminder exactly when that reminder's loop step leaves it unchanged |
| ReminderSync.ReminderSettledAfterSame | myTodoAPP/myTodoAPP/Services/ReminderSync.swift:94-192 | after a reminder's loop step the store reflects that reminder, whenever the next run happens |
| ReminderSync.ReminderSettledAfterOther | myTodoAPP/myTodoAPP/Services/ReminderSync.swift:94-192 | the loop step for another reminder leaves the store reflecting the first one |
| ReminderSync.ApplyRemindersSettled | myTodoAPP/myTodoAPP/Services/ReminderSync.swift:94-192 | with distinct reminder identifiers, after the loop the store reflects every fetched reminder |
| ReminderSync.ReapplyRemindersSettled | myTodoAPP/myTodoAPP/Services/ReminderSync.swift:94-192 | a store reflecting every fetched reminder goes through the whole loop unchanged |
| ReminderSync.ApplyRemindersIdempotent | myTodoAPP/myTodoAPP/Services/ReminderSync.swift:94-192 | with distinct reminder identifiers, a second run of the loop over the same reminders changes nothing, whatever UUIDs and clock it uses |
| ReminderSync.ApplyReminderUntouched | myTodoAPP/myTodoAPP/Services/ReminderSync.swift:94-192 | a loop step keeps every item not linked to its reminder where it was |
| ReminderSync.ApplyRemindersUntouched | myTodoAPP/myTodoAPP/Services/ReminderSync.swift:94-192 | an item after the loop that is linked to no fetched reminder was in the store before |
| ReminderSync.PruneAppStep | myTodoAPP/myTodoAPP/Services/ReminderSync.swift:199-208 | an unfound app-created item is deleted exactly when its lookup fails |
| ReminderSync.PruneTimedStep | myTodoAPP/myTodoAPP/Services/ReminderSync.swift:211-236 | an unfound timed item is deleted exactly when its lookup fails or its due instant is outside the day |
| ReminderSync.ReconcileReminder | myTodoAPP/myTodoAPP/Services/ReminderSync.swift:94-192 | one loop step leaves the store at `ApplyReminder` of the old store |
| ReminderSync.SyncReminders | myTodoAPP/myTodoAPP/Services/ReminderSync.swift:14-238 | nothing happens without access. Otherwise all calendars' reminders are reconciled in order. With unique ids and links, the result is then pruned of exactly the unfound app-created and timed items that the two deletion rules name |
| ReminderSync.DeleteVanishedAppCreated | myTodoAPP/myTodoAPP/Services/ReminderSync.swift:199-208 | the first deletion loop keeps the prune invariant for every identifier it visits |
| ReminderSync.DeleteMovedTimed | myTodoAPP/myTodoAPP/Services/ReminderSync.swift:211-236 | the second deletion loop keeps the prune invariant for every identifier it visits |
| ReminderSync.ReminderSettledAfterPrune | myTodoAPP/myTodoAPP/Services/ReminderSync.swift:194-236 | a clean-up that keeps a fetched reminder's linked item keeps the store reflecting that reminder |
| ReminderSync.ResyncKeepsItems | myTodoAPP/myTodoAPP/Services/ReminderSync.swift:14-238 | a second run with the same reminders, lookups and day range leaves exactly the items the first run left |
| ReminderOperations.ReminderOperations.RemoveReminderTime | myTodoAPP/myTodoAPP/Services/ReminderOperations.swift:64-85 | the call is logged |
| ReminderOperations.ReminderOperations.DeleteReminder | myTodoAPP/myTodoAPP/Services/ReminderOperations.swift:86-102 | the call is logged |
| ReminderOperations.ReminderOperations.CompleteReminder | myTodoAPP/myTodoAPP/Services/ReminderOperations.swift:103-121 | the call is logged |
| ReminderOperations.ReminderOperations.IncompleteReminder | myTodoAPP/myTodoAPP/Services/ReminderOperations.swift:122-141 | the call is logged |
| CalendarSyncService.ServiceTimeCategory | myTodoAPP/myTodoAPP/Services/CalendarSyncService.swift:425-485 | the service's private classifier is the helper's classifier |
| CalendarSyncService.ReminderDueDate | myTodoAPP/myTodoAPP/Services/CalendarSyncService.swift:266-306 | no category gives today's date without a time. Otherwise the result is at the category's end time: today for the day categories, tomorrow for night |
| CalendarSyncService.ReminderDueDateUnique | myTodoAPP/myTodoAPP/Services/CalendarSyncService.swift:266-306 | that moment is the only one with that day and that time of day |
| CalendarSyncService.ReminderDueDateNear | myTodoAPP/myTodoAPP/Services/CalendarSyncService.swift:266-306 | the due moment falls today or tomorrow |
| CalendarSyncService.SyncedTodos | myTodoAPP/myTodoAPP/Services/CalendarSyncService.swift:90-95 | selects exactly the items linked as the pass names: calendar-linked, or reminder-linked without a calendar link |
| CalendarSyncService.PrunedKeepsTheRest | myTodoAPP/myTodoAPP/Services/CalendarSyncService.swift:90-95 | with unique ids, pruning removes exactly the linked items created outside the window |
| CalendarSyncService.PrunedLeavesInside | myTodoAPP/myTodoAPP/Services/CalendarSyncService.swift:90-95 | after pruning every linked item was created inside the window, and nothing new appears |
| CalendarSyncService.DeleteStaleSynced | myTodoAPP/myTodoAPP/Services/CalendarSyncService.swift:90-95 | the deletion loop leaves the store pruned |
| CalendarSyncService.PrunedInsideUnchanged | myTodoAPP/myTodoAPP/Services/CalendarSyncService.swift:90-95 | pruning a store whose linked items were all created inside the window changes nothing |
| CalendarSyncService.FirstEventMatch | myTodoAPP/myTodoAPP/Services/CalendarSyncService.swift:112-114 | finds the first item whose event link equals the event's identifier, which may be nil |
| CalendarSyncService.DatedEventUpdate | myTodoAPP/myTodoAPP/Services/CalendarSyncService.swift:116-123 | a matched item takes title, notes, the start's category and the start as creation time, and nothing else changes |
| CalendarSyncService.NewDatedEventTodo | myTodoAPP/myTodoAPP/Services/CalendarSyncService.swift:124-136 | a new item is must-do and not started, created at the start, without start time, and linked to the event |
| CalendarSyncService.ApplyDatedEvent | myTodoAPP/myTodoAPP/Services/CalendarSyncService.swift:100-137 | an event starting outside the window changes nothing; a matched one updates its item; otherwise the event is added |
| CalendarSyncService.ApplyDatedEventsKeepsInside | myTodoAPP/myTodoAPP/Services/CalendarSyncService.swift:100-137 | with fresh UUIDs the loop keeps ids unique and every calendar-linked item created inside the window, and loses no event link |
| CalendarSyncService.DatedEventsLinked | myTodoAPP/myTodoAPP/Services/CalendarSyncService.swift:100-137 | with fresh UUIDs, every event with an identifier that starts inside the window is linked once the loop has passed it |
| CalendarSyncService.ReconcileDatedEvent | myTodoAPP/myTodoAPP/Services/CalendarSyncService.swift:100-136 | one step of the event loop leaves the store at `ApplyDatedEvent` of the old store |
| CalendarSyncService.ApplyDatedEventIdempotent | myTodoAPP/myTodoAPP/Services/CalendarSyncService.swift:100-137 | with unique ids and a fresh UUID, applying the same event again changes nothing |
| CalendarSyncService.DatedEventSettledUnchanged | myTodoAPP/myTodoAPP/Services/CalendarSyncService.swift:100-137 | a store that already reflects an event goes through its loop step unchanged |
| CalendarSyncService.DatedEventSettledAfterSame | myTodoAPP/myTodoAPP/Services/CalendarSyncService.swift:100-137 | after an event's loop step its matched item carries the event's data |
| CalendarSyncService.DatedEventSettledAfterOther | myTodoAPP/myTodoAPP/Services/CalendarSyncService.swift:100-137 | the loop step for an event with another identifier leaves the store reflecting the first |
| CalendarSyncService.ApplyDatedEventsSettled | myTodoAPP/myTodoAPP/Services/CalendarSyncService.swift:100-137 | with distinct identifiers among the events inside the window, after the loop the store reflects each of them |
| CalendarSyncService.ReapplyDatedEventsSettled | myTodoAPP/myTodoAPP/Services/CalendarSyncService.swift:100-137 | a store reflecting every fetched event goes through the whole loop unchanged |
| CalendarSyncService.ApplyDatedEventsIdempotent | myTodoAPP/myTodoAPP/Services/CalendarSyncService.swift:100-137 | a second run of the event loop over the same fetch changes nothing, whatever UUIDs it uses |
| CalendarSyncService.SyncCalendarEvents | myTodoAPP/myTodoAPP/Services/CalendarSyncService.swift:48-138 | nothing happens without access. Otherwise the store is pruned, and then the events of the window are applied in order |
| CalendarSyncService.SyncCalendarEventsOutcome | myTodoAPP/myTodoAPP/Services/CalendarSyncService.swift:48-138 | afterwards every calendar-linked item was created inside the window, and every fetched event with an identifier starting inside it is linked |
| CalendarSyncService.SyncCalendarEventsTwice | myTodoAPP/myTodoAPP/Services/CalendarSyncService.swift:48-138 | a second run with the same fetch, at a moment with the same window, leaves the store exactly as the first run left it |
| CalendarSyncService.DatedReminderUpdate | myTodoAPP/myTodoAPP/Services/CalendarSyncService.swift:214-233 | a linked item takes title, notes, the due date's category, the due date as creation time, and the mirror |
| CalendarSyncService.NewDatedReminderTodo | myTodoAPP/myTodoAPP/Services/CalendarSyncService.swift:234-247 | a new item is must-do and not started, created at the due date and linked to the reminder only |
| CalendarSyncService.ApplyDatedReminder | myTodoAPP/myTodoAPP/Services/CalendarSyncService.swift:195-248 | a reminder not due inside the window changes nothing; a linked one updates its item; an open unlinked one is added, and a completed one never |
| CalendarSyncService.ApplyDatedRemindersKeepsInside | myTodoAPP/myTodoAPP/Services/CalendarSyncService.swift:195-248 | with fresh UUIDs the loop keeps ids unique and every reminder-only item created inside the window |
| CalendarSyncService.ApplyDatedReminderIdempotent | myTodoAPP/myTodoAPP/Services/CalendarSyncService.swift:195-248 | with unique ids and a fresh UUID, applying the same reminder again changes nothing |
| CalendarSyncService.DatedReminderSettledUnchanged | myTodoAPP/myTodoAPP/Services/CalendarSyncService.swift:195-248 | a store that already reflects a reminder goes through its loop step unchanged |
| CalendarSyncService.DatedReminderSettledAfterSame | myTodoAPP/myTodoAPP/Services/CalendarSyncService.swift:195-248 | after a reminder's loop step the store reflects it, whenever the next run happens |
| CalendarSyncService.DatedReminderSettledAfterOther | myTodoAPP/myTodoAPP/Services/CalendarSyncService.swift:195-248 | the loop step for another reminder leaves the store reflecting the first |
| CalendarSyncService.ApplyDatedRemindersSettled | myTodoAPP/myTodoAPP/Services/CalendarSyncService.swift:195-248 | with distinct reminder identifiers, after the loop the store reflects every fetched reminder |
| CalendarSyncService.ReapplyDatedRemindersSettled | myTodoAPP/myTodoAPP/Services/CalendarSyncService.swift:195-248 | a store reflecting every fetched reminder goes through the whole loop unchanged |
| CalendarSyncService.ApplyDatedRemindersIdempotent | myTodoAPP/myTodoAPP/Services/CalendarSyncService.swift:195-248 | a second run of the reminder loop over the same reminders changes nothing, whatever UUIDs and clock it uses |
| CalendarSyncService.ReconcileDatedReminder | myTodoAPP/myTodoAPP/Services/CalendarSyncService.swift:195-248 | one loop step leaves the store at `ApplyDatedReminder` of the old store |
| CalendarSyncService.SyncReminders | myTodoAPP/myTodoAPP/Services/CalendarSyncService.swift:140-252 | nothing happens without access. Otherwise reminder-only items created outside the window are pruned, and all calendars' reminders are applied in order |
| CalendarSyncService.SyncRemindersOutcome | myTodoAPP/myTodoAPP/Services/CalendarSyncService.swift:140-252 | afterwards every reminder-only item was created inside the window, and every open reminder due inside it is linked |
| CalendarSyncService.SyncRemindersTwice | myTodoAPP/myTodoAPP/Services/CalendarSyncService.swift:140-252 | a second run with the same reminder calendars, at a moment with the same window, leaves the store exactly as the first run left it |
| TodoWidgetProvider.StatusIndexIsRank | myTodoAPP/myTodoWidget/Widget/TodoWidgetProvider.swift:136-138 | every status is found in `statusOrder`, at the app's rank, so `Int.max` is never used |
| TodoWidgetProvider.WidgetComparatorAgrees | myTodoAPP/myTodoWidget/Widget/TodoWidgetProvider.swift:133-162 | the widget's comparator is the app's comparator |
| TodoWidgetProvider.GetTimeCategoryEndDate | myTodoAPP/myTodoWidget/Widget/TodoWidgetProvider.swift:165-223 | the end lies within (now, now + 1 day] at the category's end time |
| TodoWidgetProvider.EndDateIsNextOccurrence | myTodoAPP/myTodoWidget/Widget/TodoWidgetProvider.swift:165-223 | it is the first moment after `now` with that time of day |
| TodoWidgetProvider.DisplayTodos | myTodoAPP/myTodoWidget/Widget/TodoWidgetProvider.swift:104-107 | at most five items are shown |
| TodoWidgetProvider.TimeRemaining | myTodoAPP/myTodoWidget/Widget/TodoWidgetProvider.swift:116-120 | the time left is positive, at most a day, and runs out at the category's end time |
| TodoWidgetProvider.LoadWidgetData | myTodoAPP/myTodoWidget/Widget/TodoWidgetProvider.swift:62-130 | the entry is dated `now`. Settings fall back to the defaults. Its category is the current one. At most five items are shown, and none with no stored to-dos. The time left is that of the current category |
| TodoWidgetProvider.CategoryList | myTodoAPP/myTodoWidget/Widget/TodoWidgetProvider.swift:89-104 | the list the widget cuts from is sorted |
| TodoWidgetProvider.WidgetFilterMatchesMainScreen | myTodoAPP/myTodoWidget/Widget/TodoWidgetProvider.swift:89-104 | the widget's sorted list is the main screen's list for the current category |
| TodoWidgetProvider.WidgetShowsMainScreenHead | myTodoAPP/myTodoWidget/Widget/TodoWidgetProvider.swift:86-107 | the entry shows the first five items of that list, in its order |
| TodoWidgetProvider.WidgetCountsWholeList | myTodoAPP/myTodoWidget/Widget/TodoWidgetProvider.swift:111-113 | the open count covers the whole list, not only the five shown, and equals the shown count when everything fits |
| CurrentTimeCategoryView.CurrentTimeCategoryView.constructor | myTodoAPP/myTodoAPP/Views/CurrentTimeCategoryView.swift:13 | the view starts at the bound category |
| CurrentTimeCategoryView.CurrentTimeCategoryView.MoveToNextTimeCategory | myTodoAPP/myTodoAPP/Views/CurrentTimeCategoryView.swift:135-143 | one step forward; night is left unchanged |
| CurrentTimeCategoryView.CurrentTimeCategoryView.MoveToPreviousTimeCategory | myTodoAPP/myTodoAPP/Views/CurrentTimeCategoryView.swift:145-153 | one step back; morning is left unchanged |
| CurrentTimeCategoryView.CurrentTimeCategoryView.NextThenPrevious | myTodoAPP/myTodoAPP/Views/CurrentTimeCategoryView.swift:135-153 | forward then back returns to the start, except from night, which ends at evening |
| CurrentTimeCategoryView.GetCurrentTimeTodos | myTodoAPP/myTodoAPP/Views/CurrentTimeCategoryView.swift:123-133 | sorted, and exactly the items created inside today's window in the shown category |
| CurrentTimeCategoryView.IncompleteCountCountsStore | myTodoAPP/myTodoAPP/Views/CurrentTimeCategoryView.swift:155-157 | the count is the number of open items in the store that the panel shows |
| CurrentTimeCategoryView.GetTopTodoTitle | myTodoAPP/myTodoAPP/Views/CurrentTimeCategoryView.swift:159-162 | with no open shown item the title is the placeholder "할 일" |
| CurrentTimeCategoryView.TopTodoTitleIsFirstOpen | myTodoAPP/myTodoAPP/Views/CurrentTimeCategoryView.swift:159-162 | otherwise it is the title of an open shown item that nothing open in the list sorts before |
| CurrentTimeCategoryView.RemainingEndDate | myTodoAPP/myTodoAPP/Views/CurrentTimeCategoryView.swift:184-241 | the end is at the category's end time. Night ends within the next day. The other categories end on today's date, or yesterday's when the current minute is before the night end |
| CurrentTimeCategoryView.GetRemainingMinutes | myTodoAPP/myTodoAPP/Views/CurrentTimeCategoryView.swift:164-248 | never negative. It is zero exactly when less than a minute is left, and otherwise the whole minutes left |
| CurrentTimeCategoryView.NightCountdownBelowADay | myTodoAPP/myTodoAPP/Views/CurrentTimeCategoryView.swift:232-241 | the night countdown is at most a day's 1440 minutes |
| CurrentTimeCategoryView.AfterMidnightDayCategoriesShowZero | myTodoAPP/myTodoAPP/Views/CurrentTimeCategoryView.swift:184-231 | before the night end, a day category's countdown is zero, because it counts to yesterday's end |
| CurrentTimeCategoryView.DayCategoryCountsToEndToday | myTodoAPP/myTodoAPP/Views/CurrentTimeCategoryView.swift:184-231 | after the night end, a day category counts down to its end time today |
| FullTodoListView.FilteredTodos | myTodoAPP/myTodoAPP/Views/FullTodoListView.swift:15-29 | sorted, and exactly the items created today in the selected category (all of today's with none selected) |
| FullTodoListView.CreatedOnDayIsSameDate | myTodoAPP/myTodoAPP/Views/FullTodoListView.swift:16-22 | the day test is "same calendar day", that is, a creation time in [today, today + 1 day) |
| FullTodoListView.SelectionNarrowsSheet | myTodoAPP/myTodoAPP/Views/FullTodoListView.swift:19-28 | a selected category keeps exactly the unselected sheet's items of that category, so it only narrows the sheet |
| TodoRowView.CanMoveToNextTimeCategory | myTodoAPP/myTodoAPP/Views/TodoRowView.swift:170-178 | the button is enabled exactly when the store's move forward would move the item |
| TodoRowView.CanMoveToPreviousTimeCategory | myTodoAPP/myTodoAPP/Views/TodoRowView.swift:180-188 | the button is enabled exactly when the store's move back would move the item |
| TodoRowView.MoveButtonsOffered | myTodoAPP/myTodoAPP/Views/TodoRowView.swift:102-188 | when the buttons show, at least one is enabled; both are enabled exactly for daytime and evening |
| TodoRowView.WriteBack | myTodoAPP/myTodoAPP/Views/TodoRowView.swift:33-39 | `completeReminder` is requested exactly when the status moves into completed, and `incompleteReminder` exactly when it moves out; otherwise nothing |
| TodoRowView.CheckboxTapped | myTodoAPP/myTodoAPP/Views/TodoRowView.swift:28-41 | the store is toggled as by `toggleStatus`. The write-back compares the row's status with the stored item's new status, and nothing is requested for an absent id |
| TodoRowView.WriteBackFollowsToggle | myTodoAPP/myTodoAPP/Views/TodoRowView.swift:28-41 | when the row is current, completing requests `completeReminder`, reopening requests `incompleteReminder`, and starting requests nothing |
| TodoRowView.StaleRowReopens | myTodoAPP/myTodoAPP/Views/TodoRowView.swift:28-41 | a row still showing completed for an item stored as not started requests `incompleteReminder` although the item moved to in progress |

## Left out

- EventKit I/O: authorisation, access requests, fetches, saves and removals. The fetched snapshot, the `event(withIdentifier:)` and `calendarItem(withIdentifier:)` lookups, and the access flag are inputs. A failed fetch is an empty list, and an item that is not an `EKReminder` is "not found".
- The EventKit side of `createReminder`, `updateReminder`, `completeReminder`, `incompleteReminder`, `removeReminderTime` and `deleteReminder`: EventKit writes cannot be seen from the model. Only their calls are logged, and only the category-to-due-date mapping is modelled (`ReminderDueDate`).
- The convenience wrappers at CalendarSyncService.swift:409-423 take the event's or reminder's date. They are covered by the date classifier they forward to.
- Persistence: UserDefaults and JSON encoding and decoding of to-dos and settings, and `TimeSettingsStore`. A save is a ghost counter, and the widget's decoded values arrive as options.
- Concurrency: dispatch groups, main-queue hops, serial queues and tasks. Each asynchronous block runs immediately, in program order.
- Calendar semantics: time zones, daylight saving time, the `?? now` and `?? todayStart` fallbacks of `Calendar`, and the `guard let hour/minute` exits that a Gregorian calendar never takes. Days have a fixed length of 86400 seconds.
- All `Date()` readings within one operation are the same `now`.
- `TimeInterval` is whole seconds. `AllTodosExpansionState.heightRatio` is floating point and is not modelled.
- SwiftUI rendering, colours, formatting, drag and drop, `SettingsView.refreshSync`, widget timeline scheduling and WidgetCenter reloads.
- `MoveTodo` keeps the source's behaviour: the reordered copy is discarded, so only the save is observable. `move(fromOffsets:toOffset:)` traps on an out-of-range offset, but the model accepts any `source` and `destination`, because the result is discarded and the trap is the only difference.
- The `TodoItem.swift` record has no `startTime` field, yet the store, the sync passes, the main screen and the widget read and write one. The model's `TodoItem` carries it as an optional.
- In the code, `cleanupOldTodos` returns at its guard whenever the clock has no gaps (`CleanupGuardAlwaysReturns`). Its body is modelled separately with the two boundaries as inputs (`CleanupPastBoundary`), which shows that every deferred item is then deleted by the second pass.
- In the calendar-event variant keyed on `createdAt`, an event without an identifier matches the first item that has no calendar link, because Swift compares two nils as equal. The model keeps this (`FirstEventMatch` takes an optional link).
- Swift's `sorted` promises no order among items the comparator finds equivalent. `SortTodos` fixes one order (insertion sort), and its contract states only sortedness and permutation.
- CalendarEventSync.SyncCalendarEvents: the final store is stated under unique ids and unique links. deleteTodo removes by UUID, so duplicates would make the result depend on the iteration order of a set.
- ReminderSync.SyncReminders: stated under unique ids and unique reminder links, for the same reason.
- CalendarEventSync.ApplyEventsIdempotent: a second run of the loop is proved unchanging only when the usable fetched events carry distinct identifiers. Recurring events sharing one identifier are not covered.
- The callers send `deleteReminder`, `removeReminderTime`, `incompleteReminder` and `completeReminder` to a `CalendarSyncService` (TodoStore.swift:41, 83, 105; TodoRowView.swift:38), but that class declares only `completeReminder`, and all four live on the `ReminderOperations` struct. The model sends all four calls to one logged receiver.
- ReminderSync.ApplyRemindersIdempotent: proved only when the fetched reminders carry distinct identifiers.
- CalendarEventSync.ResyncKeepsItems: the second run is stated to keep the same items, not the same order, because the pruning step is specified by membership only (`PruneState`). Deletions by UUID commute, so the order the set is walked in does not matter; the order of the survivors is simply not stated. It also assumes distinct event identifiers.
- ReminderSync.ResyncKeepsItems: the same items only, and only with distinct reminder identifiers, for the same reasons.
- CalendarSyncService.SyncCalendarEventsTwice: proved only when the events starting inside the window carry distinct identifiers, a missing identifier counting as one value.
- CalendarSyncService.SyncRemindersTwice: proved only when the fetched reminders carry distinct identifiers.
