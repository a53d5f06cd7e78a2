/**
 * The older calendar and reminder service (Services/CalendarSyncService.swift):
 * its own copy of the classifier, the due date it gives a reminder written
 * for a to-do, and its reconciliation passes, which key an item's day on
 * `createdAt` instead of `startTime`. EventKit is replaced by what it
 * answers, as in the newer passes: the events of a window, and the reminders
 * of each reminder calendar in order. The blocks the service hands to the
 * main queue run at once, in order; `Date()` is `now`, and `UUID()` of an
 * added item is `newId` applied to the position of its event or reminder.
 */
module CalendarSyncService {
  import opened Wrappers
  import opened Clock
  import opened TodoItem
  import opened TimeSettings
  import opened EventKitRecords
  import TimeCategoryHelper
  import opened TodoStore
  import opened MainViewHelper
  import CalendarEventSync
  import ReminderSync

  // ---------------------------------------------------------------------
  // The service's classifier and the reminder due date
  // ---------------------------------------------------------------------

  /**
   * The private `getTimeCategory(for: Date, …)`, with each window's two
   * cases written out as the service writes them. It is the classifier of
   * TimeCategoryHelper.
   */
  function ServiceTimeCategory(s: TimeSettings, date: int): (r: Option<TimeCategory>)
    ensures r.Some?
    ensures r == TimeCategoryHelper.GetTimeCategory(s, date)
  {
    var m := MinuteOf(date);
    if (if s.morningStart <= s.morningEnd then m >= s.morningStart && m < s.morningEnd
        else m >= s.morningStart || m < s.morningEnd) then Some(Morning)
    else if (if s.daytimeStart <= s.daytimeEnd then m >= s.daytimeStart && m < s.daytimeEnd
        else m >= s.daytimeStart || m < s.daytimeEnd) then Some(Daytime)
    else if (if s.eveningStart <= s.eveningEnd then m >= s.eveningStart && m < s.eveningEnd
        else m >= s.eveningStart || m < s.eveningEnd) then Some(Evening)
    else if (if s.nightStart <= s.nightEnd then m >= s.nightStart && m < s.nightEnd
        else m >= s.nightStart || m < s.nightEnd) then Some(Night)
    else Some(Daytime)
  }

  /**
   * What is written to a reminder's `dueDateComponents`: a day with an hour
   * and a minute, or a day alone (the instant that starts it).
   */
  datatype DueDate = DueAt(instant: int) | DueOnDay(day: int)

  /**
   * The due date `createReminder` and `updateReminder` give a to-do: the end
   * of its category's window today, the end of the night window tomorrow,
   * and today's date alone when it has no category.
   */
  function ReminderDueDate(category: Option<TimeCategory>, s: TimeSettings, now: int): (r: DueDate)
    ensures category.None? <==> r.DueOnDay?
    ensures r.DueOnDay? ==> r.day == StartOfDay(now)
    ensures r.DueAt? ==> SecondOfDay(r.instant) == WindowEnd(s, category.value) * 60
    ensures r.DueAt? ==> StartOfDay(r.instant) == StartOfDay(now) + if category.value == Night then SecondsPerDay else 0
  {
    var todayStart := StartOfDay(now);
    match category
    case None => DueOnDay(todayStart)
    case Some(Morning) => DueAt(AtMinute(todayStart, s.morningEnd))
    case Some(Daytime) => DueAt(AtMinute(todayStart, s.daytimeEnd))
    case Some(Evening) => DueAt(AtMinute(todayStart, s.eveningEnd))
    case Some(Night) =>
      ShiftByDays(todayStart, 1);
      DueAt(AtMinute(todayStart + SecondsPerDay, s.nightEnd))
  }

  /** The day and the time of day pin the due instant down: no other instant has both. */
  lemma {:induction false} ReminderDueDateUnique(c: TimeCategory, s: TimeSettings, now: int, t: int)
    requires StartOfDay(t) == StartOfDay(now) + (if c == Night then SecondsPerDay else 0)
    requires SecondOfDay(t) == WindowEnd(s, c) * 60
    ensures ReminderDueDate(Some(c), s, now) == DueAt(t)
  {
    var r := ReminderDueDate(Some(c), s, now);
    assert r.instant == StartOfDay(r.instant) + SecondOfDay(r.instant);
    assert t == StartOfDay(t) + SecondOfDay(t);
  }

  /** A timed due date falls on the day after `now`'s for night and on `now`'s day otherwise, so within two days of it. */
  lemma ReminderDueDateNear(c: TimeCategory, s: TimeSettings, now: int)
    ensures var r := ReminderDueDate(Some(c), s, now);
      StartOfDay(now) <= r.instant < StartOfDay(now) + 2 * SecondsPerDay
  {
    var r := ReminderDueDate(Some(c), s, now);
    assert StartOfDay(r.instant) <= r.instant < StartOfDay(r.instant) + SecondsPerDay;
  }

  // ---------------------------------------------------------------------
  // Pruning the synced items created outside the day range
  // ---------------------------------------------------------------------

  /** The two kinds of synced item the service prunes. */
  datatype SyncKind = CalendarLinked | ReminderOnly

  /** Calendar-linked items; reminder-linked items that have no calendar link. */
  predicate SyncedAs(t: TodoItem, kind: SyncKind) {
    match kind
    case CalendarLinked => t.calendarEventIdentifier.Some?
    case ReminderOnly => t.reminderIdentifier.Some? && t.calendarEventIdentifier.None?
  }

  /** `syncedCalendarTodos` / `syncedReminderTodos`: the store's synced items of one kind, in store order. */
  function SyncedTodos(s: seq<TodoItem>, kind: SyncKind): (r: seq<TodoItem>)
    ensures forall t :: t in r <==> t in s && SyncedAs(t, kind)
  {
    if s == [] then []
    else
      assert s == [s[0]] + s[1..];
      (if SyncedAs(s[0], kind) then [s[0]] else []) + SyncedTodos(s[1..], kind)
  }

  /** `createdAt < startDate || createdAt >= endDate`. */
  predicate CreatedOutside(t: TodoItem, range: TimeRange) {
    !Contains(range, t.createdAt)
  }

  /** The store after the pruning loop has visited the first `n` items of the snapshot `synced`. */
  function DeleteStale(s: seq<TodoItem>, synced: seq<TodoItem>, n: nat, range: TimeRange): seq<TodoItem>
    requires n <= |synced|
  {
    if n == 0 then s
    else
      var prev := DeleteStale(s, synced, n - 1, range);
      if CreatedOutside(synced[n - 1], range) then RemoveById(prev, synced[n - 1].id) else prev
  }

  /** One of the first `n` items of `synced` was created outside the range and has UUID `id`. */
  predicate StaleAmong(id: Uuid, synced: seq<TodoItem>, n: nat, range: TimeRange)
    requires n <= |synced|
  {
    n > 0 && ((synced[n - 1].id == id && CreatedOutside(synced[n - 1], range)) || StaleAmong(id, synced, n - 1, range))
  }

  lemma {:induction false} StaleAmongIndex(id: Uuid, synced: seq<TodoItem>, n: nat, range: TimeRange)
    requires n <= |synced|
    ensures StaleAmong(id, synced, n, range) <==>
      exists k :: 0 <= k < n && synced[k].id == id && CreatedOutside(synced[k], range)
  {
    if n > 0 {
      StaleAmongIndex(id, synced, n - 1, range);
    }
  }

  /** An item survives the loop exactly when no stale item of the snapshot shares its UUID. */
  lemma {:induction false} DeleteStaleMember(s: seq<TodoItem>, synced: seq<TodoItem>, n: nat, range: TimeRange, t: TodoItem)
    requires n <= |synced|
    ensures t in DeleteStale(s, synced, n, range) <==> t in s && !StaleAmong(t.id, synced, n, range)
  {
    if n > 0 {
      DeleteStaleMember(s, synced, n - 1, range, t);
    }
  }

  lemma {:induction false} DeleteStaleKeepsUniqueIds(s: seq<TodoItem>, synced: seq<TodoItem>, n: nat, range: TimeRange)
    requires n <= |synced| && UniqueIds(s)
    ensures UniqueIds(DeleteStale(s, synced, n, range))
  {
    if n > 0 {
      DeleteStaleKeepsUniqueIds(s, synced, n - 1, range);
      RemoveByIdKeepsUniqueIds(DeleteStale(s, synced, n - 1, range), synced[n - 1].id);
    }
  }

  /** The store after the whole pruning loop for one kind. */
  function Pruned(s: seq<TodoItem>, kind: SyncKind, range: TimeRange): seq<TodoItem> {
    var synced := SyncedTodos(s, kind);
    DeleteStale(s, synced, |synced|, range)
  }

  /** Every synced item of the kind is created inside the range. */
  predicate SyncedInside(s: seq<TodoItem>, kind: SyncKind, range: TimeRange) {
    forall t :: t in s && SyncedAs(t, kind) ==> Contains(range, t.createdAt)
  }

  /** Pruning leaves no synced item of its kind created outside the range, and brings in nothing. */
  lemma PrunedLeavesInside(s: seq<TodoItem>, kind: SyncKind, range: TimeRange)
    ensures SyncedInside(Pruned(s, kind, range), kind, range)
    ensures forall t :: t in Pruned(s, kind, range) ==> t in s
  {
    var synced := SyncedTodos(s, kind);
    forall t | t in Pruned(s, kind, range) ensures t in s && (SyncedAs(t, kind) ==> Contains(range, t.createdAt)) {
      DeleteStaleMember(s, synced, |synced|, range, t);
      if SyncedAs(t, kind) && CreatedOutside(t, range) {
        var k :| 0 <= k < |synced| && synced[k] == t;
        StaleAmongIndex(t.id, synced, |synced|, range);
      }
    }
  }

  /** With unique UUIDs, pruning deletes exactly the synced items of its kind created outside the range. */
  lemma PrunedKeepsTheRest(s: seq<TodoItem>, kind: SyncKind, range: TimeRange, t: TodoItem)
    requires UniqueIds(s)
    ensures t in Pruned(s, kind, range) <==> t in s && !(SyncedAs(t, kind) && CreatedOutside(t, range))
  {
    var synced := SyncedTodos(s, kind);
    DeleteStaleMember(s, synced, |synced|, range, t);
    StaleAmongIndex(t.id, synced, |synced|, range);
    if t in s && StaleAmong(t.id, synced, |synced|, range) {
      var k :| 0 <= k < |synced| && synced[k].id == t.id && CreatedOutside(synced[k], range);
      assert synced[k] in s;
      if synced[k] != t {
        DistinctMembersDistinctIds(s, synced[k], t);
      }
    }
    if t in s && SyncedAs(t, kind) && CreatedOutside(t, range) {
      var k :| 0 <= k < |synced| && synced[k] == t;
    }
  }

  /** The pruning loop: every synced item of the kind created outside the range is deleted by UUID. */
  method DeleteStaleSynced(todoStore: TodoStore, kind: SyncKind, range: TimeRange)
    modifies todoStore
    ensures todoStore.todos == Pruned(old(todoStore.todos), kind, range)
  {
    ghost var before := todoStore.todos;
    var synced := SyncedTodos(todoStore.todos, kind);
    for i := 0 to |synced|
      invariant todoStore.todos == DeleteStale(before, synced, i, range)
    {
      var todo := synced[i];
      if todo.createdAt < range.startDate || todo.createdAt >= range.endDate {
        todoStore.DeleteTodo(todo);
      }
    }
  }

  // ---------------------------------------------------------------------
  // The event pass
  // ---------------------------------------------------------------------

  /**
   * `todos.first { $0.calendarEventIdentifier == event.eventIdentifier }`,
   * as a position. Both sides are optional, so an event without an
   * identifier matches the first item linked to no event.
   */
  function FirstEventMatch(s: seq<TodoItem>, link: Option<string>): (r: Option<nat>)
    ensures r.Some? ==> r.value < |s| && s[r.value].calendarEventIdentifier == link
    ensures r.Some? ==> forall j :: 0 <= j < r.value ==> s[j].calendarEventIdentifier != link
    ensures r.None? <==> forall j :: 0 <= j < |s| ==> s[j].calendarEventIdentifier != link
  {
    if s == [] then None
    else if s[0].calendarEventIdentifier == link then Some(0)
    else match FirstEventMatch(s[1..], link)
      case None => None
      case Some(k) => Some(k + 1)
  }

  lemma {:induction false} FirstEventMatchAt(s: seq<TodoItem>, link: Option<string>, k: nat)
    requires k < |s| && s[k].calendarEventIdentifier == link
    requires forall j :: 0 <= j < k ==> s[j].calendarEventIdentifier != link
    ensures FirstEventMatch(s, link) == Some(k)
  {
    if k > 0 {
      assert s[0].calendarEventIdentifier != link;
      FirstEventMatchAt(s[1..], link, k - 1);
    }
  }

  /** An event the pass acts on: it starts inside the day range. */
  predicate StartsInside(e: CalendarEvent, range: TimeRange) {
    e.startDate.Some? && Contains(range, e.startDate.value)
  }

  /** The update of a matched item: title, memo, category and `createdAt` follow the event, nothing else changes. */
  function DatedEventUpdate(t: TodoItem, e: CalendarEvent, s: TimeSettings): (r: TodoItem)
    requires e.startDate.Some?
    ensures r.title == e.title && r.memo == e.notes && r.createdAt == e.startDate.value
    ensures r.timeCategory == TimeCategoryHelper.GetTimeCategory(s, e.startDate.value)
    ensures r == t.(title := r.title, memo := r.memo, timeCategory := r.timeCategory, createdAt := r.createdAt)
  {
    t.(title := e.title, memo := e.notes, timeCategory := ServiceTimeCategory(s, e.startDate.value),
      createdAt := e.startDate.value)
  }

  /** The item added for a new event: a must-do, not started, created at the event's start and linked to it. */
  function NewDatedEventTodo(id: Uuid, e: CalendarEvent, s: TimeSettings): (r: TodoItem)
    requires e.startDate.Some?
    ensures r.id == id && r.title == e.title && r.memo == e.notes && r.createdAt == e.startDate.value
    ensures r.kind == MustDo && r.status == NotStarted && r.completedAt.None?
    ensures r.timeCategory == TimeCategoryHelper.GetTimeCategory(s, e.startDate.value)
    ensures r.calendarEventIdentifier == e.eventIdentifier && r.reminderIdentifier.None? && r.startTime.None?
  {
    TodoItem(id, e.title, e.notes, MustDo, ServiceTimeCategory(s, e.startDate.value), NotStarted,
      e.startDate.value, None, None, e.eventIdentifier, None)
  }

  /**
   * The body of the event loop for one event: skipped unless it starts
   * inside the day range; the matched item is updated; otherwise the event
   * is added.
   */
  function ApplyDatedEvent(todos: seq<TodoItem>, e: CalendarEvent, id: Uuid, s: TimeSettings, range: TimeRange): (r: seq<TodoItem>)
    ensures !StartsInside(e, range) ==> r == todos
    ensures StartsInside(e, range) && FirstEventMatch(todos, e.eventIdentifier).Some? ==>
      |r| == |todos| && (UniqueIds(todos) ==>
        var k := FirstEventMatch(todos, e.eventIdentifier).value;
        r == todos[k := DatedEventUpdate(todos[k], e, s)])
    ensures StartsInside(e, range) && FirstEventMatch(todos, e.eventIdentifier).None? ==>
      r == todos + [NewDatedEventTodo(id, e, s)]
  {
    if !StartsInside(e, range) then todos
    else
      match FirstEventMatch(todos, e.eventIdentifier)
      case Some(k) =>
        var updated := DatedEventUpdate(todos[k], e, s);
        if UniqueIds(todos) then ReplaceAt(todos, k, updated); ReplaceById(todos, updated)
        else ReplaceById(todos, updated)
      case None => todos + [NewDatedEventTodo(id, e, s)]
  }

  /** The store after the event loop has run over the first `n` fetched events. */
  function ApplyDatedEvents(todos: seq<TodoItem>, events: seq<CalendarEvent>, n: nat, newId: nat -> Uuid,
      s: TimeSettings, range: TimeRange): seq<TodoItem>
    requires n <= |events|
  {
    if n == 0 then todos
    else ApplyDatedEvent(ApplyDatedEvents(todos, events, n - 1, newId, s, range), events[n - 1], newId(n - 1), s, range)
  }

  /** Replacing an item by one created inside the range keeps every synced item of any kind inside it. */
  lemma UpdateKeepsInside(todos: seq<TodoItem>, k: nat, u: TodoItem, kind: SyncKind, range: TimeRange)
    requires k < |todos| && SyncedInside(todos, kind, range) && Contains(range, u.createdAt)
    ensures SyncedInside(todos[k := u], kind, range)
  {
    forall t | t in todos[k := u] && SyncedAs(t, kind) ensures Contains(range, t.createdAt) {
      var j :| 0 <= j < |todos[k := u]| && todos[k := u][j] == t;
      if j != k {
        assert todos[j] in todos;
      }
    }
  }

  /** Replacing an item by one with the same UUID and event link keeps the sets of UUIDs and of linked events. */
  lemma UpdateKeepsLinks(todos: seq<TodoItem>, k: nat, u: TodoItem)
    requires k < |todos| && u.id == todos[k].id && u.calendarEventIdentifier == todos[k].calendarEventIdentifier
    ensures Ids(todos[k := u]) == Ids(todos)
    ensures CalendarEventSync.LinkedIds(todos[k := u]) == CalendarEventSync.LinkedIds(todos)
  {
    var r := todos[k := u];
    assert forall j :: 0 <= j < |r| ==> r[j].calendarEventIdentifier == todos[j].calendarEventIdentifier;
    assert forall j :: 0 <= j < |r| ==> r[j].id == todos[j].id;
    forall x | x in Ids(todos) ensures x in Ids(r) {
      var t :| t in todos && t.id == x;
      var j :| 0 <= j < |todos| && todos[j] == t;
      assert r[j] in r;
    }
    forall x | x in Ids(r) ensures x in Ids(todos) {
      var t :| t in r && t.id == x;
      var j :| 0 <= j < |r| && r[j] == t;
      assert todos[j] in todos;
    }
    forall x | x in CalendarEventSync.LinkedIds(todos) ensures x in CalendarEventSync.LinkedIds(r) {
      var t :| t in todos && t.calendarEventIdentifier == Some(x);
      var j :| 0 <= j < |todos| && todos[j] == t;
      assert r[j] in r;
    }
    forall x | x in CalendarEventSync.LinkedIds(r) ensures x in CalendarEventSync.LinkedIds(todos) {
      var t :| t in r && t.calendarEventIdentifier == Some(x);
      var j :| 0 <= j < |r| && r[j] == t;
      assert todos[j] in todos;
    }
  }

  /** Appending an item created inside the range keeps every synced item inside it. */
  lemma AppendKeepsInside(todos: seq<TodoItem>, u: TodoItem, kind: SyncKind, range: TimeRange)
    requires SyncedInside(todos, kind, range) && Contains(range, u.createdAt)
    ensures SyncedInside(todos + [u], kind, range)
    ensures CalendarEventSync.LinkedIds(todos + [u]) ==
      CalendarEventSync.LinkedIds(todos) + if u.calendarEventIdentifier.Some? then {u.calendarEventIdentifier.value} else {}
  {
    assert forall t :: t in todos + [u] <==> t in todos || t == u;
  }

  /** One event keeps UUIDs unique and calendar-linked items inside the range, and leaves its own identifier linked. */
  lemma ApplyDatedEventKeepsInside(todos: seq<TodoItem>, e: CalendarEvent, id: Uuid, s: TimeSettings, range: TimeRange)
    requires UniqueIds(todos) && id !in Ids(todos) && SyncedInside(todos, CalendarLinked, range)
    ensures var r := ApplyDatedEvent(todos, e, id, s, range);
      UniqueIds(r) && Ids(r) <= Ids(todos) + {id} &&
      SyncedInside(r, CalendarLinked, range) && CalendarEventSync.LinkedIds(todos) <= CalendarEventSync.LinkedIds(r) &&
      (StartsInside(e, range) && e.eventIdentifier.Some? ==> e.eventIdentifier.value in CalendarEventSync.LinkedIds(r))
  {
    if StartsInside(e, range) {
      match FirstEventMatch(todos, e.eventIdentifier)
      case Some(k) =>
        var u := DatedEventUpdate(todos[k], e, s);
        ReplaceAt(todos, k, u);
        UpdateKeepsInside(todos, k, u, CalendarLinked, range);
        UpdateKeepsLinks(todos, k, u);
        assert todos[k := u][k] in todos[k := u];
      case None =>
        var u := NewDatedEventTodo(id, e, s);
        ReminderSync.AppendKeepsUniqueIds(todos, u);
        AppendKeepsInside(todos, u, CalendarLinked, range);
        assert forall t :: t in todos + [u] <==> t in todos || t == u;
    }
  }

  /** Over the whole loop: UUIDs stay unique, calendar-linked items stay inside the range, and no link is lost. */
  lemma {:induction false} ApplyDatedEventsKeepsInside(todos: seq<TodoItem>, events: seq<CalendarEvent>, n: nat,
      newId: nat -> Uuid, s: TimeSettings, range: TimeRange)
    requires n <= |events| && UniqueIds(todos) && FreshIds(newId, todos, n)
    requires SyncedInside(todos, CalendarLinked, range)
    ensures var r := ApplyDatedEvents(todos, events, n, newId, s, range);
      UniqueIds(r) && Ids(r) <= Ids(todos) + IssuedIds(newId, n) &&
      SyncedInside(r, CalendarLinked, range) && CalendarEventSync.LinkedIds(todos) <= CalendarEventSync.LinkedIds(r)
  {
    if n > 0 {
      var prev := ApplyDatedEvents(todos, events, n - 1, newId, s, range);
      ApplyDatedEventsKeepsInside(todos, events, n - 1, newId, s, range);
      NextIdFresh(newId, todos, n - 1);
      assert UniqueIds(prev) && newId(n - 1) !in Ids(prev) && SyncedInside(prev, CalendarLinked, range);
      ApplyDatedEventKeepsInside(prev, events[n - 1], newId(n - 1), s, range);
    }
  }

  /** Every event with an identifier that starts inside the range is linked once the loop has passed it. */
  lemma {:induction false} DatedEventsLinked(todos: seq<TodoItem>, events: seq<CalendarEvent>, n: nat,
      newId: nat -> Uuid, s: TimeSettings, range: TimeRange, i: nat)
    requires n <= |events| && UniqueIds(todos) && FreshIds(newId, todos, n)
    requires SyncedInside(todos, CalendarLinked, range)
    requires i < n && StartsInside(events[i], range) && events[i].eventIdentifier.Some?
    ensures events[i].eventIdentifier.value in CalendarEventSync.LinkedIds(ApplyDatedEvents(todos, events, n, newId, s, range))
  {
    var prev := ApplyDatedEvents(todos, events, n - 1, newId, s, range);
    ApplyDatedEventsKeepsInside(todos, events, n - 1, newId, s, range);
    NextIdFresh(newId, todos, n - 1);
    assert UniqueIds(prev) && newId(n - 1) !in Ids(prev) && SyncedInside(prev, CalendarLinked, range);
    ApplyDatedEventKeepsInside(prev, events[n - 1], newId(n - 1), s, range);
    if i < n - 1 {
      DatedEventsLinked(todos, events, n - 1, newId, s, range, i);
    }
  }

  /** Applying the same event a second time changes nothing. */
  lemma ApplyDatedEventIdempotent(todos: seq<TodoItem>, e: CalendarEvent, id: Uuid, id': Uuid, s: TimeSettings, range: TimeRange)
    requires UniqueIds(todos) && id !in Ids(todos)
    ensures var r := ApplyDatedEvent(todos, e, id, s, range);
      ApplyDatedEvent(r, e, id', s, range) == r
  {
    if StartsInside(e, range) {
      var r := ApplyDatedEvent(todos, e, id, s, range);
      match FirstEventMatch(todos, e.eventIdentifier)
      case Some(k) =>
        var u := DatedEventUpdate(todos[k], e, s);
        ReplaceAt(todos, k, u);
        forall j | 0 <= j < k ensures r[j].calendarEventIdentifier != e.eventIdentifier {
          assert r[j] == todos[j];
        }
        FirstEventMatchAt(r, e.eventIdentifier, k);
        assert DatedEventUpdate(r[k], e, s) == r[k];
        ReminderSync.UpdateWithSame(r, k);
      case None =>
        var t := NewDatedEventTodo(id, e, s);
        ReminderSync.AppendKeepsUniqueIds(todos, t);
        forall j | 0 <= j < |todos| ensures r[j].calendarEventIdentifier != e.eventIdentifier {
          assert r[j] == todos[j];
        }
        FirstEventMatchAt(r, e.eventIdentifier, |todos|);
        assert DatedEventUpdate(r[|todos|], e, s) == r[|todos|];
        ReminderSync.UpdateWithSame(r, |todos|);
    }
  }

  /**
   * The createdAt-keyed `syncCalendarEvents(to:timeSettings:)`. Nothing
   * happens without full access. Otherwise calendar-linked items created
   * outside the day range are deleted, and then the events of exactly the
   * day range are fetched and reconciled.
   */
  method SyncCalendarEvents(todoStore: TodoStore, timeSettings: TimeSettings, now: int, hasFullAccess: bool,
      eventsMatching: (int, int) -> seq<CalendarEvent>, newId: nat -> Uuid)
    returns (events: seq<CalendarEvent>)
    modifies todoStore
    ensures !hasFullAccess ==> todoStore.todos == old(todoStore.todos) && todoStore.saveCount == old(todoStore.saveCount)
    ensures hasFullAccess ==>
      var range := GetCurrentTimeRange(timeSettings, now);
      events == eventsMatching(range.startDate, range.endDate) &&
      todoStore.todos == ApplyDatedEvents(Pruned(old(todoStore.todos), CalendarLinked, range), events, |events|, newId, timeSettings, range)
  {
    events := [];
    if !hasFullAccess {
      return;
    }
    var dayRange := CalendarEventSync.DayRange(timeSettings, now);
    DeleteStaleSynced(todoStore, CalendarLinked, dayRange);
    events := eventsMatching(dayRange.startDate, dayRange.endDate);
    ghost var before := todoStore.todos;
    for i := 0 to |events|
      invariant todoStore.todos == ApplyDatedEvents(before, events, i, newId, timeSettings, dayRange)
    {
      ReconcileDatedEvent(todoStore, events[i], newId(i), timeSettings, dayRange);
    }
  }

  /** One step of the event loop: the store moves to `ApplyDatedEvent` of the old store. */
  method ReconcileDatedEvent(todoStore: TodoStore, event: CalendarEvent, id: Uuid, timeSettings: TimeSettings, dayRange: TimeRange)
    modifies todoStore
    ensures todoStore.todos == ApplyDatedEvent(old(todoStore.todos), event, id, timeSettings, dayRange)
  {
    if event.startDate.None? {
      return;
    }
    var eventStartDate := event.startDate.value;
    if eventStartDate < dayRange.startDate || eventStartDate >= dayRange.endDate {
      return;
    }
    var timeCategory := ServiceTimeCategory(timeSettings, eventStartDate);
    var existingTodo := FirstEventMatch(todoStore.todos, event.eventIdentifier);
    if existingTodo.Some? {
      var updatedTodo := todoStore.todos[existingTodo.value];
      updatedTodo := updatedTodo.(title := event.title, memo := event.notes, timeCategory := timeCategory, createdAt := eventStartDate);
      todoStore.UpdateTodo(updatedTodo);
    } else {
      var todo := TodoItem(id, event.title, event.notes, MustDo, timeCategory, NotStarted, eventStartDate, None, None,
        event.eventIdentifier, None);
      todoStore.AddTodo(todo);
    }
  }

  /**
   * After the event pass every calendar-linked item was created inside the
   * day range, and every fetched event with an identifier that starts
   * inside it is linked.
   */
  lemma SyncCalendarEventsOutcome(todos: seq<TodoItem>, events: seq<CalendarEvent>, newId: nat -> Uuid, s: TimeSettings, now: int)
    requires UniqueIds(todos) && FreshIds(newId, todos, |events|)
    ensures var range := GetCurrentTimeRange(s, now);
      var r := ApplyDatedEvents(Pruned(todos, CalendarLinked, range), events, |events|, newId, s, range);
      UniqueIds(r) && SyncedInside(r, CalendarLinked, range) &&
      forall i :: 0 <= i < |events| && StartsInside(events[i], range) && events[i].eventIdentifier.Some? ==>
        events[i].eventIdentifier.value in CalendarEventSync.LinkedIds(r)
  {
    var range := GetCurrentTimeRange(s, now);
    var pruned := Pruned(todos, CalendarLinked, range);
    PrunedLeavesInside(todos, CalendarLinked, range);
    var synced := SyncedTodos(todos, CalendarLinked);
    DeleteStaleKeepsUniqueIds(todos, synced, |synced|, range);
    assert Ids(pruned) <= Ids(todos);
    ApplyDatedEventsKeepsInside(pruned, events, |events|, newId, s, range);
    forall i | 0 <= i < |events| && StartsInside(events[i], range) && events[i].eventIdentifier.Some?
      ensures events[i].eventIdentifier.value in CalendarEventSync.LinkedIds(ApplyDatedEvents(pruned, events, |events|, newId, s, range))
    {
      DatedEventsLinked(pruned, events, |events|, newId, s, range, i);
    }
  }

  /** No synced item of the kind was created outside the range, so pruning visits every one and deletes none. */
  lemma {:induction false} DeleteStaleNone(s: seq<TodoItem>, synced: seq<TodoItem>, n: nat, range: TimeRange)
    requires n <= |synced| && forall k :: 0 <= k < n ==> !CreatedOutside(synced[k], range)
    ensures DeleteStale(s, synced, n, range) == s
  {
    if n > 0 {
      DeleteStaleNone(s, synced, n - 1, range);
    }
  }

  /** Pruning a store whose synced items of the kind are all created inside the range changes nothing. */
  lemma PrunedInsideUnchanged(s: seq<TodoItem>, kind: SyncKind, range: TimeRange)
    requires SyncedInside(s, kind, range)
    ensures Pruned(s, kind, range) == s
  {
    var synced := SyncedTodos(s, kind);
    forall k | 0 <= k < |synced| ensures !CreatedOutside(synced[k], range) {
      assert synced[k] in synced;
    }
    DeleteStaleNone(s, synced, |synced|, range);
  }

  /** After pruning: UUIDs stay unique, no new UUID appears, and the synced items of the kind are inside the range. */
  lemma PrunedFacts(s: seq<TodoItem>, kind: SyncKind, range: TimeRange)
    requires UniqueIds(s)
    ensures var p := Pruned(s, kind, range);
      UniqueIds(p) && Ids(p) <= Ids(s) && SyncedInside(p, kind, range)
  {
    PrunedLeavesInside(s, kind, range);
    var synced := SyncedTodos(s, kind);
    DeleteStaleKeepsUniqueIds(s, synced, |synced|, range);
  }

  /** The fetched events the pass acts on carry distinct identifiers; an absent identifier counts as one value. */
  predicate DistinctDatedEventIds(events: seq<CalendarEvent>, range: TimeRange) {
    forall i, j :: 0 <= i < j < |events| && StartsInside(events[i], range) && StartsInside(events[j], range) ==>
      events[i].eventIdentifier != events[j].eventIdentifier
  }

  /** The store already reflects `e`: an event starting inside the range has a matched item that carries its data. */
  predicate DatedEventSettled(todos: seq<TodoItem>, e: CalendarEvent, s: TimeSettings, range: TimeRange) {
    StartsInside(e, range) ==>
      FirstEventMatch(todos, e.eventIdentifier).Some? &&
      var k := FirstEventMatch(todos, e.eventIdentifier).value;
      DatedEventUpdate(todos[k], e, s) == todos[k]
  }

  /** A store settled for `e` is left as it is by the loop body for `e`. */
  lemma DatedEventSettledUnchanged(todos: seq<TodoItem>, e: CalendarEvent, id: Uuid, s: TimeSettings, range: TimeRange)
    requires UniqueIds(todos) && DatedEventSettled(todos, e, s, range)
    ensures ApplyDatedEvent(todos, e, id, s, range) == todos
  {
    if StartsInside(e, range) {
      ReminderSync.UpdateWithSame(todos, FirstEventMatch(todos, e.eventIdentifier).value);
    }
  }

  /** Two stores that match `link` at the same positions, the longer one nowhere past the shorter, match it at the same place. */
  lemma FirstEventMatchAgree(s: seq<TodoItem>, s': seq<TodoItem>, link: Option<string>)
    requires |s| <= |s'|
    requires forall j :: 0 <= j < |s| ==> (s[j].calendarEventIdentifier == link <==> s'[j].calendarEventIdentifier == link)
    requires forall j :: |s| <= j < |s'| ==> s'[j].calendarEventIdentifier != link
    ensures FirstEventMatch(s', link) == FirstEventMatch(s, link)
  {
    match FirstEventMatch(s, link)
    case Some(k) =>
      var k' := FirstEventMatch(s', link).value;
      assert k' == k;
    case None =>
  }

  /** The loop body for another event keeps the store settled for `e`. */
  lemma DatedEventSettledAfterOther(todos: seq<TodoItem>, e: CalendarEvent, f: CalendarEvent, id: Uuid, s: TimeSettings, range: TimeRange)
    requires UniqueIds(todos) && DatedEventSettled(todos, e, s, range)
    requires StartsInside(e, range) && StartsInside(f, range) ==> e.eventIdentifier != f.eventIdentifier
    ensures DatedEventSettled(ApplyDatedEvent(todos, f, id, s, range), e, s, range)
  {
    if StartsInside(e, range) && StartsInside(f, range) {
      var r := ApplyDatedEvent(todos, f, id, s, range);
      match FirstEventMatch(todos, f.eventIdentifier)
      case Some(kf) =>
        FirstEventMatchAgree(todos, r, e.eventIdentifier);
      case None =>
        FirstEventMatchAgree(todos, r, e.eventIdentifier);
    }
  }

  /** The loop body for `e` leaves the store settled for `e`. */
  lemma DatedEventSettledAfterSame(todos: seq<TodoItem>, e: CalendarEvent, id: Uuid, s: TimeSettings, range: TimeRange)
    requires UniqueIds(todos)
    ensures DatedEventSettled(ApplyDatedEvent(todos, e, id, s, range), e, s, range)
  {
    if StartsInside(e, range) {
      var r := ApplyDatedEvent(todos, e, id, s, range);
      match FirstEventMatch(todos, e.eventIdentifier)
      case Some(k) =>
        forall j | 0 <= j < k ensures r[j].calendarEventIdentifier != e.eventIdentifier {
          assert r[j] == todos[j];
        }
        FirstEventMatchAt(r, e.eventIdentifier, k);
        assert DatedEventUpdate(r[k], e, s) == r[k];
      case None =>
        forall j | 0 <= j < |todos| ensures r[j].calendarEventIdentifier != e.eventIdentifier {
          assert r[j] == todos[j];
        }
        FirstEventMatchAt(r, e.eventIdentifier, |todos|);
        assert DatedEventUpdate(r[|todos|], e, s) == r[|todos|];
    }
  }

  /** After the loop over the first `n` events, the store is settled for each of them. */
  lemma {:induction false} ApplyDatedEventsSettled(todos: seq<TodoItem>, events: seq<CalendarEvent>, n: nat,
      newId: nat -> Uuid, s: TimeSettings, range: TimeRange, i: nat)
    requires n <= |events| && UniqueIds(todos) && FreshIds(newId, todos, n) && SyncedInside(todos, CalendarLinked, range)
    requires DistinctDatedEventIds(events, range) && i < n
    ensures DatedEventSettled(ApplyDatedEvents(todos, events, n, newId, s, range), events[i], s, range)
  {
    var prev := ApplyDatedEvents(todos, events, n - 1, newId, s, range);
    ApplyDatedEventsKeepsInside(todos, events, n - 1, newId, s, range);
    assert UniqueIds(prev);
    if i < n - 1 {
      ApplyDatedEventsSettled(todos, events, n - 1, newId, s, range, i);
      DatedEventSettledAfterOther(prev, events[i], events[n - 1], newId(n - 1), s, range);
    } else {
      DatedEventSettledAfterSame(prev, events[n - 1], newId(n - 1), s, range);
    }
  }

  /** A store settled for the first `n` events goes through the loop over them unchanged. */
  lemma {:induction false} ReapplyDatedEventsSettled(todos: seq<TodoItem>, events: seq<CalendarEvent>, n: nat,
      newId: nat -> Uuid, s: TimeSettings, range: TimeRange)
    requires n <= |events| && UniqueIds(todos)
    requires forall i :: 0 <= i < n ==> DatedEventSettled(todos, events[i], s, range)
    ensures ApplyDatedEvents(todos, events, n, newId, s, range) == todos
  {
    if n > 0 {
      ReapplyDatedEventsSettled(todos, events, n - 1, newId, s, range);
      DatedEventSettledUnchanged(todos, events[n - 1], newId(n - 1), s, range);
    }
  }

  /** Running the event loop a second time over the same fetch changes nothing, whatever UUIDs the second run uses. */
  lemma ApplyDatedEventsIdempotent(todos: seq<TodoItem>, events: seq<CalendarEvent>, n: nat,
      newId: nat -> Uuid, newId': nat -> Uuid, s: TimeSettings, range: TimeRange)
    requires n <= |events| && UniqueIds(todos) && FreshIds(newId, todos, n) && SyncedInside(todos, CalendarLinked, range)
    requires DistinctDatedEventIds(events, range)
    ensures var r := ApplyDatedEvents(todos, events, n, newId, s, range);
      ApplyDatedEvents(r, events, n, newId', s, range) == r
  {
    var r := ApplyDatedEvents(todos, events, n, newId, s, range);
    ApplyDatedEventsKeepsInside(todos, events, n, newId, s, range);
    forall i | 0 <= i < n ensures DatedEventSettled(r, events[i], s, range) {
      ApplyDatedEventsSettled(todos, events, n, newId, s, range, i);
    }
    ReapplyDatedEventsSettled(r, events, n, newId', s, range);
  }

  /**
   * A second `syncCalendarEvents` with the same fetch, at a moment with the
   * same day range, leaves the store exactly as the first run left it: the
   * pruning finds nothing to delete and every event its item up to date.
   */
  lemma SyncCalendarEventsTwice(todos: seq<TodoItem>, events: seq<CalendarEvent>, newId: nat -> Uuid, newId': nat -> Uuid,
      s: TimeSettings, now: int, now': int)
    requires UniqueIds(todos) && FreshIds(newId, todos, |events|)
    requires GetCurrentTimeRange(s, now') == GetCurrentTimeRange(s, now)
    requires DistinctDatedEventIds(events, GetCurrentTimeRange(s, now))
    ensures var range := GetCurrentTimeRange(s, now);
      var once := ApplyDatedEvents(Pruned(todos, CalendarLinked, range), events, |events|, newId, s, range);
      var range' := GetCurrentTimeRange(s, now');
      ApplyDatedEvents(Pruned(once, CalendarLinked, range'), events, |events|, newId', s, range') == once
  {
    var range := GetCurrentTimeRange(s, now);
    var pruned := Pruned(todos, CalendarLinked, range);
    var once := ApplyDatedEvents(pruned, events, |events|, newId, s, range);
    PrunedFacts(todos, CalendarLinked, range);
    ApplyDatedEventsKeepsInside(pruned, events, |events|, newId, s, range);
    PrunedInsideUnchanged(once, CalendarLinked, range);
    ApplyDatedEventsIdempotent(pruned, events, |events|, newId, newId', s, range);
  }

  // ---------------------------------------------------------------------
  // The reminder pass
  // ---------------------------------------------------------------------

  /** A reminder the pass acts on: it has a due date inside the day range. */
  predicate DueInside(r: Reminder, range: TimeRange) {
    r.dueDate.Some? && Contains(range, r.dueDate.value)
  }

  /** The reminder identifiers the store links to. */
  function ReminderLinkIds(s: seq<TodoItem>): set<string> {
    set t | t in s && t.reminderIdentifier.Some? :: t.reminderIdentifier.value
  }

  /** The update of a linked item: title, memo, category, `createdAt` at the due date, and the completion mirror. */
  function DatedReminderUpdate(t: TodoItem, r: Reminder, s: TimeSettings, now: int): (u: TodoItem)
    requires r.dueDate.Some?
    ensures u.title == r.title && u.memo == r.notes && u.createdAt == r.dueDate.value
    ensures u.timeCategory == TimeCategoryHelper.GetTimeCategory(s, r.dueDate.value)
    ensures u == ReminderSync.Mirror(t, r.isCompleted, now).(title := r.title, memo := r.notes,
      timeCategory := u.timeCategory, createdAt := u.createdAt)
  {
    ReminderSync.Mirror(t.(title := r.title, memo := r.notes, timeCategory := ServiceTimeCategory(s, r.dueDate.value),
      createdAt := r.dueDate.value), r.isCompleted, now)
  }

  /** The item added for a new reminder: a must-do, not started, created at the due date and linked to it only. */
  function NewDatedReminderTodo(id: Uuid, r: Reminder, s: TimeSettings): (t: TodoItem)
    requires r.dueDate.Some?
    ensures t.id == id && t.title == r.title && t.memo == r.notes && t.createdAt == r.dueDate.value
    ensures t.kind == MustDo && t.status == NotStarted && CompletionConsistent(t)
    ensures t.timeCategory == TimeCategoryHelper.GetTimeCategory(s, r.dueDate.value) && t.startTime.None?
    ensures t.reminderIdentifier == Some(r.calendarItemIdentifier) && SyncedAs(t, ReminderOnly)
  {
    TodoItem(id, r.title, r.notes, MustDo, ServiceTimeCategory(s, r.dueDate.value), NotStarted, r.dueDate.value, None,
      Some(r.calendarItemIdentifier), None, None)
  }

  /**
   * The body of the reminder loop for one reminder: skipped unless it is due
   * inside the day range; the linked item is updated; otherwise the
   * reminder is added unless it is already completed.
   */
  function ApplyDatedReminder(todos: seq<TodoItem>, r: Reminder, id: Uuid, s: TimeSettings, range: TimeRange, now: int): (res: seq<TodoItem>)
    ensures !DueInside(r, range) ==> res == todos
    ensures DueInside(r, range) && ReminderSync.FirstReminderLinked(todos, r.calendarItemIdentifier).Some? ==>
      |res| == |todos| && (UniqueIds(todos) ==>
        var k := ReminderSync.FirstReminderLinked(todos, r.calendarItemIdentifier).value;
        res == todos[k := DatedReminderUpdate(todos[k], r, s, now)])
    ensures DueInside(r, range) && ReminderSync.FirstReminderLinked(todos, r.calendarItemIdentifier).None? ==>
      res == if r.isCompleted then todos else todos + [NewDatedReminderTodo(id, r, s)]
  {
    if !DueInside(r, range) then todos
    else
      match ReminderSync.FirstReminderLinked(todos, r.calendarItemIdentifier)
      case Some(k) =>
        var updated := DatedReminderUpdate(todos[k], r, s, now);
        if UniqueIds(todos) then ReplaceAt(todos, k, updated); ReplaceById(todos, updated)
        else ReplaceById(todos, updated)
      case None => if r.isCompleted then todos else todos + [NewDatedReminderTodo(id, r, s)]
  }

  /** The store after the reminder loop has run over `rs`, every calendar's reminders one after another. */
  function ApplyDatedReminders(todos: seq<TodoItem>, rs: seq<Reminder>, newId: nat -> Uuid, s: TimeSettings, range: TimeRange, now: int): seq<TodoItem>
  {
    if rs == [] then todos
    else ApplyDatedReminder(ApplyDatedReminders(todos, rs[..|rs| - 1], newId, s, range, now), rs[|rs| - 1], newId(|rs| - 1), s, range, now)
  }

  /** One more reminder at the end is one more step of the loop. */
  lemma ApplyDatedRemindersSnoc(todos: seq<TodoItem>, rs: seq<Reminder>, r: Reminder, newId: nat -> Uuid,
      s: TimeSettings, range: TimeRange, now: int)
    ensures ApplyDatedReminders(todos, rs + [r], newId, s, range, now) ==
      ApplyDatedReminder(ApplyDatedReminders(todos, rs, newId, s, range, now), r, newId(|rs|), s, range, now)
  {
    assert (rs + [r])[..|rs|] == rs;
  }

  /** Replacing an item by one with the same UUID and reminder link keeps the sets of UUIDs and of linked reminders. */
  lemma UpdateKeepsReminderLinks(todos: seq<TodoItem>, k: nat, u: TodoItem)
    requires k < |todos| && u.id == todos[k].id && u.reminderIdentifier == todos[k].reminderIdentifier
    ensures Ids(todos[k := u]) == Ids(todos)
    ensures ReminderLinkIds(todos[k := u]) == ReminderLinkIds(todos)
  {
    var r := todos[k := u];
    assert forall j :: 0 <= j < |r| ==> r[j].reminderIdentifier == todos[j].reminderIdentifier;
    assert forall j :: 0 <= j < |r| ==> r[j].id == todos[j].id;
    forall x | x in Ids(todos) ensures x in Ids(r) {
      var t :| t in todos && t.id == x;
      var j :| 0 <= j < |todos| && todos[j] == t;
      assert r[j] in r;
    }
    forall x | x in Ids(r) ensures x in Ids(todos) {
      var t :| t in r && t.id == x;
      var j :| 0 <= j < |r| && r[j] == t;
      assert todos[j] in todos;
    }
    forall x | x in ReminderLinkIds(todos) ensures x in ReminderLinkIds(r) {
      var t :| t in todos && t.reminderIdentifier == Some(x);
      var j :| 0 <= j < |todos| && todos[j] == t;
      assert r[j] in r;
    }
    forall x | x in ReminderLinkIds(r) ensures x in ReminderLinkIds(todos) {
      var t :| t in r && t.reminderIdentifier == Some(x);
      var j :| 0 <= j < |r| && r[j] == t;
      assert todos[j] in todos;
    }
  }

  /** One reminder keeps UUIDs unique and reminder-only items inside the range; a pending reminder due inside ends up linked. */
  lemma ApplyDatedReminderKeepsInside(todos: seq<TodoItem>, r: Reminder, id: Uuid, s: TimeSettings, range: TimeRange, now: int)
    requires UniqueIds(todos) && id !in Ids(todos) && SyncedInside(todos, ReminderOnly, range)
    ensures var res := ApplyDatedReminder(todos, r, id, s, range, now);
      UniqueIds(res) && Ids(res) <= Ids(todos) + {id} &&
      SyncedInside(res, ReminderOnly, range) && ReminderLinkIds(todos) <= ReminderLinkIds(res) &&
      (DueInside(r, range) && !r.isCompleted ==> r.calendarItemIdentifier in ReminderLinkIds(res))
  {
    if DueInside(r, range) {
      match ReminderSync.FirstReminderLinked(todos, r.calendarItemIdentifier)
      case Some(k) =>
        var u := DatedReminderUpdate(todos[k], r, s, now);
        ReplaceAt(todos, k, u);
        UpdateKeepsInside(todos, k, u, ReminderOnly, range);
        UpdateKeepsReminderLinks(todos, k, u);
        assert todos[k := u][k] in todos[k := u];
      case None =>
        if !r.isCompleted {
          var u := NewDatedReminderTodo(id, r, s);
          ReminderSync.AppendKeepsUniqueIds(todos, u);
          AppendKeepsInside(todos, u, ReminderOnly, range);
          assert forall t :: t in todos + [u] <==> t in todos || t == u;
        }
    }
  }

  /** Over the whole loop: reminder-only items stay inside the range, and every pending reminder due inside it ends up linked. */
  lemma {:induction false} ApplyDatedRemindersKeepsInside(todos: seq<TodoItem>, rs: seq<Reminder>, newId: nat -> Uuid,
      s: TimeSettings, range: TimeRange, now: int)
    requires UniqueIds(todos) && FreshIds(newId, todos, |rs|) && SyncedInside(todos, ReminderOnly, range)
    ensures var res := ApplyDatedReminders(todos, rs, newId, s, range, now);
      UniqueIds(res) && Ids(res) <= Ids(todos) + IssuedIds(newId, |rs|) &&
      SyncedInside(res, ReminderOnly, range) && ReminderLinkIds(todos) <= ReminderLinkIds(res) &&
      forall i :: 0 <= i < |rs| && DueInside(rs[i], range) && !rs[i].isCompleted ==> rs[i].calendarItemIdentifier in ReminderLinkIds(res)
  {
    if rs != [] {
      var init := rs[..|rs| - 1];
      var prev := ApplyDatedReminders(todos, init, newId, s, range, now);
      ApplyDatedRemindersKeepsInside(todos, init, newId, s, range, now);
      NextIdFresh(newId, todos, |rs| - 1);
      assert UniqueIds(prev) && newId(|rs| - 1) !in Ids(prev) && SyncedInside(prev, ReminderOnly, range);
      ApplyDatedReminderKeepsInside(prev, rs[|rs| - 1], newId(|rs| - 1), s, range, now);
      assert forall i :: 0 <= i < |init| ==> init[i] == rs[i];
    }
  }

  /** Applying the same reminder a second time changes nothing. */
  lemma ApplyDatedReminderIdempotent(todos: seq<TodoItem>, r: Reminder, id: Uuid, id': Uuid, s: TimeSettings, range: TimeRange, now: int, now': int)
    requires UniqueIds(todos) && id !in Ids(todos)
    ensures var res := ApplyDatedReminder(todos, r, id, s, range, now);
      ApplyDatedReminder(res, r, id', s, range, now') == res
  {
    if DueInside(r, range) {
      var rid := r.calendarItemIdentifier;
      var res := ApplyDatedReminder(todos, r, id, s, range, now);
      match ReminderSync.FirstReminderLinked(todos, rid)
      case Some(k) =>
        var u := DatedReminderUpdate(todos[k], r, s, now);
        ReplaceAt(todos, k, u);
        ReminderSync.SameLinkStaysFirst(todos, k, u, rid);
        ReminderSync.MirrorIdempotent(todos[k].(title := r.title, memo := r.notes, timeCategory := u.timeCategory,
          createdAt := u.createdAt), r.isCompleted, now, now');
        assert DatedReminderUpdate(res[k], r, s, now') == res[k];
        ReminderSync.UpdateWithSame(res, k);
      case None =>
        if !r.isCompleted {
          var t := NewDatedReminderTodo(id, r, s);
          ReminderSync.AppendKeepsUniqueIds(todos, t);
          ReminderSync.AppendedIsFirst(todos, t, rid);
          assert DatedReminderUpdate(res[|todos|], r, s, now') == res[|todos|];
          ReminderSync.UpdateWithSame(res, |todos|);
        }
    }
  }

  /** The body of the reminder loop for one fetched reminder. */
  method ReconcileDatedReminder(todoStore: TodoStore, reminder: Reminder, id: Uuid, timeSettings: TimeSettings, range: TimeRange, now: int)
    modifies todoStore
    ensures todoStore.todos == ApplyDatedReminder(old(todoStore.todos), reminder, id, timeSettings, range, now)
  {
    if reminder.dueDate.None? {
      return;
    }
    var dueDate := reminder.dueDate.value;
    if dueDate < range.startDate || dueDate >= range.endDate {
      return;
    }
    var timeCategory := ServiceTimeCategory(timeSettings, dueDate);
    var reminderIdentifier := reminder.calendarItemIdentifier;
    var existingTodo := ReminderSync.FirstReminderLinked(todoStore.todos, reminderIdentifier);
    if existingTodo.Some? {
      var updatedTodo := todoStore.todos[existingTodo.value];
      updatedTodo := updatedTodo.(title := reminder.title, memo := reminder.notes, timeCategory := timeCategory, createdAt := dueDate);
      if reminder.isCompleted && updatedTodo.status != Completed {
        updatedTodo := updatedTodo.(status := Completed, completedAt := Some(now));
      } else if !reminder.isCompleted && updatedTodo.status == Completed {
        updatedTodo := updatedTodo.(status := NotStarted, completedAt := None);
      }
      todoStore.UpdateTodo(updatedTodo);
    } else if !reminder.isCompleted {
      var todo := TodoItem(id, reminder.title, reminder.notes, MustDo, timeCategory, NotStarted, dueDate, None,
        Some(reminderIdentifier), None, None);
      todoStore.AddTodo(todo);
    }
  }

  /** The reminder loop over one calendar's reminders, which follow the `processed` ones. */
  method ReconcileDatedCalendar(todoStore: TodoStore, reminders: seq<Reminder>, position: nat,
      newId: nat -> Uuid, timeSettings: TimeSettings, range: TimeRange, now: int,
      ghost before: seq<TodoItem>, ghost processed: seq<Reminder>)
    requires position == |processed|
    requires todoStore.todos == ApplyDatedReminders(before, processed, newId, timeSettings, range, now)
    modifies todoStore
    ensures todoStore.todos == ApplyDatedReminders(before, processed + reminders, newId, timeSettings, range, now)
  {
    assert processed + reminders[..0] == processed;
    for i := 0 to |reminders|
      invariant todoStore.todos == ApplyDatedReminders(before, processed + reminders[..i], newId, timeSettings, range, now)
    {
      var reminder := reminders[i];
      ReminderSync.SliceExtend(reminders, i);
      ghost var earlier := processed + reminders[..i];
      ghost var later := processed + reminders[..i + 1];
      assert later == earlier + [reminder];
      ApplyDatedRemindersSnoc(before, earlier, reminder, newId, timeSettings, range, now);
      ReconcileDatedReminder(todoStore, reminder, newId(position + i), timeSettings, range, now);
    }
    assert reminders[..|reminders|] == reminders;
  }

  /**
   * The createdAt-keyed `syncReminders(to:timeSettings:)`. Nothing happens
   * without full access. Otherwise reminder-linked items without a calendar
   * link that were created outside the day range are deleted, and then
   * every calendar's reminders are reconciled in turn.
   */
  method SyncReminders(todoStore: TodoStore, timeSettings: TimeSettings, now: int, hasFullAccess: bool,
      calendars: seq<seq<Reminder>>, newId: nat -> Uuid)
    modifies todoStore
    ensures !hasFullAccess ==> todoStore.todos == old(todoStore.todos) && todoStore.saveCount == old(todoStore.saveCount)
    ensures hasFullAccess ==>
      var range := GetCurrentTimeRange(timeSettings, now);
      todoStore.todos == ApplyDatedReminders(Pruned(old(todoStore.todos), ReminderOnly, range), ReminderSync.Flatten(calendars),
        newId, timeSettings, range, now)
  {
    if !hasFullAccess {
      return;
    }
    var dayRange := CalendarEventSync.DayRange(timeSettings, now);
    DeleteStaleSynced(todoStore, ReminderOnly, dayRange);
    ghost var before := todoStore.todos;
    ghost var processed: seq<Reminder> := [];
    var position := 0;
    for c := 0 to |calendars|
      invariant processed == ReminderSync.Flatten(calendars[..c]) && position == |processed|
      invariant todoStore.todos == ApplyDatedReminders(before, processed, newId, timeSettings, dayRange, now)
    {
      ReconcileDatedCalendar(todoStore, calendars[c], position, newId, timeSettings, dayRange, now, before, processed);
      position := position + |calendars[c]|;
      processed := processed + calendars[c];
      ReminderSync.SliceOfSlice(calendars, c);
    }
    assert calendars[..|calendars|] == calendars;
  }

  /**
   * After the reminder pass every reminder-linked item without a calendar
   * link was created inside the day range, and every reminder due inside it
   * that is not completed is linked.
   */
  lemma SyncRemindersOutcome(todos: seq<TodoItem>, calendars: seq<seq<Reminder>>, newId: nat -> Uuid, s: TimeSettings, now: int)
    requires UniqueIds(todos) && FreshIds(newId, todos, |ReminderSync.Flatten(calendars)|)
    ensures var range := GetCurrentTimeRange(s, now);
      var rs := ReminderSync.Flatten(calendars);
      var res := ApplyDatedReminders(Pruned(todos, ReminderOnly, range), rs, newId, s, range, now);
      UniqueIds(res) && SyncedInside(res, ReminderOnly, range) &&
      forall i :: 0 <= i < |rs| && DueInside(rs[i], range) && !rs[i].isCompleted ==> rs[i].calendarItemIdentifier in ReminderLinkIds(res)
  {
    var range := GetCurrentTimeRange(s, now);
    var pruned := Pruned(todos, ReminderOnly, range);
    PrunedLeavesInside(todos, ReminderOnly, range);
    var synced := SyncedTodos(todos, ReminderOnly);
    DeleteStaleKeepsUniqueIds(todos, synced, |synced|, range);
    assert Ids(pruned) <= Ids(todos);
    ApplyDatedRemindersKeepsInside(pruned, ReminderSync.Flatten(calendars), newId, s, range, now);
  }

  /** The store already reflects `r` at time `now`: a reminder due inside the range has its linked item up to date, or is completed and unlinked. */
  predicate DatedReminderSettled(todos: seq<TodoItem>, r: Reminder, s: TimeSettings, range: TimeRange, now: int) {
    DueInside(r, range) ==>
      match ReminderSync.FirstReminderLinked(todos, r.calendarItemIdentifier)
      case Some(k) => DatedReminderUpdate(todos[k], r, s, now) == todos[k]
      case None => r.isCompleted
  }

  /** A store settled for `r` is left as it is by the loop body for `r`. */
  lemma DatedReminderSettledUnchanged(todos: seq<TodoItem>, r: Reminder, id: Uuid, s: TimeSettings, range: TimeRange, now: int)
    requires UniqueIds(todos) && DatedReminderSettled(todos, r, s, range, now)
    ensures ApplyDatedReminder(todos, r, id, s, range, now) == todos
  {
    if DueInside(r, range) {
      match ReminderSync.FirstReminderLinked(todos, r.calendarItemIdentifier)
      case Some(k) =>
        ReminderSync.UpdateWithSame(todos, k);
      case None =>
    }
  }

  /** The loop body for another reminder keeps the store settled for `r`. */
  lemma DatedReminderSettledAfterOther(todos: seq<TodoItem>, r: Reminder, f: Reminder, id: Uuid, s: TimeSettings,
      range: TimeRange, now: int, now': int)
    requires UniqueIds(todos) && DatedReminderSettled(todos, r, s, range, now')
    requires r.calendarItemIdentifier != f.calendarItemIdentifier
    ensures DatedReminderSettled(ApplyDatedReminder(todos, f, id, s, range, now), r, s, range, now')
  {
    if DueInside(r, range) && DueInside(f, range) {
      var res := ApplyDatedReminder(todos, f, id, s, range, now);
      match ReminderSync.FirstReminderLinked(todos, f.calendarItemIdentifier)
      case Some(kf) =>
        ReminderSync.FirstReminderLinkedUpdate(todos, kf, DatedReminderUpdate(todos[kf], f, s, now), r.calendarItemIdentifier);
      case None =>
        ReminderSync.FirstReminderLinkedAppend(todos, NewDatedReminderTodo(id, f, s), r.calendarItemIdentifier);
    }
  }

  /** The loop body for `r` leaves the store settled for `r`, whenever the next run happens. */
  lemma DatedReminderSettledAfterSame(todos: seq<TodoItem>, r: Reminder, id: Uuid, s: TimeSettings, range: TimeRange, now: int, now': int)
    requires UniqueIds(todos)
    ensures DatedReminderSettled(ApplyDatedReminder(todos, r, id, s, range, now), r, s, range, now')
  {
    if DueInside(r, range) {
      var rid := r.calendarItemIdentifier;
      var res := ApplyDatedReminder(todos, r, id, s, range, now);
      match ReminderSync.FirstReminderLinked(todos, rid)
      case Some(k) =>
        var u := DatedReminderUpdate(todos[k], r, s, now);
        ReminderSync.SameLinkStaysFirst(todos, k, u, rid);
        ReminderSync.MirrorIdempotent(todos[k].(title := r.title, memo := r.notes, timeCategory := u.timeCategory,
          createdAt := u.createdAt), r.isCompleted, now, now');
        assert DatedReminderUpdate(res[k], r, s, now') == res[k];
      case None =>
        if !r.isCompleted {
          var t := NewDatedReminderTodo(id, r, s);
          ReminderSync.AppendedIsFirst(todos, t, rid);
          assert DatedReminderUpdate(res[|todos|], r, s, now') == res[|todos|];
        }
    }
  }

  /** Before the last step of the loop the store still has unique UUIDs and reminder-only items inside the range, and the next UUID is fresh. */
  lemma ApplyDatedRemindersBeforeLast(todos: seq<TodoItem>, rs: seq<Reminder>, newId: nat -> Uuid, s: TimeSettings, range: TimeRange, now: int)
    requires rs != [] && UniqueIds(todos) && FreshIds(newId, todos, |rs|) && SyncedInside(todos, ReminderOnly, range)
    ensures var prev := ApplyDatedReminders(todos, rs[..|rs| - 1], newId, s, range, now);
      UniqueIds(prev) && newId(|rs| - 1) !in Ids(prev) && FreshIds(newId, todos, |rs| - 1)
  {
    ApplyDatedRemindersKeepsInside(todos, rs[..|rs| - 1], newId, s, range, now);
    NextIdFresh(newId, todos, |rs| - 1);
  }

  /** After the loop over `rs`, the store is settled for each of them, whenever the next run happens. */
  lemma {:induction false} ApplyDatedRemindersSettled(todos: seq<TodoItem>, rs: seq<Reminder>, newId: nat -> Uuid,
      s: TimeSettings, range: TimeRange, now: int, now': int, i: nat)
    requires UniqueIds(todos) && FreshIds(newId, todos, |rs|) && SyncedInside(todos, ReminderOnly, range)
    requires ReminderSync.DistinctReminderIds(rs) && i < |rs|
    ensures DatedReminderSettled(ApplyDatedReminders(todos, rs, newId, s, range, now), rs[i], s, range, now')
  {
    var init := rs[..|rs| - 1];
    var last := rs[|rs| - 1];
    var prev := ApplyDatedReminders(todos, init, newId, s, range, now);
    ApplyDatedRemindersBeforeLast(todos, rs, newId, s, range, now);
    if i < |rs| - 1 {
      assert init[i] == rs[i];
      ReminderSync.DistinctReminderIdsInit(rs);
      ApplyDatedRemindersSettled(todos, init, newId, s, range, now, now', i);
      DatedReminderSettledAfterOther(prev, rs[i], last, newId(|rs| - 1), s, range, now, now');
    } else {
      DatedReminderSettledAfterSame(prev, last, newId(|rs| - 1), s, range, now, now');
    }
  }

  /** A store settled for every reminder of `rs` goes through the loop over them unchanged. */
  lemma {:induction false} ReapplyDatedRemindersSettled(todos: seq<TodoItem>, rs: seq<Reminder>, newId: nat -> Uuid,
      s: TimeSettings, range: TimeRange, now: int)
    requires UniqueIds(todos)
    requires forall i :: 0 <= i < |rs| ==> DatedReminderSettled(todos, rs[i], s, range, now)
    ensures ApplyDatedReminders(todos, rs, newId, s, range, now) == todos
  {
    if rs != [] {
      var init := rs[..|rs| - 1];
      forall i | 0 <= i < |init| ensures DatedReminderSettled(todos, init[i], s, range, now) {
        assert init[i] == rs[i];
      }
      ReapplyDatedRemindersSettled(todos, init, newId, s, range, now);
      DatedReminderSettledUnchanged(todos, rs[|rs| - 1], newId(|rs| - 1), s, range, now);
    }
  }

  /** Running the reminder loop a second time over the same fetch changes nothing, whatever UUIDs and clock the second run uses. */
  lemma ApplyDatedRemindersIdempotent(todos: seq<TodoItem>, rs: seq<Reminder>, newId: nat -> Uuid, newId': nat -> Uuid,
      s: TimeSettings, range: TimeRange, now: int, now': int)
    requires UniqueIds(todos) && FreshIds(newId, todos, |rs|) && SyncedInside(todos, ReminderOnly, range)
    requires ReminderSync.DistinctReminderIds(rs)
    ensures var res := ApplyDatedReminders(todos, rs, newId, s, range, now);
      ApplyDatedReminders(res, rs, newId', s, range, now') == res
  {
    var res := ApplyDatedReminders(todos, rs, newId, s, range, now);
    ApplyDatedRemindersKeepsInside(todos, rs, newId, s, range, now);
    forall i | 0 <= i < |rs| ensures DatedReminderSettled(res, rs[i], s, range, now') {
      ApplyDatedRemindersSettled(todos, rs, newId, s, range, now, now', i);
    }
    ReapplyDatedRemindersSettled(res, rs, newId', s, range, now');
  }

  /**
   * A second `syncReminders` with the same reminder calendars, at a moment
   * with the same day range, leaves the store exactly as the first run left it.
   */
  lemma SyncRemindersTwice(todos: seq<TodoItem>, calendars: seq<seq<Reminder>>, newId: nat -> Uuid, newId': nat -> Uuid,
      s: TimeSettings, now: int, now': int)
    requires UniqueIds(todos) && FreshIds(newId, todos, |ReminderSync.Flatten(calendars)|)
    requires GetCurrentTimeRange(s, now') == GetCurrentTimeRange(s, now)
    requires ReminderSync.DistinctReminderIds(ReminderSync.Flatten(calendars))
    ensures var range := GetCurrentTimeRange(s, now);
      var rs := ReminderSync.Flatten(calendars);
      var once := ApplyDatedReminders(Pruned(todos, ReminderOnly, range), rs, newId, s, range, now);
      var range' := GetCurrentTimeRange(s, now');
      ApplyDatedReminders(Pruned(once, ReminderOnly, range'), rs, newId', s, range', now') == once
  {
    var range := GetCurrentTimeRange(s, now);
    var rs := ReminderSync.Flatten(calendars);
    var pruned := Pruned(todos, ReminderOnly, range);
    var once := ApplyDatedReminders(pruned, rs, newId, s, range, now);
    PrunedFacts(todos, ReminderOnly, range);
    ApplyDatedRemindersKeepsInside(pruned, rs, newId, s, range, now);
    PrunedInsideUnchanged(once, ReminderOnly, range);
    ApplyDatedRemindersIdempotent(pruned, rs, newId, newId', s, range, now, now');
  }
}
