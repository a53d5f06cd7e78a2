/**
 * The start-time-keyed reconciliation of calendar events into the store
 * (Services/CalendarEventSync.swift). EventKit is replaced by what it
 * answers: the events matching a fetch window, and a lookup of an event by
 * its identifier. `UUID()` for the items this pass adds is the parameter
 * `newId`, applied to the position of the event in the fetched list.
 */
module CalendarEventSync {
  import opened Wrappers
  import opened Clock
  import opened TodoItem
  import opened TimeSettings
  import opened EventKitRecords
  import opened TimeCategoryHelper
  import opened TodoStore
  import opened MainViewHelper

  // ---------------------------------------------------------------------
  // Links between items and events
  // ---------------------------------------------------------------------

  /** No two items are linked to the same calendar event. */
  predicate UniqueLinks(s: seq<TodoItem>) {
    forall i, j :: 0 <= i < j < |s| && s[i].calendarEventIdentifier.Some? ==>
      s[i].calendarEventIdentifier != s[j].calendarEventIdentifier
  }

  /** `existingCalendarEventIdentifiers`: the event identifiers the store links to. */
  function LinkedIds(s: seq<TodoItem>): set<string> {
    set t | t in s && t.calendarEventIdentifier.Some? :: t.calendarEventIdentifier.value
  }

  /** `todos.first { $0.calendarEventIdentifier == id }`, as a position. */
  function FirstLinked(s: seq<TodoItem>, id: string): (r: Option<nat>)
    ensures r.Some? ==> r.value < |s| && s[r.value].calendarEventIdentifier == Some(id)
    ensures r.Some? ==> forall j :: 0 <= j < r.value ==> s[j].calendarEventIdentifier != Some(id)
    ensures r.None? <==> id !in LinkedIds(s)
  {
    if s == [] then None
    else if s[0].calendarEventIdentifier == Some(id) then Some(0)
    else
      assert forall t :: t in s <==> t == s[0] || t in s[1..];
      match FirstLinked(s[1..], id)
      case None => None
      case Some(k) => Some(k + 1)
  }

  // ---------------------------------------------------------------------
  // One event
  // ---------------------------------------------------------------------

  /** An event the pass acts on: it has both a start and an identifier. */
  predicate Usable(e: CalendarEvent) {
    e.startDate.Some? && e.eventIdentifier.Some?
  }

  /** The update of a linked item: title, memo, category and start follow the event, nothing else changes. */
  function EventUpdate(t: TodoItem, e: CalendarEvent, s: TimeSettings): (r: TodoItem)
    requires e.startDate.Some?
    ensures r.title == e.title && r.memo == e.notes && r.startTime == e.startDate
    ensures r.timeCategory == GetTimeCategory(s, e.startDate.value)
    ensures r.id == t.id && r.kind == t.kind && r.status == t.status && r.createdAt == t.createdAt
    ensures r.completedAt == t.completedAt && r.reminderIdentifier == t.reminderIdentifier
    ensures r.calendarEventIdentifier == t.calendarEventIdentifier
  {
    t.(title := e.title, memo := e.notes, timeCategory := GetTimeCategoryForEvent(s, e), startTime := e.startDate)
  }

  /** The item added for a new event: a must-do, not started, starting with the event and linked to it. */
  function NewEventTodo(id: Uuid, e: CalendarEvent, s: TimeSettings, now: int): (r: TodoItem)
    requires Usable(e)
    ensures r.id == id && r.title == e.title && r.memo == e.notes && r.createdAt == now
    ensures r.kind == MustDo && r.status == NotStarted && CompletionConsistent(r)
    ensures r.timeCategory == GetTimeCategory(s, e.startDate.value) && r.startTime == e.startDate
    ensures r.calendarEventIdentifier == e.eventIdentifier && r.reminderIdentifier.None?
  {
    TodoItem(id, e.title, e.notes, MustDo, GetTimeCategoryForEvent(s, e), NotStarted, now, None, None,
      e.eventIdentifier, e.startDate)
  }

  /**
   * The body of the event loop for one event: skipped without a start or an
   * identifier; the linked item is updated wherever the event now starts; an
   * unlinked event is added only when it starts inside the day range.
   */
  function ApplyEvent(todos: seq<TodoItem>, e: CalendarEvent, id: Uuid, s: TimeSettings, range: TimeRange, now: int): (r: seq<TodoItem>)
    ensures !Usable(e) ==> r == todos
    ensures Usable(e) && FirstLinked(todos, e.eventIdentifier.value).Some? ==>
      |r| == |todos| && (UniqueIds(todos) ==>
        var k := FirstLinked(todos, e.eventIdentifier.value).value;
        r == todos[k := EventUpdate(todos[k], e, s)])
    ensures Usable(e) && FirstLinked(todos, e.eventIdentifier.value).None? ==>
      r == if Contains(range, e.startDate.value) then todos + [NewEventTodo(id, e, s, now)] else todos
  {
    if !Usable(e) then todos
    else
      match FirstLinked(todos, e.eventIdentifier.value)
      case Some(k) =>
        var updated := EventUpdate(todos[k], e, s);
        if UniqueIds(todos) then ReplaceAt(todos, k, updated); ReplaceById(todos, updated)
        else ReplaceById(todos, updated)
      case None =>
        if Contains(range, e.startDate.value) then todos + [NewEventTodo(id, e, s, now)] else todos
  }

  /** The store after the event loop has run over the first `n` fetched events. */
  function ApplyEvents(todos: seq<TodoItem>, events: seq<CalendarEvent>, n: nat, newId: nat -> Uuid,
      s: TimeSettings, range: TimeRange, now: int): seq<TodoItem>
    requires n <= |events|
  {
    if n == 0 then todos
    else ApplyEvent(ApplyEvents(todos, events, n - 1, newId, s, range, now), events[n - 1], newId(n - 1), s, range, now)
  }

  /** `foundEventIdentifiers` after the first `n` events: each usable event adds its identifier. */
  function FoundIds(events: seq<CalendarEvent>, n: nat): set<string>
    requires n <= |events|
  {
    if n == 0 then {}
    else FoundIds(events, n - 1) + if Usable(events[n - 1]) then {events[n - 1].eventIdentifier.value} else {}
  }

  /** An identifier is recorded as found exactly when one of the first `n` events is usable and carries it. */
  lemma {:induction false} FoundIdsMembers(events: seq<CalendarEvent>, n: nat, id: string)
    requires n <= |events|
    ensures id in FoundIds(events, n) <==>
      exists i :: 0 <= i < n && Usable(events[i]) && events[i].eventIdentifier.value == id
  {
    if n > 0 {
      FoundIdsMembers(events, n - 1, id);
      if id in FoundIds(events, n - 1) {
        var i :| 0 <= i < n - 1 && Usable(events[i]) && events[i].eventIdentifier.value == id;
        assert 0 <= i < n;
      }
    }
  }

  // ---------------------------------------------------------------------
  // Properties of the event loop
  // ---------------------------------------------------------------------

  /** Replacing an item by one with the same UUID and link keeps both unique and both sets unchanged. */
  lemma UpdateKeepsUnique(todos: seq<TodoItem>, k: nat, u: TodoItem)
    requires UniqueIds(todos) && UniqueLinks(todos) && k < |todos|
    requires u.id == todos[k].id && u.calendarEventIdentifier == todos[k].calendarEventIdentifier
    ensures var r := todos[k := u];
      UniqueIds(r) && UniqueLinks(r) && Ids(r) == Ids(todos) && LinkedIds(r) == LinkedIds(todos)
  {
    var r := todos[k := u];
    assert forall j :: 0 <= j < |r| ==> r[j].id == todos[j].id && r[j].calendarEventIdentifier == todos[j].calendarEventIdentifier;
    forall x | x in Ids(todos) ensures x in Ids(r) {
      var t :| t in todos && t.id == x;
      var j :| 0 <= j < |todos| && todos[j] == t;
      assert r[j] in r;
    }
    forall x | x in LinkedIds(todos) ensures x in LinkedIds(r) {
      var t :| t in todos && t.calendarEventIdentifier == Some(x);
      var j :| 0 <= j < |todos| && todos[j] == t;
      assert r[j] in r;
    }
  }

  /** Appending an item with a fresh UUID and a fresh link keeps both unique. */
  lemma AppendKeepsUnique(todos: seq<TodoItem>, added: TodoItem)
    requires UniqueIds(todos) && UniqueLinks(todos)
    requires added.id !in Ids(todos) && added.calendarEventIdentifier.Some?
    requires added.calendarEventIdentifier.value !in LinkedIds(todos)
    ensures var r := todos + [added];
      UniqueIds(r) && UniqueLinks(r) && Ids(r) == Ids(todos) + {added.id} &&
      LinkedIds(r) == LinkedIds(todos) + {added.calendarEventIdentifier.value}
  {
    var r := todos + [added];
    forall i, j | 0 <= i < j < |r| ensures r[i].id != r[j].id {
      if j == |todos| {
        assert r[i] in todos;
      }
    }
    forall i, j | 0 <= i < j < |r| && r[i].calendarEventIdentifier.Some?
      ensures r[i].calendarEventIdentifier != r[j].calendarEventIdentifier
    {
      if j == |todos| {
        assert r[i] in todos;
      }
    }
    assert forall t :: t in r <==> t in todos || t == added;
  }

  /** One event keeps UUIDs and links unique, and brings in at most its fresh UUID and its own identifier. */
  lemma ApplyEventKeepsUnique(todos: seq<TodoItem>, e: CalendarEvent, id: Uuid, s: TimeSettings, range: TimeRange, now: int)
    requires UniqueIds(todos) && UniqueLinks(todos) && id !in Ids(todos)
    ensures var r := ApplyEvent(todos, e, id, s, range, now);
      UniqueIds(r) && UniqueLinks(r) && Ids(r) <= Ids(todos) + {id} &&
      LinkedIds(r) == LinkedIds(todos) + (if Usable(e) && (e.eventIdentifier.value in LinkedIds(todos) || Contains(range, e.startDate.value))
        then {e.eventIdentifier.value} else {})
  {
    if Usable(e) {
      var eid := e.eventIdentifier.value;
      match FirstLinked(todos, eid)
      case Some(k) =>
        UpdateKeepsUnique(todos, k, EventUpdate(todos[k], e, s));
      case None =>
        if Contains(range, e.startDate.value) {
          AppendKeepsUnique(todos, NewEventTodo(id, e, s, now));
        }
    }
  }

  /** Over the whole loop: unique UUIDs and links survive, and the linked identifiers grow by the usable events that were linked or start in range. */
  lemma {:induction false} ApplyEventsKeepsUnique(todos: seq<TodoItem>, events: seq<CalendarEvent>, n: nat, newId: nat -> Uuid,
      s: TimeSettings, range: TimeRange, now: int)
    requires n <= |events| && UniqueIds(todos) && UniqueLinks(todos) && FreshIds(newId, todos, n)
    ensures var r := ApplyEvents(todos, events, n, newId, s, range, now);
      UniqueIds(r) && UniqueLinks(r) && Ids(r) <= Ids(todos) + IssuedIds(newId, n) &&
      LinkedIds(todos) <= LinkedIds(r) <= LinkedIds(todos) + FoundIds(events, n)
  {
    if n > 0 {
      var prev := ApplyEvents(todos, events, n - 1, newId, s, range, now);
      ApplyEventsKeepsUnique(todos, events, n - 1, newId, s, range, now);
      NextIdFresh(newId, todos, n - 1);
      assert UniqueIds(prev) && UniqueLinks(prev) && newId(n - 1) !in Ids(prev);
      ApplyEventKeepsUnique(prev, events[n - 1], newId(n - 1), s, range, now);
    }
  }

  /** Every usable event that starts in the day range ends up linked, whether it was already or is added. */
  lemma {:induction false} InRangeEventsLinked(todos: seq<TodoItem>, events: seq<CalendarEvent>, n: nat, newId: nat -> Uuid,
      s: TimeSettings, range: TimeRange, now: int, i: nat)
    requires n <= |events| && UniqueIds(todos) && UniqueLinks(todos) && FreshIds(newId, todos, n)
    requires i < n && Usable(events[i]) && Contains(range, events[i].startDate.value)
    ensures events[i].eventIdentifier.value in LinkedIds(ApplyEvents(todos, events, n, newId, s, range, now))
  {
    var prev := ApplyEvents(todos, events, n - 1, newId, s, range, now);
    ApplyEventsKeepsUnique(todos, events, n - 1, newId, s, range, now);
    NextIdFresh(newId, todos, n - 1);
    assert UniqueIds(prev) && UniqueLinks(prev) && newId(n - 1) !in Ids(prev);
    ApplyEventKeepsUnique(prev, events[n - 1], newId(n - 1), s, range, now);
    if i < n - 1 {
      InRangeEventsLinked(todos, events, n - 1, newId, s, range, now, i);
    }
  }

  /** An updated item, updated again by the same event, stays as it is. */
  lemma UpdateAgainIdempotent(todos: seq<TodoItem>, k: nat, e: CalendarEvent, s: TimeSettings)
    requires UniqueIds(todos) && UniqueLinks(todos) && k < |todos| && Usable(e)
    requires todos[k].calendarEventIdentifier == e.eventIdentifier
    requires FirstLinked(todos, e.eventIdentifier.value) == Some(k)
    ensures var r := todos[k := EventUpdate(todos[k], e, s)];
      FirstLinked(r, e.eventIdentifier.value) == Some(k) && r[k := EventUpdate(r[k], e, s)] == r
  {
    var r := todos[k := EventUpdate(todos[k], e, s)];
    forall j | 0 <= j < k ensures r[j].calendarEventIdentifier != e.eventIdentifier {
      assert r[j] == todos[j];
    }
    assert EventUpdate(r[k], e, s) == r[k];
  }

  /** An added item is found by the same event the second time, and the update leaves it as it is. */
  lemma AddAgainIdempotent(todos: seq<TodoItem>, e: CalendarEvent, id: Uuid, s: TimeSettings, now: int)
    requires Usable(e) && FirstLinked(todos, e.eventIdentifier.value).None?
    ensures var r := todos + [NewEventTodo(id, e, s, now)];
      FirstLinked(r, e.eventIdentifier.value) == Some(|todos|) && r[|todos| := EventUpdate(r[|todos|], e, s)] == r
  {
    var r := todos + [NewEventTodo(id, e, s, now)];
    forall j | 0 <= j < |todos| ensures r[j].calendarEventIdentifier != e.eventIdentifier {
      assert r[j] == todos[j];
    }
    assert EventUpdate(r[|todos|], e, s) == r[|todos|];
  }

  /** Applying the same event a second time changes nothing. */
  lemma ApplyEventIdempotent(todos: seq<TodoItem>, e: CalendarEvent, id: Uuid, id': Uuid, s: TimeSettings, range: TimeRange, now: int, now': int)
    requires UniqueIds(todos) && UniqueLinks(todos) && id !in Ids(todos)
    ensures var r := ApplyEvent(todos, e, id, s, range, now);
      ApplyEvent(r, e, id', s, range, now') == r
  {
    ApplyEventKeepsUnique(todos, e, id, s, range, now);
    if Usable(e) {
      var eid := e.eventIdentifier.value;
      match FirstLinked(todos, eid)
      case Some(k) =>
        UpdateAgainIdempotent(todos, k, e, s);
      case None =>
        if Contains(range, e.startDate.value) {
          AddAgainIdempotent(todos, e, id, s, now);
        }
    }
  }

  /** The fetched events that can be synced carry distinct identifiers. */
  predicate DistinctEventIds(events: seq<CalendarEvent>) {
    forall i, j :: 0 <= i < j < |events| && Usable(events[i]) && Usable(events[j]) ==>
      events[i].eventIdentifier != events[j].eventIdentifier
  }

  /** The store already reflects `e`: its linked item carries the event's data, or it is unlinked and starts outside the range. */
  predicate Settled(todos: seq<TodoItem>, e: CalendarEvent, s: TimeSettings, range: TimeRange) {
    Usable(e) ==>
      match FirstLinked(todos, e.eventIdentifier.value)
      case Some(k) => EventUpdate(todos[k], e, s) == todos[k]
      case None => !Contains(range, e.startDate.value)
  }

  /** A store settled for `e` is left as it is by the loop body for `e`. */
  lemma SettledUnchanged(todos: seq<TodoItem>, e: CalendarEvent, id: Uuid, s: TimeSettings, range: TimeRange, now: int)
    requires UniqueIds(todos) && Settled(todos, e, s, range)
    ensures ApplyEvent(todos, e, id, s, range, now) == todos
  {
    if Usable(e) {
      match FirstLinked(todos, e.eventIdentifier.value)
      case Some(k) =>
        assert todos[k := todos[k]] == todos;
      case None =>
    }
  }

  /** Two stores that link `id` at the same positions, the longer one nowhere past the shorter, find it at the same place. */
  lemma FirstLinkedAgree(s: seq<TodoItem>, s': seq<TodoItem>, id: string)
    requires |s| <= |s'|
    requires forall j :: 0 <= j < |s| ==> (s[j].calendarEventIdentifier == Some(id) <==> s'[j].calendarEventIdentifier == Some(id))
    requires forall j :: |s| <= j < |s'| ==> s'[j].calendarEventIdentifier != Some(id)
    ensures FirstLinked(s', id) == FirstLinked(s, id)
  {
    match FirstLinked(s, id)
    case Some(k) =>
      assert s'[k] in s';
      var k' := FirstLinked(s', id).value;
      assert k' == k;
    case None =>
  }

  /** The loop body for another event keeps the store settled for `e`. */
  lemma SettledAfterOther(todos: seq<TodoItem>, e: CalendarEvent, f: CalendarEvent, id: Uuid, s: TimeSettings, range: TimeRange, now: int)
    requires UniqueIds(todos) && Settled(todos, e, s, range)
    requires Usable(e) && Usable(f) ==> e.eventIdentifier != f.eventIdentifier
    ensures Settled(ApplyEvent(todos, f, id, s, range, now), e, s, range)
  {
    if Usable(e) && Usable(f) {
      var r := ApplyEvent(todos, f, id, s, range, now);
      match FirstLinked(todos, f.eventIdentifier.value)
      case Some(kf) =>
        assert r == todos[kf := EventUpdate(todos[kf], f, s)];
        FirstLinkedAgree(todos, r, e.eventIdentifier.value);
      case None =>
        FirstLinkedAgree(todos, r, e.eventIdentifier.value);
    }
  }

  /** The loop body for `e` leaves the store settled for `e`. */
  lemma SettledAfterSame(todos: seq<TodoItem>, e: CalendarEvent, id: Uuid, s: TimeSettings, range: TimeRange, now: int)
    requires UniqueIds(todos) && UniqueLinks(todos)
    ensures Settled(ApplyEvent(todos, e, id, s, range, now), e, s, range)
  {
    if Usable(e) {
      match FirstLinked(todos, e.eventIdentifier.value)
      case Some(k) =>
        UpdateAgainIdempotent(todos, k, e, s);
      case None =>
        if Contains(range, e.startDate.value) {
          AddAgainIdempotent(todos, e, id, s, now);
        }
    }
  }

  /** After the loop over the first `n` events, the store is settled for each of them. */
  lemma {:induction false} ApplyEventsSettled(todos: seq<TodoItem>, events: seq<CalendarEvent>, n: nat, newId: nat -> Uuid,
      s: TimeSettings, range: TimeRange, now: int, i: nat)
    requires n <= |events| && UniqueIds(todos) && UniqueLinks(todos) && FreshIds(newId, todos, n) && DistinctEventIds(events)
    requires i < n
    ensures Settled(ApplyEvents(todos, events, n, newId, s, range, now), events[i], s, range)
  {
    var prev := ApplyEvents(todos, events, n - 1, newId, s, range, now);
    ApplyEventsKeepsUnique(todos, events, n - 1, newId, s, range, now);
    assert UniqueIds(prev) && UniqueLinks(prev);
    if i < n - 1 {
      ApplyEventsSettled(todos, events, n - 1, newId, s, range, now, i);
      SettledAfterOther(prev, events[i], events[n - 1], newId(n - 1), s, range, now);
    } else {
      SettledAfterSame(prev, events[n - 1], newId(n - 1), s, range, now);
    }
  }

  /** A store settled for the first `n` events goes through the loop over them unchanged. */
  lemma {:induction false} ReapplySettled(todos: seq<TodoItem>, events: seq<CalendarEvent>, n: nat, newId: nat -> Uuid,
      s: TimeSettings, range: TimeRange, now: int)
    requires n <= |events| && UniqueIds(todos)
    requires forall i :: 0 <= i < n ==> Settled(todos, events[i], s, range)
    ensures ApplyEvents(todos, events, n, newId, s, range, now) == todos
  {
    if n > 0 {
      ReapplySettled(todos, events, n - 1, newId, s, range, now);
      SettledUnchanged(todos, events[n - 1], newId(n - 1), s, range, now);
    }
  }

  /**
   * Running the event loop a second time over the same fetch changes nothing,
   * whatever UUIDs and clock the second run uses.
   */
  lemma ApplyEventsIdempotent(todos: seq<TodoItem>, events: seq<CalendarEvent>, n: nat, newId: nat -> Uuid, newId': nat -> Uuid,
      s: TimeSettings, range: TimeRange, now: int, now': int)
    requires n <= |events| && UniqueIds(todos) && UniqueLinks(todos) && FreshIds(newId, todos, n) && DistinctEventIds(events)
    ensures var r := ApplyEvents(todos, events, n, newId, s, range, now);
      ApplyEvents(r, events, n, newId', s, range, now') == r
  {
    var r := ApplyEvents(todos, events, n, newId, s, range, now);
    ApplyEventsKeepsUnique(todos, events, n, newId, s, range, now);
    forall i | 0 <= i < n ensures Settled(r, events[i], s, range) {
      ApplyEventsSettled(todos, events, n, newId, s, range, now, i);
    }
    ReapplySettled(r, events, n, newId', s, range, now');
  }

  // ---------------------------------------------------------------------
  // The clean-up after the loop
  // ---------------------------------------------------------------------

  /**
   * A linked identifier the loop did not see is dropped when the lookup
   * finds no event, or finds one that now starts outside the day range.
   */
  predicate ShouldPrune(id: string, found: set<string>, eventWithIdentifier: map<string, CalendarEvent>, range: TimeRange) {
    id !in found &&
    (id !in eventWithIdentifier ||
     (eventWithIdentifier[id].startDate.Some? && !Contains(range, eventWithIdentifier[id].startDate.value)))
  }

  /** An item linked to an identifier among `ids` that is to be dropped. */
  predicate PrunedBy(t: TodoItem, ids: set<string>, found: set<string>, eventWithIdentifier: map<string, CalendarEvent>, range: TimeRange) {
    t.calendarEventIdentifier.Some? && t.calendarEventIdentifier.value in ids &&
    ShouldPrune(t.calendarEventIdentifier.value, found, eventWithIdentifier, range)
  }

  /** What the clean-up loop keeps true: the items of `after` not yet dropped are exactly what is left. */
  ghost predicate PruneState(todos: seq<TodoItem>, after: seq<TodoItem>, done: set<string>, found: set<string>,
      eventWithIdentifier: map<string, CalendarEvent>, range: TimeRange)
  {
    UniqueIds(todos) && UniqueLinks(todos) &&
    forall t :: t in todos <==> t in after && !PrunedBy(t, done, found, eventWithIdentifier, range)
  }

  /** One step of the clean-up loop, for the identifier `id`, preserves `PruneState`. */
  lemma PruneStep(todos: seq<TodoItem>, after: seq<TodoItem>, done: set<string>, id: string, found: set<string>,
      eventWithIdentifier: map<string, CalendarEvent>, range: TimeRange)
    requires PruneState(todos, after, done, found, eventWithIdentifier, range) && id !in done
    ensures var k := FirstLinked(todos, id);
      var next := if ShouldPrune(id, found, eventWithIdentifier, range) && k.Some? then RemoveById(todos, todos[k.value].id) else todos;
      PruneState(next, after, done + {id}, found, eventWithIdentifier, range)
  {
    var k := FirstLinked(todos, id);
    if ShouldPrune(id, found, eventWithIdentifier, range) {
      match k
      case Some(i) =>
        var gone := todos[i];
        var next := RemoveById(todos, gone.id);
        RemoveByIdKeepsUniqueIds(todos, gone.id);
        forall t | t in todos && t.calendarEventIdentifier == Some(id) ensures t.id == gone.id {
          var j :| 0 <= j < |todos| && todos[j] == t;
          assert j == i;
        }
        forall t | t in todos && t.id == gone.id ensures t == gone {
          var j :| 0 <= j < |todos| && todos[j] == t;
          assert j == i;
        }
        SubsequenceKeepsUniqueLinks(next, todos, gone.id);
      case None =>
    }
  }

  /** Deleting by UUID keeps links unique. */
  lemma SubsequenceKeepsUniqueLinks(next: seq<TodoItem>, todos: seq<TodoItem>, id: Uuid)
    requires UniqueLinks(todos) && UniqueIds(todos) && next == RemoveById(todos, id)
    ensures UniqueLinks(next)
  {
    RemoveByIdKeepsUniqueIds(todos, id);
    forall i, j | 0 <= i < j < |next| && next[i].calendarEventIdentifier.Some?
      ensures next[i].calendarEventIdentifier != next[j].calendarEventIdentifier
    {
      assert next[i] in todos && next[j] in todos;
      var a :| 0 <= a < |todos| && todos[a] == next[i];
      var b :| 0 <= b < |todos| && todos[b] == next[j];
      assert next[i].id != next[j].id;
    }
  }

  /** The day range computed inline by the sync passes is `getCurrentTimeRange`'s. */
  function DayRange(s: TimeSettings, now: int): (r: TimeRange)
    ensures r == GetCurrentTimeRange(s, now)
  {
    var todayMorningStart := AtMinute(StartOfDay(now), s.morningStart);
    var tomorrowMorningStart := todayMorningStart + SecondsPerDay;
    if now >= todayMorningStart && now < tomorrowMorningStart then TimeRange(todayMorningStart, tomorrowMorningStart)
    else TimeRange(todayMorningStart - SecondsPerDay, todayMorningStart)
  }

  /** The body of the event loop for one fetched event. */
  method ReconcileEvent(todoStore: TodoStore, event: CalendarEvent, id: Uuid, timeSettings: TimeSettings, dayRange: TimeRange, now: int)
    modifies todoStore
    ensures todoStore.todos == ApplyEvent(old(todoStore.todos), event, id, timeSettings, dayRange, now)
  {
    if event.startDate.None? || event.eventIdentifier.None? {
      return;
    }
    var eventStartDate := event.startDate.value;
    var eventIdentifier := event.eventIdentifier.value;
    var timeCategory := GetTimeCategoryForEvent(timeSettings, event);
    var existingTodo := FirstLinked(todoStore.todos, eventIdentifier);
    if existingTodo.Some? {
      var updatedTodo := todoStore.todos[existingTodo.value];
      updatedTodo := updatedTodo.(title := event.title, memo := event.notes, timeCategory := timeCategory, startTime := Some(eventStartDate));
      todoStore.UpdateTodo(updatedTodo);
    } else if eventStartDate >= dayRange.startDate && eventStartDate < dayRange.endDate {
      var todo := TodoItem(id, event.title, event.notes, MustDo, timeCategory, NotStarted, now, None, None,
        Some(eventIdentifier), Some(eventStartDate));
      todoStore.AddTodo(todo);
    }
  }

  /**
   * The clean-up loop after the event loop: every identifier linked before
   * the pass is visited once, in any order, and its item is deleted when the
   * fetch did not return it and its lookup fails or starts outside the day.
   */
  method DeleteUnfoundEvents(todoStore: TodoStore, existingCalendarEventIdentifiers: set<string>, foundEventIdentifiers: set<string>,
      eventWithIdentifier: map<string, CalendarEvent>, dayRange: TimeRange, ghost after: seq<TodoItem>)
    requires todoStore.todos == after
    modifies todoStore
    ensures UniqueIds(after) && UniqueLinks(after) ==>
      PruneState(todoStore.todos, after, existingCalendarEventIdentifiers, foundEventIdentifiers, eventWithIdentifier, dayRange)
  {
    ghost var unique := UniqueIds(after) && UniqueLinks(after);
    var pending := existingCalendarEventIdentifiers;
    ghost var done: set<string> := {};
    while pending != {}
      invariant pending + done == existingCalendarEventIdentifiers && pending !! done
      invariant unique ==> PruneState(todoStore.todos, after, done, foundEventIdentifiers, eventWithIdentifier, dayRange)
      decreases pending
    {
      var identifier :| identifier in pending;
      if unique {
        PruneStep(todoStore.todos, after, done, identifier, foundEventIdentifiers, eventWithIdentifier, dayRange);
      }
      if identifier !in foundEventIdentifiers {
        if identifier !in eventWithIdentifier {
          var todo := FirstLinked(todoStore.todos, identifier);
          if todo.Some? {
            todoStore.DeleteTodo(todoStore.todos[todo.value]);
          }
        } else {
          var event := eventWithIdentifier[identifier];
          if event.startDate.Some? {
            var eventStartDate := event.startDate.value;
            if eventStartDate < dayRange.startDate || eventStartDate >= dayRange.endDate {
              var todo := FirstLinked(todoStore.todos, identifier);
              if todo.Some? {
                todoStore.DeleteTodo(todoStore.todos[todo.value]);
              }
            }
          }
        }
      }
      pending := pending - {identifier};
      done := done + {identifier};
    }
  }

  /**
   * The event loop of `syncCalendarEvents`: every fetched event is
   * reconciled in order, and the identifiers of the usable ones are
   * recorded as found.
   */
  method ReconcileEvents(todoStore: TodoStore, events: seq<CalendarEvent>, newId: nat -> Uuid,
      timeSettings: TimeSettings, dayRange: TimeRange, now: int)
    returns (foundEventIdentifiers: set<string>)
    modifies todoStore
    ensures foundEventIdentifiers == FoundIds(events, |events|)
    ensures todoStore.todos == ApplyEvents(old(todoStore.todos), events, |events|, newId, timeSettings, dayRange, now)
  {
    ghost var before := todoStore.todos;
    foundEventIdentifiers := {};
    for i := 0 to |events|
      invariant todoStore.todos == ApplyEvents(before, events, i, newId, timeSettings, dayRange, now)
      invariant foundEventIdentifiers == FoundIds(events, i)
    {
      var event := events[i];
      if event.startDate.Some? && event.eventIdentifier.Some? {
        foundEventIdentifiers := foundEventIdentifiers + {event.eventIdentifier.value};
      }
      ReconcileEvent(todoStore, event, newId(i), timeSettings, dayRange, now);
    }
  }

  /**
   * `syncCalendarEvents(to:timeSettings:)`. Nothing happens without full
   * calendar access. Otherwise the events of the day range widened by two
   * days on either side are fetched and reconciled, and then every linked
   * identifier the fetch did not return is looked up once.
   */
  method SyncCalendarEvents(todoStore: TodoStore, timeSettings: TimeSettings, now: int, authorized: bool,
      eventsMatching: (int, int) -> seq<CalendarEvent>, eventWithIdentifier: map<string, CalendarEvent>, newId: nat -> Uuid)
    returns (events: seq<CalendarEvent>)
    modifies todoStore
    ensures !authorized ==> todoStore.todos == old(todoStore.todos) && todoStore.saveCount == old(todoStore.saveCount)
    ensures authorized ==>
      var range := GetCurrentTimeRange(timeSettings, now);
      events == eventsMatching(range.startDate - 2 * SecondsPerDay, range.endDate + 2 * SecondsPerDay) &&
      var after := ApplyEvents(old(todoStore.todos), events, |events|, newId, timeSettings, range, now);
      (UniqueIds(after) && UniqueLinks(after) ==>
        PruneState(todoStore.todos, after, LinkedIds(old(todoStore.todos)), FoundIds(events, |events|), eventWithIdentifier, range))
  {
    events := [];
    if !authorized {
      return;
    }
    var dayRange := DayRange(timeSettings, now);
    var existingCalendarEventIdentifiers := LinkedIds(todoStore.todos);
    var fetchStartDate := dayRange.startDate - 2 * SecondsPerDay;
    var fetchEndDate := dayRange.endDate + 2 * SecondsPerDay;
    events := eventsMatching(fetchStartDate, fetchEndDate);
    var foundEventIdentifiers := ReconcileEvents(todoStore, events, newId, timeSettings, dayRange, now);
    DeleteUnfoundEvents(todoStore, existingCalendarEventIdentifiers, foundEventIdentifiers, eventWithIdentifier, dayRange, todoStore.todos);
  }

  // ---------------------------------------------------------------------
  // Running the pass twice
  // ---------------------------------------------------------------------

  /** Dropping items a pruning may drop, while keeping the item linked to `e`, keeps the store settled for `e`. */
  lemma SettledAfterPrune(after: seq<TodoItem>, todos: seq<TodoItem>, e: CalendarEvent, s: TimeSettings, range: TimeRange)
    requires UniqueLinks(after) && UniqueLinks(todos) && Settled(after, e, s, range)
    requires forall t :: t in todos ==> t in after
    requires Usable(e) ==> forall t :: t in after && t.calendarEventIdentifier == e.eventIdentifier ==> t in todos
    ensures Settled(todos, e, s, range)
  {
    if Usable(e) {
      var eid := e.eventIdentifier.value;
      match FirstLinked(after, eid)
      case Some(k) =>
        assert after[k] in todos;
        var k1 := FirstLinked(todos, eid).value;
        assert todos[k1] in after;
        var j :| 0 <= j < |after| && after[j] == todos[k1];
        assert j == k;
      case None =>
    }
  }

  /**
   * A second `syncCalendarEvents` with the same fetch, the same lookups and
   * the same day range leaves exactly the items the first run left,
   * whatever UUIDs and clock the second run uses: every fetched event finds
   * its item already up to date, and no linked identifier is pruned.
   */
  lemma ResyncKeepsItems(todos: seq<TodoItem>, events: seq<CalendarEvent>, newId: nat -> Uuid, newId': nat -> Uuid,
      s: TimeSettings, range: TimeRange, now: int, now': int, eventWithIdentifier: map<string, CalendarEvent>,
      first: seq<TodoItem>, second: seq<TodoItem>)
    requires UniqueIds(todos) && UniqueLinks(todos) && FreshIds(newId, todos, |events|) && DistinctEventIds(events)
    requires PruneState(first, ApplyEvents(todos, events, |events|, newId, s, range, now), LinkedIds(todos),
      FoundIds(events, |events|), eventWithIdentifier, range)
    requires PruneState(second, ApplyEvents(first, events, |events|, newId', s, range, now'), LinkedIds(first),
      FoundIds(events, |events|), eventWithIdentifier, range)
    ensures forall t :: t in second <==> t in first
  {
    var n := |events|;
    var found := FoundIds(events, n);
    var after := ApplyEvents(todos, events, n, newId, s, range, now);
    ApplyEventsKeepsUnique(todos, events, n, newId, s, range, now);
    forall i | 0 <= i < n ensures Settled(first, events[i], s, range) {
      ApplyEventsSettled(todos, events, n, newId, s, range, now, i);
      if Usable(events[i]) {
        FoundIdsMembers(events, n, events[i].eventIdentifier.value);
      }
      SettledAfterPrune(after, first, events[i], s, range);
    }
    ReapplySettled(first, events, n, newId', s, range, now');
    forall t | t in first ensures !PrunedBy(t, LinkedIds(first), found, eventWithIdentifier, range) {
      if t.calendarEventIdentifier.Some? && t.calendarEventIdentifier.value !in LinkedIds(todos) {
        assert t.calendarEventIdentifier.value in LinkedIds(after);
      }
    }
  }
}
