/**
 * The start-time-keyed reconciliation of reminders into the store
 * (Services/ReminderSync.swift). EventKit is replaced by what it answers:
 * the reminders of each reminder calendar, in order, and a lookup of a
 * reminder by its identifier. The blocks the source hands to the main queue
 * run at once, in order; `Date()` is `now` and `UUID()` of an added item is
 * `newId` applied to the reminder's position among all fetched reminders.
 */
module ReminderSync {
  import opened Wrappers
  import opened Clock
  import opened TodoItem
  import opened TimeSettings
  import opened EventKitRecords
  import opened TimeCategoryHelper
  import opened TodoStore
  import opened MainViewHelper
  import CalendarEventSync

  // ---------------------------------------------------------------------
  // Links between items and reminders
  // ---------------------------------------------------------------------

  /** No two items are linked to the same reminder. */
  predicate UniqueReminderLinks(s: seq<TodoItem>) {
    forall i, j :: 0 <= i < j < |s| && s[i].reminderIdentifier.Some? ==>
      s[i].reminderIdentifier != s[j].reminderIdentifier
  }

  /** An item the app created and pushed to Reminders: linked, but without a start. */
  predicate AppCreated(t: TodoItem) {
    t.reminderIdentifier.Some? && t.startTime.None?
  }

  /** An item that came from a timed reminder: linked, with a start. */
  predicate TimedLinked(t: TodoItem) {
    t.reminderIdentifier.Some? && t.startTime.Some?
  }

  /** `appCreatedReminderIdentifiers`. */
  function AppCreatedIds(s: seq<TodoItem>): set<string> {
    set t | t in s && AppCreated(t) :: t.reminderIdentifier.value
  }

  /** `existingReminderIdentifiers`. */
  function TimedLinkedIds(s: seq<TodoItem>): set<string> {
    set t | t in s && TimedLinked(t) :: t.reminderIdentifier.value
  }

  /** `todos.first { $0.reminderIdentifier == id }`, as a position. */
  function FirstReminderLinked(s: seq<TodoItem>, id: string): (r: Option<nat>)
    ensures r.Some? ==> r.value < |s| && s[r.value].reminderIdentifier == Some(id)
    ensures r.Some? ==> forall j :: 0 <= j < r.value ==> s[j].reminderIdentifier != Some(id)
    ensures r.None? <==> forall j :: 0 <= j < |s| ==> s[j].reminderIdentifier != Some(id)
  {
    if s == [] then None
    else if s[0].reminderIdentifier == Some(id) then Some(0)
    else match FirstReminderLinked(s[1..], id)
      case None => None
      case Some(k) => Some(k + 1)
  }

  /** `todos.first { $0.reminderIdentifier == id && ($0.startTime != nil) == timed }`, as a position. */
  function FirstReminderLinkedOfKind(s: seq<TodoItem>, id: string, timed: bool): (r: Option<nat>)
    ensures r.Some? ==> r.value < |s| && s[r.value].reminderIdentifier == Some(id) && s[r.value].startTime.Some? == timed
    ensures r.None? <==> forall j :: 0 <= j < |s| ==> !(s[j].reminderIdentifier == Some(id) && s[j].startTime.Some? == timed)
  {
    if s == [] then None
    else if s[0].reminderIdentifier == Some(id) && s[0].startTime.Some? == timed then Some(0)
    else match FirstReminderLinkedOfKind(s[1..], id, timed)
      case None => None
      case Some(k) => Some(k + 1)
  }

  // ---------------------------------------------------------------------
  // One reminder
  // ---------------------------------------------------------------------

  /**
   * The completion mirror: a completed reminder completes the item (stamping
   * `completedAt` unless it was already completed), an incomplete one
   * reopens a completed item as not started, and otherwise the status stays.
   */
  function Mirror(t: TodoItem, isCompleted: bool, now: int): (r: TodoItem)
    ensures isCompleted ==> r.status == Completed
    ensures !isCompleted ==> r.status == if t.status == Completed then NotStarted else t.status
    ensures r.completedAt == if r.status == t.status then t.completedAt else if isCompleted then Some(now) else None
    ensures r == t.(status := r.status, completedAt := r.completedAt)
    ensures CompletionConsistent(t) ==> CompletionConsistent(r)
  {
    if isCompleted && t.status != Completed then t.(status := Completed, completedAt := Some(now))
    else if !isCompleted && t.status == Completed then t.(status := NotStarted, completedAt := None)
    else t
  }

  /** Mirroring the same completion twice is mirroring it once, whenever the second happens. */
  lemma MirrorIdempotent(t: TodoItem, isCompleted: bool, now: int, now': int)
    ensures Mirror(Mirror(t, isCompleted, now), isCompleted, now') == Mirror(t, isCompleted, now)
  {
  }

  /** The update of an app-created item: title, memo and the mirror; category and start untouched. */
  function AppCreatedUpdate(t: TodoItem, r: Reminder, now: int): (u: TodoItem)
    ensures u.title == r.title && u.memo == r.notes
    ensures u.timeCategory == t.timeCategory && u.startTime == t.startTime
    ensures u == Mirror(t, r.isCompleted, now).(title := r.title, memo := r.notes)
  {
    Mirror(t.(title := r.title, memo := r.notes), r.isCompleted, now)
  }

  /** The update of a timed item: title, memo, category, start at the due date, and the mirror. */
  function TimedUpdate(t: TodoItem, r: Reminder, s: TimeSettings, now: int): (u: TodoItem)
    requires r.dueDate.Some?
    ensures u.title == r.title && u.memo == r.notes && u.startTime == r.dueDate
    ensures u.timeCategory == GetTimeCategory(s, r.dueDate.value)
    ensures u == Mirror(t, r.isCompleted, now).(title := r.title, memo := r.notes, timeCategory := u.timeCategory, startTime := r.dueDate)
  {
    Mirror(t.(title := r.title, memo := r.notes, timeCategory := GetTimeCategoryForReminder(s, r), startTime := r.dueDate),
      r.isCompleted, now)
  }

  /** The item added for a new reminder: a must-do, not started, starting at the due date and linked to it. */
  function NewReminderTodo(id: Uuid, r: Reminder, s: TimeSettings, now: int): (t: TodoItem)
    requires r.dueDate.Some?
    ensures t.id == id && t.title == r.title && t.memo == r.notes && t.createdAt == now
    ensures t.kind == MustDo && t.status == NotStarted && CompletionConsistent(t)
    ensures t.timeCategory == GetTimeCategory(s, r.dueDate.value) && t.startTime == r.dueDate
    ensures t.reminderIdentifier == Some(r.calendarItemIdentifier) && t.calendarEventIdentifier.None? && TimedLinked(t)
  {
    TodoItem(id, r.title, r.notes, MustDo, GetTimeCategoryForReminder(s, r), NotStarted, now, None,
      Some(r.calendarItemIdentifier), None, r.dueDate)
  }

  /**
   * `isInDayRange`: a date-only reminder is compared by calendar day
   * against the days of the range's ends, a timed one by instant.
   */
  predicate InDayRange(r: Reminder, range: TimeRange)
    requires r.dueDate.Some?
  {
    if r.hasOnlyDate then
      StartOfDay(StartOfDay(r.dueDate.value)) >= StartOfDay(range.startDate) &&
      StartOfDay(StartOfDay(r.dueDate.value)) < StartOfDay(range.endDate)
    else Contains(range, r.dueDate.value)
  }

  /** Over a day-long range, a date-only reminder is in range exactly when it is due on the day the range starts. */
  lemma DateOnlyInRangeOnStartDay(r: Reminder, range: TimeRange)
    requires r.dueDate.Some? && r.hasOnlyDate && range.endDate - range.startDate == SecondsPerDay
    ensures InDayRange(r, range) <==> StartOfDay(r.dueDate.value) == StartOfDay(range.startDate)
  {
    ShiftByDays(range.startDate, 1);
  }

  /**
   * The body of the reminder loop for one reminder: an app-created linked
   * item gets `AppCreatedUpdate`; otherwise a reminder without due date is
   * skipped, a linked timed item gets `TimedUpdate` wherever it is now due,
   * and an unlinked reminder is added when it is not completed and in range.
   */
  function ApplyReminder(todos: seq<TodoItem>, r: Reminder, id: Uuid, s: TimeSettings, range: TimeRange, now: int): (res: seq<TodoItem>)
    ensures |res| == |todos| || (r.dueDate.Some? && res == todos + [NewReminderTodo(id, r, s, now)])
    ensures FirstReminderLinked(todos, r.calendarItemIdentifier).None? ==>
      res == if r.dueDate.Some? && !r.isCompleted && InDayRange(r, range) then todos + [NewReminderTodo(id, r, s, now)] else todos
  {
    match FirstReminderLinked(todos, r.calendarItemIdentifier)
    case Some(k) =>
      if todos[k].startTime.None? then ReplaceById(todos, AppCreatedUpdate(todos[k], r, now))
      else if r.dueDate.None? then todos
      else ReplaceById(todos, TimedUpdate(todos[k], r, s, now))
    case None =>
      if r.dueDate.Some? && !r.isCompleted && InDayRange(r, range) then todos + [NewReminderTodo(id, r, s, now)]
      else todos
  }

  /**
   * With unique UUIDs, a reminder already linked changes only the linked
   * item: the app-created update for an item without start, the timed update
   * for one with a start when the reminder has a due date, and nothing else.
   */
  lemma ApplyReminderLinked(todos: seq<TodoItem>, r: Reminder, id: Uuid, s: TimeSettings, range: TimeRange, now: int, k: nat)
    requires UniqueIds(todos) && FirstReminderLinked(todos, r.calendarItemIdentifier) == Some(k)
    ensures ApplyReminder(todos, r, id, s, range, now) ==
      if todos[k].startTime.None? then todos[k := AppCreatedUpdate(todos[k], r, now)]
      else if r.dueDate.None? then todos
      else todos[k := TimedUpdate(todos[k], r, s, now)]
  {
    if todos[k].startTime.None? {
      ReplaceAt(todos, k, AppCreatedUpdate(todos[k], r, now));
    } else if r.dueDate.Some? {
      ReplaceAt(todos, k, TimedUpdate(todos[k], r, s, now));
    }
  }

  /** The store after the reminder loop has run over `rs`, every calendar's reminders one after another. */
  function ApplyReminders(todos: seq<TodoItem>, rs: seq<Reminder>, newId: nat -> Uuid, s: TimeSettings, range: TimeRange, now: int): seq<TodoItem>
  {
    if rs == [] then todos
    else ApplyReminder(ApplyReminders(todos, rs[..|rs| - 1], newId, s, range, now), rs[|rs| - 1], newId(|rs| - 1), s, range, now)
  }

  /** One more reminder at the end is one more step of the loop. */
  lemma ApplyRemindersSnoc(todos: seq<TodoItem>, rs: seq<Reminder>, r: Reminder, newId: nat -> Uuid,
      s: TimeSettings, range: TimeRange, now: int)
    ensures ApplyReminders(todos, rs + [r], newId, s, range, now) ==
      ApplyReminder(ApplyReminders(todos, rs, newId, s, range, now), r, newId(|rs|), s, range, now)
    ensures FoundIds(rs + [r]) == FoundIds(rs) + {r.calendarItemIdentifier}
  {
    assert (rs + [r])[..|rs|] == rs;
  }

  /** The reminders of every calendar, one calendar after another. */
  function Flatten(calendars: seq<seq<Reminder>>): seq<Reminder> {
    if calendars == [] then [] else Flatten(calendars[..|calendars| - 1]) + calendars[|calendars| - 1]
  }

  /** The flattened list holds each calendar's reminders and nothing else. */
  lemma {:induction false} FlattenMembers(calendars: seq<seq<Reminder>>, r: Reminder)
    ensures r in Flatten(calendars) <==> exists c :: 0 <= c < |calendars| && r in calendars[c]
  {
    if calendars != [] {
      var init := calendars[..|calendars| - 1];
      FlattenMembers(init, r);
      assert forall c :: 0 <= c < |init| ==> init[c] == calendars[c];
    }
  }

  /** `foundReminderIdentifiers`: every fetched reminder, whatever the loop then does with it. */
  function FoundIds(rs: seq<Reminder>): set<string> {
    if rs == [] then {} else FoundIds(rs[..|rs| - 1]) + {rs[|rs| - 1].calendarItemIdentifier}
  }

  /** An identifier is found exactly when some fetched reminder carries it, whatever the loop did with that reminder. */
  lemma {:induction false} FoundIdsMembers(rs: seq<Reminder>, id: string)
    ensures id in FoundIds(rs) <==> exists i :: 0 <= i < |rs| && rs[i].calendarItemIdentifier == id
  {
    if rs != [] {
      var init := rs[..|rs| - 1];
      FoundIdsMembers(init, id);
      assert forall i :: 0 <= i < |init| ==> init[i] == rs[i];
    }
  }

  // ---------------------------------------------------------------------
  // Properties of the reminder loop
  // ---------------------------------------------------------------------

  /** Replacing one item by one with the same UUID and reminder link keeps both unique. */
  lemma UpdateKeepsUnique(todos: seq<TodoItem>, k: nat, u: TodoItem)
    requires UniqueIds(todos) && UniqueReminderLinks(todos) && k < |todos|
    requires u.id == todos[k].id && u.reminderIdentifier == todos[k].reminderIdentifier
    ensures var r := todos[k := u];
      UniqueIds(r) && UniqueReminderLinks(r) && Ids(r) == Ids(todos)
  {
    var r := todos[k := u];
    assert forall j :: 0 <= j < |r| ==> r[j].id == todos[j].id && r[j].reminderIdentifier == todos[j].reminderIdentifier;
    forall x | x in Ids(todos) ensures x in Ids(r) {
      var t :| t in todos && t.id == x;
      var j :| 0 <= j < |todos| && todos[j] == t;
      assert r[j] in r;
    }
  }

  /** Appending an item with a fresh UUID and an unused reminder link keeps both unique. */
  lemma AppendKeepsUnique(todos: seq<TodoItem>, added: TodoItem)
    requires UniqueIds(todos) && UniqueReminderLinks(todos) && added.id !in Ids(todos)
    requires forall j :: 0 <= j < |todos| ==> todos[j].reminderIdentifier != added.reminderIdentifier
    ensures var r := todos + [added];
      UniqueIds(r) && UniqueReminderLinks(r) && Ids(r) == Ids(todos) + {added.id}
  {
    var r := todos + [added];
    AppendKeepsUniqueIds(todos, added);
    assert forall t :: t in r <==> t in todos || t == added;
  }

  /** One reminder keeps UUIDs and reminder links unique and brings in at most its fresh UUID. */
  lemma ApplyReminderKeepsUnique(todos: seq<TodoItem>, r: Reminder, id: Uuid, s: TimeSettings, range: TimeRange, now: int)
    requires UniqueIds(todos) && UniqueReminderLinks(todos) && id !in Ids(todos)
    ensures var res := ApplyReminder(todos, r, id, s, range, now);
      UniqueIds(res) && UniqueReminderLinks(res) && Ids(res) <= Ids(todos) + {id}
  {
    match FirstReminderLinked(todos, r.calendarItemIdentifier)
    case Some(k) =>
      ApplyReminderLinked(todos, r, id, s, range, now, k);
      if todos[k].startTime.None? {
        UpdateKeepsUnique(todos, k, AppCreatedUpdate(todos[k], r, now));
      } else if r.dueDate.Some? {
        UpdateKeepsUnique(todos, k, TimedUpdate(todos[k], r, s, now));
      }
    case None =>
      if r.dueDate.Some? && !r.isCompleted && InDayRange(r, range) {
        AppendKeepsUnique(todos, NewReminderTodo(id, r, s, now));
      }
  }

  /** Over the whole loop, unique UUIDs and unique reminder links survive. */
  lemma {:induction false} ApplyRemindersKeepsUnique(todos: seq<TodoItem>, rs: seq<Reminder>, newId: nat -> Uuid,
      s: TimeSettings, range: TimeRange, now: int)
    requires UniqueIds(todos) && UniqueReminderLinks(todos) && FreshIds(newId, todos, |rs|)
    ensures var res := ApplyReminders(todos, rs, newId, s, range, now);
      UniqueIds(res) && UniqueReminderLinks(res) && Ids(res) <= Ids(todos) + IssuedIds(newId, |rs|)
  {
    if rs != [] {
      var init := rs[..|rs| - 1];
      var prev := ApplyReminders(todos, init, newId, s, range, now);
      ApplyRemindersKeepsUnique(todos, init, newId, s, range, now);
      NextIdFresh(newId, todos, |rs| - 1);
      assert UniqueIds(prev) && UniqueReminderLinks(prev) && newId(|rs| - 1) !in Ids(prev);
      ApplyReminderKeepsUnique(prev, rs[|rs| - 1], newId(|rs| - 1), s, range, now);
    }
  }

  /** The app-created update, done twice, is done once; it keeps the UUID, the link and the missing start. */
  lemma AppCreatedUpdateIdempotent(t: TodoItem, r: Reminder, now: int, now': int)
    ensures var u := AppCreatedUpdate(t, r, now);
      AppCreatedUpdate(u, r, now') == u && u.id == t.id && u.reminderIdentifier == t.reminderIdentifier
  {
    MirrorIdempotent(t.(title := r.title, memo := r.notes), r.isCompleted, now, now');
  }

  /** The timed update, done twice, is done once; it keeps the UUID and the link. */
  lemma TimedUpdateIdempotent(t: TodoItem, r: Reminder, s: TimeSettings, now: int, now': int)
    requires r.dueDate.Some?
    ensures var u := TimedUpdate(t, r, s, now);
      TimedUpdate(u, r, s, now') == u && u.id == t.id && u.reminderIdentifier == t.reminderIdentifier
  {
    var c := GetTimeCategoryForReminder(s, r);
    MirrorIdempotent(t.(title := r.title, memo := r.notes, timeCategory := c, startTime := r.dueDate), r.isCompleted, now, now');
  }

  /** A reminder that is not completed leaves the item it added untouched when it updates it. */
  lemma NewReminderTodoFixed(id: Uuid, r: Reminder, s: TimeSettings, now: int, now': int)
    requires r.dueDate.Some? && !r.isCompleted
    ensures TimedUpdate(NewReminderTodo(id, r, s, now), r, s, now') == NewReminderTodo(id, r, s, now)
  {
    var t := NewReminderTodo(id, r, s, now);
    assert t.(title := r.title, memo := r.notes, timeCategory := GetTimeCategoryForReminder(s, r), startTime := r.dueDate) == t;
    assert Mirror(t, false, now') == t;
  }

  /** The first item linked to a reminder is the one at `k` when it is linked and none before it is. */
  lemma {:induction false} FirstReminderLinkedAt(s: seq<TodoItem>, id: string, k: nat)
    requires k < |s| && s[k].reminderIdentifier == Some(id)
    requires forall j :: 0 <= j < k ==> s[j].reminderIdentifier != Some(id)
    ensures FirstReminderLinked(s, id) == Some(k)
  {
    if k > 0 {
      assert s[0].reminderIdentifier != Some(id);
      FirstReminderLinkedAt(s[1..], id, k - 1);
    }
  }

  /** Replacing the first item linked to a reminder by one with the same link leaves it the first. */
  lemma SameLinkStaysFirst(todos: seq<TodoItem>, k: nat, u: TodoItem, id: string)
    requires k < |todos| && FirstReminderLinked(todos, id) == Some(k) && u.reminderIdentifier == todos[k].reminderIdentifier
    ensures FirstReminderLinked(todos[k := u], id) == Some(k)
  {
    var res := todos[k := u];
    forall j | 0 <= j < k ensures res[j].reminderIdentifier != Some(id) {
      assert res[j] == todos[j];
    }
    FirstReminderLinkedAt(res, id, k);
  }

  /** An appended item linked to a reminder nothing else links to is the first linked to it. */
  lemma AppendedIsFirst(todos: seq<TodoItem>, t: TodoItem, id: string)
    requires FirstReminderLinked(todos, id).None? && t.reminderIdentifier == Some(id)
    ensures FirstReminderLinked(todos + [t], id) == Some(|todos|)
  {
    var res := todos + [t];
    forall j | 0 <= j < |todos| ensures res[j].reminderIdentifier != Some(id) {
      assert res[j] == todos[j];
    }
    FirstReminderLinkedAt(res, id, |todos|);
  }

  /** Writing back the element already at `k` leaves a sequence as it is. */
  lemma UpdateWithSame<T>(s: seq<T>, k: nat)
    requires k < |s|
    ensures s[k := s[k]] == s
  {
  }

  /** Idempotence when the reminder is linked to an app-created item. */
  lemma ApplyAppCreatedIdempotent(todos: seq<TodoItem>, r: Reminder, id: Uuid, id': Uuid, s: TimeSettings, range: TimeRange, now: int, now': int, k: nat)
    requires UniqueIds(todos) && FirstReminderLinked(todos, r.calendarItemIdentifier) == Some(k) && todos[k].startTime.None?
    ensures var res := ApplyReminder(todos, r, id, s, range, now);
      ApplyReminder(res, r, id', s, range, now') == res
  {
    var u := AppCreatedUpdate(todos[k], r, now);
    var res := todos[k := u];
    assert ApplyReminder(todos, r, id, s, range, now) == res by {
      ApplyReminderLinked(todos, r, id, s, range, now, k);
    }
    assert UniqueIds(res) && res[k] == u && u.startTime.None? by {
      ReplaceAt(todos, k, u);
    }
    assert FirstReminderLinked(res, r.calendarItemIdentifier) == Some(k) by {
      AppCreatedUpdateIdempotent(todos[k], r, now, now');
      SameLinkStaysFirst(todos, k, u, r.calendarItemIdentifier);
    }
    assert AppCreatedUpdate(u, r, now') == u by {
      AppCreatedUpdateIdempotent(todos[k], r, now, now');
    }
    assert ApplyReminder(res, r, id', s, range, now') == res by {
      ApplyReminderLinked(res, r, id', s, range, now', k);
      UpdateWithSame(res, k);
    }
  }

  /** Idempotence when the reminder is linked to a timed item. */
  lemma ApplyTimedIdempotent(todos: seq<TodoItem>, r: Reminder, id: Uuid, id': Uuid, s: TimeSettings, range: TimeRange, now: int, now': int, k: nat)
    requires UniqueIds(todos) && FirstReminderLinked(todos, r.calendarItemIdentifier) == Some(k) && todos[k].startTime.Some?
    requires r.dueDate.Some?
    ensures var res := ApplyReminder(todos, r, id, s, range, now);
      ApplyReminder(res, r, id', s, range, now') == res
  {
    var u := TimedUpdate(todos[k], r, s, now);
    var res := todos[k := u];
    assert ApplyReminder(todos, r, id, s, range, now) == res by {
      ApplyReminderLinked(todos, r, id, s, range, now, k);
    }
    assert UniqueIds(res) && res[k] == u && u.startTime.Some? by {
      ReplaceAt(todos, k, u);
    }
    assert FirstReminderLinked(res, r.calendarItemIdentifier) == Some(k) by {
      TimedUpdateIdempotent(todos[k], r, s, now, now');
      SameLinkStaysFirst(todos, k, u, r.calendarItemIdentifier);
    }
    assert TimedUpdate(u, r, s, now') == u by {
      TimedUpdateIdempotent(todos[k], r, s, now, now');
    }
    assert ApplyReminder(res, r, id', s, range, now') == res by {
      ApplyReminderLinked(res, r, id', s, range, now', k);
      UpdateWithSame(res, k);
    }
  }

  /** Idempotence when the reminder is not linked yet. */
  lemma ApplyUnlinkedIdempotent(todos: seq<TodoItem>, r: Reminder, id: Uuid, id': Uuid, s: TimeSettings, range: TimeRange, now: int, now': int)
    requires UniqueIds(todos) && id !in Ids(todos) && FirstReminderLinked(todos, r.calendarItemIdentifier).None?
    ensures var res := ApplyReminder(todos, r, id, s, range, now);
      ApplyReminder(res, r, id', s, range, now') == res
  {
    var res := ApplyReminder(todos, r, id, s, range, now);
    if r.dueDate.Some? && !r.isCompleted && InDayRange(r, range) {
      var t := NewReminderTodo(id, r, s, now);
      assert res == todos + [t];
      AppendedIsFirst(todos, t, r.calendarItemIdentifier);
      NewReminderTodoFixed(id, r, s, now, now');
      AppendKeepsUniqueIds(todos, t);
      ApplyReminderLinked(res, r, id', s, range, now', |todos|);
      UpdateWithSame(res, |todos|);
    }
  }

  /** Appending an item with a fresh UUID keeps UUIDs unique. */
  lemma AppendKeepsUniqueIds(todos: seq<TodoItem>, added: TodoItem)
    requires UniqueIds(todos) && added.id !in Ids(todos)
    ensures UniqueIds(todos + [added])
  {
    var r := todos + [added];
    forall i, j | 0 <= i < j < |r| ensures r[i].id != r[j].id {
      if j == |todos| {
        assert r[i] in todos;
      }
    }
  }

  /** Applying the same reminder a second time changes nothing. */
  lemma ApplyReminderIdempotent(todos: seq<TodoItem>, r: Reminder, id: Uuid, id': Uuid, s: TimeSettings, range: TimeRange, now: int, now': int)
    requires UniqueIds(todos) && id !in Ids(todos)
    ensures var res := ApplyReminder(todos, r, id, s, range, now);
      ApplyReminder(res, r, id', s, range, now') == res
  {
    match FirstReminderLinked(todos, r.calendarItemIdentifier)
    case Some(k) =>
      if todos[k].startTime.None? {
        ApplyAppCreatedIdempotent(todos, r, id, id', s, range, now, now', k);
      } else if r.dueDate.Some? {
        ApplyTimedIdempotent(todos, r, id, id', s, range, now, now', k);
      }
    case None => ApplyUnlinkedIdempotent(todos, r, id, id', s, range, now, now');
  }

  /** The fetched reminders carry distinct identifiers. */
  predicate DistinctReminderIds(rs: seq<Reminder>) {
    forall i, j :: 0 <= i < j < |rs| ==> rs[i].calendarItemIdentifier != rs[j].calendarItemIdentifier
  }

  /** The store already reflects `r` at time `now`: its linked item carries the reminder's data, or it is unlinked and would not be added. */
  predicate ReminderSettled(todos: seq<TodoItem>, r: Reminder, s: TimeSettings, range: TimeRange, now: int) {
    match FirstReminderLinked(todos, r.calendarItemIdentifier)
    case Some(k) =>
      if todos[k].startTime.None? then AppCreatedUpdate(todos[k], r, now) == todos[k]
      else r.dueDate.Some? ==> TimedUpdate(todos[k], r, s, now) == todos[k]
    case None => !(r.dueDate.Some? && !r.isCompleted && InDayRange(r, range))
  }

  /** With unique UUIDs, a store is settled for `r` exactly when the loop body for `r` leaves it as it is. */
  lemma ReminderSettledIff(todos: seq<TodoItem>, r: Reminder, id: Uuid, s: TimeSettings, range: TimeRange, now: int)
    requires UniqueIds(todos)
    ensures ReminderSettled(todos, r, s, range, now) <==> ApplyReminder(todos, r, id, s, range, now) == todos
  {
    match FirstReminderLinked(todos, r.calendarItemIdentifier)
    case Some(k) =>
      ApplyReminderLinked(todos, r, id, s, range, now, k);
      var res := ApplyReminder(todos, r, id, s, range, now);
      if res == todos {
        assert res[k] == todos[k];
      } else {
        UpdateWithSame(todos, k);
      }
    case None =>
  }

  /** Two stores that link `id` at the same positions, the longer one nowhere past the shorter, find it at the same place. */
  lemma FirstReminderLinkedAgree(s: seq<TodoItem>, s': seq<TodoItem>, id: string)
    requires |s| <= |s'|
    requires forall j :: 0 <= j < |s| ==> (s[j].reminderIdentifier == Some(id) <==> s'[j].reminderIdentifier == Some(id))
    requires forall j :: |s| <= j < |s'| ==> s'[j].reminderIdentifier != Some(id)
    ensures FirstReminderLinked(s', id) == FirstReminderLinked(s, id)
  {
    match FirstReminderLinked(s, id)
    case Some(k) =>
      var k' := FirstReminderLinked(s', id).value;
      assert k' == k;
    case None =>
  }

  /** Replacing an item by one with the same reminder link moves no first link. */
  lemma FirstReminderLinkedUpdate(s: seq<TodoItem>, k: nat, u: TodoItem, id: string)
    requires k < |s| && u.reminderIdentifier == s[k].reminderIdentifier
    ensures FirstReminderLinked(s[k := u], id) == FirstReminderLinked(s, id)
  {
    FirstReminderLinkedAgree(s, s[k := u], id);
  }

  /** Appending an item linked elsewhere moves no first link. */
  lemma FirstReminderLinkedAppend(s: seq<TodoItem>, t: TodoItem, id: string)
    requires t.reminderIdentifier != Some(id)
    ensures FirstReminderLinked(s + [t], id) == FirstReminderLinked(s, id)
  {
    FirstReminderLinkedAgree(s, s + [t], id);
  }

  /** A store whose first link to `r` sits at the same place, on the same item, is settled for `r` as well. */
  lemma ReminderSettledTransfer(todos: seq<TodoItem>, res: seq<TodoItem>, r: Reminder, s: TimeSettings, range: TimeRange, now: int)
    requires ReminderSettled(todos, r, s, range, now)
    requires FirstReminderLinked(res, r.calendarItemIdentifier) == FirstReminderLinked(todos, r.calendarItemIdentifier)
    requires FirstReminderLinked(todos, r.calendarItemIdentifier).Some? ==>
      var k := FirstReminderLinked(todos, r.calendarItemIdentifier).value; res[k] == todos[k]
    ensures ReminderSettled(res, r, s, range, now)
  {
  }

  /** The loop body for another reminder keeps the store settled for `r`. */
  lemma ReminderSettledAfterOther(todos: seq<TodoItem>, r: Reminder, f: Reminder, id: Uuid, s: TimeSettings, range: TimeRange, now: int, now': int)
    requires UniqueIds(todos) && ReminderSettled(todos, r, s, range, now')
    requires r.calendarItemIdentifier != f.calendarItemIdentifier
    ensures ReminderSettled(ApplyReminder(todos, f, id, s, range, now), r, s, range, now')
  {
    var rid := r.calendarItemIdentifier;
    match FirstReminderLinked(todos, f.calendarItemIdentifier) {
    case Some(kf) =>
      ApplyReminderLinked(todos, f, id, s, range, now, kf);
      if todos[kf].startTime.None? {
        AppCreatedUpdateIdempotent(todos[kf], f, now, now);
        FirstReminderLinkedUpdate(todos, kf, AppCreatedUpdate(todos[kf], f, now), rid);
      } else if f.dueDate.Some? {
        TimedUpdateIdempotent(todos[kf], f, s, now, now);
        FirstReminderLinkedUpdate(todos, kf, TimedUpdate(todos[kf], f, s, now), rid);
      }
    case None =>
      if f.dueDate.Some? {
        FirstReminderLinkedAppend(todos, NewReminderTodo(id, f, s, now), rid);
      }
    }
    ReminderSettledTransfer(todos, ApplyReminder(todos, f, id, s, range, now), r, s, range, now');
  }

  /** The loop body for `r` leaves the store settled for `r`, whenever the next run happens. */
  lemma ReminderSettledAfterSame(todos: seq<TodoItem>, r: Reminder, id: Uuid, s: TimeSettings, range: TimeRange, now: int, now': int)
    requires UniqueIds(todos) && UniqueReminderLinks(todos) && id !in Ids(todos)
    ensures ReminderSettled(ApplyReminder(todos, r, id, s, range, now), r, s, range, now')
  {
    var res := ApplyReminder(todos, r, id, s, range, now);
    ApplyReminderKeepsUnique(todos, r, id, s, range, now);
    ApplyReminderIdempotent(todos, r, id, id, s, range, now, now');
    ReminderSettledIff(res, r, id, s, range, now');
  }

  /** Dropping the last reminder keeps the identifiers distinct. */
  lemma DistinctReminderIdsInit(rs: seq<Reminder>)
    requires rs != [] && DistinctReminderIds(rs)
    ensures DistinctReminderIds(rs[..|rs| - 1])
  {
    var init := rs[..|rs| - 1];
    forall a, b | 0 <= a < b < |init| ensures init[a].calendarItemIdentifier != init[b].calendarItemIdentifier {
      assert init[a] == rs[a] && init[b] == rs[b];
    }
  }

  /** Before the last step of the loop the store still has unique UUIDs and links, and the next UUID is fresh. */
  lemma ApplyRemindersBeforeLast(todos: seq<TodoItem>, rs: seq<Reminder>, newId: nat -> Uuid, s: TimeSettings, range: TimeRange, now: int)
    requires rs != [] && UniqueIds(todos) && UniqueReminderLinks(todos) && FreshIds(newId, todos, |rs|)
    ensures var prev := ApplyReminders(todos, rs[..|rs| - 1], newId, s, range, now);
      UniqueIds(prev) && UniqueReminderLinks(prev) && newId(|rs| - 1) !in Ids(prev) &&
      FreshIds(newId, todos, |rs| - 1)
  {
    ApplyRemindersKeepsUnique(todos, rs[..|rs| - 1], newId, s, range, now);
    NextIdFresh(newId, todos, |rs| - 1);
  }

  /** After the loop over `rs`, the store is settled for each of them, whenever the next run happens. */
  lemma {:induction false} ApplyRemindersSettled(todos: seq<TodoItem>, rs: seq<Reminder>, newId: nat -> Uuid,
      s: TimeSettings, range: TimeRange, now: int, now': int, i: nat)
    requires UniqueIds(todos) && UniqueReminderLinks(todos) && FreshIds(newId, todos, |rs|) && DistinctReminderIds(rs)
    requires i < |rs|
    ensures ReminderSettled(ApplyReminders(todos, rs, newId, s, range, now), rs[i], s, range, now')
  {
    var init := rs[..|rs| - 1];
    var last := rs[|rs| - 1];
    var prev := ApplyReminders(todos, init, newId, s, range, now);
    ApplyRemindersBeforeLast(todos, rs, newId, s, range, now);
    if i < |rs| - 1 {
      assert init[i] == rs[i];
      DistinctReminderIdsInit(rs);
      ApplyRemindersSettled(todos, init, newId, s, range, now, now', i);
      ReminderSettledAfterOther(prev, rs[i], last, newId(|rs| - 1), s, range, now, now');
    } else {
      ReminderSettledAfterSame(prev, last, newId(|rs| - 1), s, range, now, now');
    }
  }

  /** A store settled for every reminder of `rs` goes through the loop over them unchanged. */
  lemma {:induction false} ReapplyRemindersSettled(todos: seq<TodoItem>, rs: seq<Reminder>, newId: nat -> Uuid,
      s: TimeSettings, range: TimeRange, now: int)
    requires UniqueIds(todos)
    requires forall i :: 0 <= i < |rs| ==> ReminderSettled(todos, rs[i], s, range, now)
    ensures ApplyReminders(todos, rs, newId, s, range, now) == todos
  {
    if rs != [] {
      var init := rs[..|rs| - 1];
      forall i | 0 <= i < |init| ensures ReminderSettled(todos, init[i], s, range, now) {
        assert init[i] == rs[i];
      }
      ReapplyRemindersSettled(todos, init, newId, s, range, now);
      ReminderSettledIff(todos, rs[|rs| - 1], newId(|rs| - 1), s, range, now);
    }
  }

  /**
   * Running the reminder loop a second time over the same fetch changes
   * nothing, whatever UUIDs and clock the second run uses.
   */
  lemma ApplyRemindersIdempotent(todos: seq<TodoItem>, rs: seq<Reminder>, newId: nat -> Uuid, newId': nat -> Uuid,
      s: TimeSettings, range: TimeRange, now: int, now': int)
    requires UniqueIds(todos) && UniqueReminderLinks(todos) && FreshIds(newId, todos, |rs|) && DistinctReminderIds(rs)
    ensures var res := ApplyReminders(todos, rs, newId, s, range, now);
      ApplyReminders(res, rs, newId', s, range, now') == res
  {
    var res := ApplyReminders(todos, rs, newId, s, range, now);
    ApplyRemindersKeepsUnique(todos, rs, newId, s, range, now);
    forall i | 0 <= i < |rs| ensures ReminderSettled(res, rs[i], s, range, now') {
      ApplyRemindersSettled(todos, rs, newId, s, range, now, now', i);
    }
    ReapplyRemindersSettled(res, rs, newId', s, range, now');
  }

  // ---------------------------------------------------------------------
  // The clean-up after the loop
  // ---------------------------------------------------------------------

  /** An unfound app-created item is dropped when the lookup no longer finds its reminder. */
  predicate PruneAppCreated(id: string, found: set<string>, reminderWithIdentifier: map<string, Reminder>) {
    id !in found && id !in reminderWithIdentifier
  }

  /** An unfound timed item is dropped when the lookup fails or finds its reminder due outside the day range. */
  predicate PruneTimed(id: string, found: set<string>, reminderWithIdentifier: map<string, Reminder>, range: TimeRange) {
    id !in found &&
    (id !in reminderWithIdentifier ||
     (reminderWithIdentifier[id].dueDate.Some? && !Contains(range, reminderWithIdentifier[id].dueDate.value)))
  }

  /** An item dropped by the clean-up loops once they have covered `doneApp` and `doneTimed`. */
  predicate Dropped(t: TodoItem, doneApp: set<string>, doneTimed: set<string>, found: set<string>,
      reminderWithIdentifier: map<string, Reminder>, range: TimeRange)
  {
    t.reminderIdentifier.Some? &&
    ((t.startTime.None? && t.reminderIdentifier.value in doneApp && PruneAppCreated(t.reminderIdentifier.value, found, reminderWithIdentifier)) ||
     (t.startTime.Some? && t.reminderIdentifier.value in doneTimed && PruneTimed(t.reminderIdentifier.value, found, reminderWithIdentifier, range)))
  }

  /** What the clean-up loops keep true: the items of `after` not yet dropped are exactly what is left. */
  ghost predicate PruneState(todos: seq<TodoItem>, after: seq<TodoItem>, doneApp: set<string>, doneTimed: set<string>,
      found: set<string>, reminderWithIdentifier: map<string, Reminder>, range: TimeRange)
  {
    UniqueIds(todos) && UniqueReminderLinks(todos) &&
    forall t :: t in todos <==> t in after && !Dropped(t, doneApp, doneTimed, found, reminderWithIdentifier, range)
  }

  /** Deleting by UUID keeps reminder links unique. */
  lemma RemoveKeepsUniqueReminderLinks(todos: seq<TodoItem>, id: Uuid)
    requires UniqueReminderLinks(todos) && UniqueIds(todos)
    ensures UniqueReminderLinks(RemoveById(todos, id)) && UniqueIds(RemoveById(todos, id))
  {
    var next := RemoveById(todos, id);
    RemoveByIdKeepsUniqueIds(todos, id);
    forall i, j | 0 <= i < j < |next| && next[i].reminderIdentifier.Some?
      ensures next[i].reminderIdentifier != next[j].reminderIdentifier
    {
      assert next[i] in todos && next[j] in todos;
      var a :| 0 <= a < |todos| && todos[a] == next[i];
      var b :| 0 <= b < |todos| && todos[b] == next[j];
      assert next[i].id != next[j].id;
    }
  }

  /** Deleting the position `i` of a store with unique UUIDs removes exactly that item. */
  lemma RemoveOne(todos: seq<TodoItem>, i: nat)
    requires UniqueIds(todos) && i < |todos|
    ensures forall t :: t in RemoveById(todos, todos[i].id) <==> t in todos && t != todos[i]
  {
    forall t | t in todos && t.id == todos[i].id ensures t == todos[i] {
      var j :| 0 <= j < |todos| && todos[j] == t;
    }
  }

  /** One step of the first clean-up loop, for the app-created identifier `id`, preserves `PruneState`. */
  lemma PruneAppStep(todos: seq<TodoItem>, after: seq<TodoItem>, doneApp: set<string>, doneTimed: set<string>, id: string,
      found: set<string>, reminderWithIdentifier: map<string, Reminder>, range: TimeRange)
    requires PruneState(todos, after, doneApp, doneTimed, found, reminderWithIdentifier, range) && id !in doneApp
    ensures var k := FirstReminderLinkedOfKind(todos, id, false);
      var next := if PruneAppCreated(id, found, reminderWithIdentifier) && k.Some? then RemoveById(todos, todos[k.value].id) else todos;
      PruneState(next, after, doneApp + {id}, doneTimed, found, reminderWithIdentifier, range)
  {
    var k := FirstReminderLinkedOfKind(todos, id, false);
    if PruneAppCreated(id, found, reminderWithIdentifier) && k.Some? {
      var i := k.value;
      RemoveOne(todos, i);
      RemoveKeepsUniqueReminderLinks(todos, todos[i].id);
      forall t | t in todos && t.reminderIdentifier == Some(id) ensures t == todos[i] {
        var j :| 0 <= j < |todos| && todos[j] == t;
        assert j == i;
      }
    }
  }

  /** One step of the second clean-up loop, for the timed identifier `id`, preserves `PruneState`. */
  lemma PruneTimedStep(todos: seq<TodoItem>, after: seq<TodoItem>, doneApp: set<string>, doneTimed: set<string>, id: string,
      found: set<string>, reminderWithIdentifier: map<string, Reminder>, range: TimeRange)
    requires PruneState(todos, after, doneApp, doneTimed, found, reminderWithIdentifier, range) && id !in doneTimed
    ensures var k := FirstReminderLinkedOfKind(todos, id, true);
      var next := if PruneTimed(id, found, reminderWithIdentifier, range) && k.Some? then RemoveById(todos, todos[k.value].id) else todos;
      PruneState(next, after, doneApp, doneTimed + {id}, found, reminderWithIdentifier, range)
  {
    var k := FirstReminderLinkedOfKind(todos, id, true);
    if PruneTimed(id, found, reminderWithIdentifier, range) && k.Some? {
      var i := k.value;
      RemoveOne(todos, i);
      RemoveKeepsUniqueReminderLinks(todos, todos[i].id);
      forall t | t in todos && t.reminderIdentifier == Some(id) ensures t == todos[i] {
        var j :| 0 <= j < |todos| && todos[j] == t;
        assert j == i;
      }
    }
  }

  /** The body of the reminder loop for one fetched reminder. */
  method ReconcileReminder(todoStore: TodoStore, reminder: Reminder, id: Uuid, timeSettings: TimeSettings, range: TimeRange, now: int)
    modifies todoStore
    ensures todoStore.todos == ApplyReminder(old(todoStore.todos), reminder, id, timeSettings, range, now)
  {
    var reminderIdentifier := reminder.calendarItemIdentifier;
    var existingTodo := FirstReminderLinked(todoStore.todos, reminderIdentifier);
    if existingTodo.Some? && todoStore.todos[existingTodo.value].startTime.None? {
      var updatedTodo := todoStore.todos[existingTodo.value];
      updatedTodo := updatedTodo.(title := reminder.title, memo := reminder.notes);
      if reminder.isCompleted && updatedTodo.status != Completed {
        updatedTodo := updatedTodo.(status := Completed, completedAt := Some(now));
      } else if !reminder.isCompleted && updatedTodo.status == Completed {
        updatedTodo := updatedTodo.(status := NotStarted, completedAt := None);
      }
      todoStore.UpdateTodo(updatedTodo);
      return;
    }
    if reminder.dueDate.None? {
      return;
    }
    var dueDate := reminder.dueDate.value;
    var isInDayRange := InDayRange(reminder, range);
    if existingTodo.Some? {
      var timeCategory := GetTimeCategoryForReminder(timeSettings, reminder);
      var updatedTodo := todoStore.todos[existingTodo.value];
      updatedTodo := updatedTodo.(title := reminder.title, memo := reminder.notes, timeCategory := timeCategory, startTime := Some(dueDate));
      if reminder.isCompleted && updatedTodo.status != Completed {
        updatedTodo := updatedTodo.(status := Completed, completedAt := Some(now));
      } else if !reminder.isCompleted && updatedTodo.status == Completed {
        updatedTodo := updatedTodo.(status := NotStarted, completedAt := None);
      }
      todoStore.UpdateTodo(updatedTodo);
    } else if !reminder.isCompleted && isInDayRange {
      var timeCategory := GetTimeCategoryForReminder(timeSettings, reminder);
      var todo := TodoItem(id, reminder.title, reminder.notes, MustDo, timeCategory, NotStarted, now, None,
        Some(reminderIdentifier), None, Some(dueDate));
      todoStore.AddTodo(todo);
    }
  }

  /** Taking one more element of a sequence appends it. */
  lemma SliceExtend<T>(s: seq<T>, i: nat)
    requires i < |s|
    ensures s[..i + 1] == s[..i] + [s[i]]
  {
  }

  /** The first `c` of the first `c + 1` elements are the first `c`. */
  lemma SliceOfSlice<T>(s: seq<T>, c: nat)
    requires c < |s|
    ensures s[..c + 1][..c] == s[..c] && s[..c + 1][c] == s[c]
  {
  }

  /** The reminder loop over one calendar's reminders, which follow the `processed` ones. */
  method ReconcileCalendar(todoStore: TodoStore, reminders: seq<Reminder>, position: nat, found: set<string>,
      newId: nat -> Uuid, timeSettings: TimeSettings, range: TimeRange, now: int,
      ghost before: seq<TodoItem>, ghost processed: seq<Reminder>)
    returns (foundReminderIdentifiers: set<string>)
    requires position == |processed| && found == FoundIds(processed)
    requires todoStore.todos == ApplyReminders(before, processed, newId, timeSettings, range, now)
    modifies todoStore
    ensures foundReminderIdentifiers == FoundIds(processed + reminders)
    ensures todoStore.todos == ApplyReminders(before, processed + reminders, newId, timeSettings, range, now)
  {
    foundReminderIdentifiers := found;
    assert processed + reminders[..0] == processed;
    for i := 0 to |reminders|
      invariant foundReminderIdentifiers == FoundIds(processed + reminders[..i])
      invariant todoStore.todos == ApplyReminders(before, processed + reminders[..i], newId, timeSettings, range, now)
    {
      var reminder := reminders[i];
      SliceExtend(reminders, i);
      ghost var earlier := processed + reminders[..i];
      ghost var later := processed + reminders[..i + 1];
      assert later == earlier + [reminder];
      ApplyRemindersSnoc(before, earlier, reminder, newId, timeSettings, range, now);
      foundReminderIdentifiers := foundReminderIdentifiers + {reminder.calendarItemIdentifier};
      ReconcileReminder(todoStore, reminder, newId(position + i), timeSettings, range, now);
    }
    assert reminders[..|reminders|] == reminders;
  }

  /**
   * `syncReminders(to:timeSettings:)`. Nothing happens without access to
   * reminders. Otherwise every calendar's reminders are reconciled in turn,
   * then app-created items whose reminder is gone, and timed items whose
   * reminder is gone or now due outside the day range, are deleted.
   */
  method SyncReminders(todoStore: TodoStore, timeSettings: TimeSettings, now: int, authorized: bool,
      calendars: seq<seq<Reminder>>, reminderWithIdentifier: map<string, Reminder>, newId: nat -> Uuid)
    modifies todoStore
    ensures !authorized ==> todoStore.todos == old(todoStore.todos) && todoStore.saveCount == old(todoStore.saveCount)
    ensures authorized ==>
      var range := GetCurrentTimeRange(timeSettings, now);
      var rs := Flatten(calendars);
      var after := ApplyReminders(old(todoStore.todos), rs, newId, timeSettings, range, now);
      (UniqueIds(after) && UniqueReminderLinks(after) ==>
        PruneState(todoStore.todos, after, AppCreatedIds(old(todoStore.todos)), TimedLinkedIds(old(todoStore.todos)),
          FoundIds(rs), reminderWithIdentifier, range))
  {
    if !authorized {
      return;
    }
    var dayRange := CalendarEventSync.DayRange(timeSettings, now);
    var appCreatedReminderIdentifiers := AppCreatedIds(todoStore.todos);
    var existingReminderIdentifiers := TimedLinkedIds(todoStore.todos);
    ghost var before := todoStore.todos;
    var foundReminderIdentifiers: set<string> := {};
    ghost var processed: seq<Reminder> := [];
    var position := 0;
    for c := 0 to |calendars|
      invariant processed == Flatten(calendars[..c]) && position == |processed|
      invariant foundReminderIdentifiers == FoundIds(processed)
      invariant todoStore.todos == ApplyReminders(before, processed, newId, timeSettings, dayRange, now)
    {
      foundReminderIdentifiers := ReconcileCalendar(todoStore, calendars[c], position, foundReminderIdentifiers,
        newId, timeSettings, dayRange, now, before, processed);
      position := position + |calendars[c]|;
      processed := processed + calendars[c];
      SliceOfSlice(calendars, c);
    }
    assert calendars[..|calendars|] == calendars;
    ghost var after := todoStore.todos;
    ghost var unique := UniqueIds(after) && UniqueReminderLinks(after);
    var deletedReminderIdentifiers := appCreatedReminderIdentifiers - foundReminderIdentifiers;
    ghost var seen := appCreatedReminderIdentifiers * foundReminderIdentifiers;
    assert unique ==> PruneState(todoStore.todos, after, seen, {}, foundReminderIdentifiers, reminderWithIdentifier, dayRange);
    DeleteVanishedAppCreated(todoStore, deletedReminderIdentifiers, reminderWithIdentifier,
      after, seen, foundReminderIdentifiers, dayRange);
    assert seen + deletedReminderIdentifiers == appCreatedReminderIdentifiers;
    DeleteMovedTimed(todoStore, existingReminderIdentifiers, foundReminderIdentifiers, reminderWithIdentifier, dayRange,
      after, appCreatedReminderIdentifiers);
  }

  /** The first clean-up loop: an app-created item whose reminder the lookup no longer finds is deleted. */
  method DeleteVanishedAppCreated(todoStore: TodoStore, deletedReminderIdentifiers: set<string>,
      reminderWithIdentifier: map<string, Reminder>, ghost after: seq<TodoItem>, ghost done: set<string>,
      ghost found: set<string>, ghost range: TimeRange)
    requires deletedReminderIdentifiers !! found && deletedReminderIdentifiers !! done
    modifies todoStore
    ensures PruneState(old(todoStore.todos), after, done, {}, found, reminderWithIdentifier, range) ==>
      PruneState(todoStore.todos, after, done + deletedReminderIdentifiers, {}, found, reminderWithIdentifier, range)
  {
    ghost var valid := PruneState(todoStore.todos, after, done, {}, found, reminderWithIdentifier, range);
    var pending := deletedReminderIdentifiers;
    ghost var doneApp := done;
    while pending != {}
      invariant pending + doneApp == done + deletedReminderIdentifiers && pending !! doneApp && pending !! found
      invariant valid ==> PruneState(todoStore.todos, after, doneApp, {}, found, reminderWithIdentifier, range)
      decreases pending
    {
      var identifier :| identifier in pending;
      if valid {
        PruneAppStep(todoStore.todos, after, doneApp, {}, identifier, found, reminderWithIdentifier, range);
      }
      if identifier !in reminderWithIdentifier {
        var todo := FirstReminderLinkedOfKind(todoStore.todos, identifier, false);
        if todo.Some? {
          todoStore.DeleteTodo(todoStore.todos[todo.value]);
        }
      }
      pending := pending - {identifier};
      doneApp := doneApp + {identifier};
    }
  }

  /** The second clean-up loop: a timed item whose reminder is gone, or now due outside the day range, is deleted. */
  method DeleteMovedTimed(todoStore: TodoStore, existingReminderIdentifiers: set<string>, foundReminderIdentifiers: set<string>,
      reminderWithIdentifier: map<string, Reminder>, dayRange: TimeRange, ghost after: seq<TodoItem>, ghost doneApp: set<string>)
    modifies todoStore
    ensures PruneState(old(todoStore.todos), after, doneApp, {}, foundReminderIdentifiers, reminderWithIdentifier, dayRange) ==>
      PruneState(todoStore.todos, after, doneApp, existingReminderIdentifiers, foundReminderIdentifiers, reminderWithIdentifier, dayRange)
  {
    ghost var valid := PruneState(todoStore.todos, after, doneApp, {}, foundReminderIdentifiers, reminderWithIdentifier, dayRange);
    var pending := existingReminderIdentifiers;
    ghost var doneTimed: set<string> := {};
    while pending != {}
      invariant pending + doneTimed == existingReminderIdentifiers && pending !! doneTimed
      invariant valid ==> PruneState(todoStore.todos, after, doneApp, doneTimed, foundReminderIdentifiers, reminderWithIdentifier, dayRange)
      decreases pending
    {
      var identifier :| identifier in pending;
      if valid {
        PruneTimedStep(todoStore.todos, after, doneApp, doneTimed, identifier, foundReminderIdentifiers, reminderWithIdentifier, dayRange);
      }
      pending := pending - {identifier};
      doneTimed := doneTimed + {identifier};
      if identifier in foundReminderIdentifiers {
        continue;
      }
      if identifier !in reminderWithIdentifier {
        var todo := FirstReminderLinkedOfKind(todoStore.todos, identifier, true);
        if todo.Some? {
          todoStore.DeleteTodo(todoStore.todos[todo.value]);
        }
        continue;
      }
      var calendarItem := reminderWithIdentifier[identifier];
      if calendarItem.dueDate.None? {
        continue;
      }
      var dueDate := calendarItem.dueDate.value;
      if dueDate < dayRange.startDate || dueDate >= dayRange.endDate {
        var todo := FirstReminderLinkedOfKind(todoStore.todos, identifier, true);
        if todo.Some? {
          todoStore.DeleteTodo(todoStore.todos[todo.value]);
        }
      }
    }
  }

  // ---------------------------------------------------------------------
  // Running the pass twice
  // ---------------------------------------------------------------------

  /** The loop body for `r` leaves every item not linked to `r` where it was: such an item of the result was in the store. */
  lemma ApplyReminderUntouched(todos: seq<TodoItem>, r: Reminder, id: Uuid, s: TimeSettings, range: TimeRange, now: int, t: TodoItem)
    requires UniqueIds(todos) && t in ApplyReminder(todos, r, id, s, range, now)
    requires t.reminderIdentifier != Some(r.calendarItemIdentifier)
    ensures t in todos
  {
    match FirstReminderLinked(todos, r.calendarItemIdentifier)
    case Some(k) =>
      ApplyReminderLinked(todos, r, id, s, range, now, k);
      var res := ApplyReminder(todos, r, id, s, range, now);
      var j :| 0 <= j < |res| && res[j] == t;
      assert j != k;
      assert res[j] == todos[j];
    case None =>
  }

  /** Over the whole loop: an item of the result linked to no fetched reminder was in the store before. */
  lemma {:induction false} ApplyRemindersUntouched(todos: seq<TodoItem>, rs: seq<Reminder>, newId: nat -> Uuid,
      s: TimeSettings, range: TimeRange, now: int, t: TodoItem)
    requires UniqueIds(todos) && UniqueReminderLinks(todos) && FreshIds(newId, todos, |rs|)
    requires t in ApplyReminders(todos, rs, newId, s, range, now)
    requires t.reminderIdentifier.None? || t.reminderIdentifier.value !in FoundIds(rs)
    ensures t in todos
  {
    if rs != [] {
      var init := rs[..|rs| - 1];
      ApplyRemindersBeforeLast(todos, rs, newId, s, range, now);
      ApplyReminderUntouched(ApplyReminders(todos, init, newId, s, range, now), rs[|rs| - 1], newId(|rs| - 1), s, range, now, t);
      ApplyRemindersUntouched(todos, init, newId, s, range, now, t);
    }
  }

  /** Dropping items a pruning may drop, while keeping those linked to `r`, keeps the store settled for `r`. */
  lemma ReminderSettledAfterPrune(after: seq<TodoItem>, todos: seq<TodoItem>, r: Reminder, s: TimeSettings, range: TimeRange, now: int)
    requires UniqueReminderLinks(after) && ReminderSettled(after, r, s, range, now)
    requires forall t :: t in todos ==> t in after
    requires forall t :: t in after && t.reminderIdentifier == Some(r.calendarItemIdentifier) ==> t in todos
    ensures ReminderSettled(todos, r, s, range, now)
  {
    var rid := r.calendarItemIdentifier;
    match FirstReminderLinked(after, rid)
    case Some(k) =>
      assert after[k] in todos;
      var k1 := FirstReminderLinked(todos, rid).value;
      assert todos[k1] in after;
      var j :| 0 <= j < |after| && after[j] == todos[k1];
      assert j == k;
    case None =>
  }

  /**
   * A second `syncReminders` with the same reminders, the same lookups and
   * the same day range leaves exactly the items the first run left,
   * whatever UUIDs and clock the second run uses: every fetched reminder
   * finds its item already up to date, and nothing more is dropped.
   */
  lemma ResyncKeepsItems(todos: seq<TodoItem>, rs: seq<Reminder>, newId: nat -> Uuid, newId': nat -> Uuid,
      s: TimeSettings, range: TimeRange, now: int, now': int, reminderWithIdentifier: map<string, Reminder>,
      first: seq<TodoItem>, second: seq<TodoItem>)
    requires UniqueIds(todos) && UniqueReminderLinks(todos) && FreshIds(newId, todos, |rs|) && DistinctReminderIds(rs)
    requires PruneState(first, ApplyReminders(todos, rs, newId, s, range, now), AppCreatedIds(todos), TimedLinkedIds(todos),
      FoundIds(rs), reminderWithIdentifier, range)
    requires PruneState(second, ApplyReminders(first, rs, newId', s, range, now'), AppCreatedIds(first), TimedLinkedIds(first),
      FoundIds(rs), reminderWithIdentifier, range)
    ensures forall t :: t in second <==> t in first
  {
    var found := FoundIds(rs);
    var after := ApplyReminders(todos, rs, newId, s, range, now);
    ApplyRemindersKeepsUnique(todos, rs, newId, s, range, now);
    forall i | 0 <= i < |rs| ensures ReminderSettled(first, rs[i], s, range, now') {
      ApplyRemindersSettled(todos, rs, newId, s, range, now, now', i);
      FoundIdsMembers(rs, rs[i].calendarItemIdentifier);
      ReminderSettledAfterPrune(after, first, rs[i], s, range, now');
    }
    ReapplyRemindersSettled(first, rs, newId', s, range, now');
    forall t | t in first ensures !Dropped(t, AppCreatedIds(first), TimedLinkedIds(first), found, reminderWithIdentifier, range) {
      if t.reminderIdentifier.Some? && t.reminderIdentifier.value !in found {
        ApplyRemindersUntouched(todos, rs, newId, s, range, now, t);
        if t.startTime.None? {
          assert t.reminderIdentifier.value in AppCreatedIds(todos);
        } else {
          assert t.reminderIdentifier.value in TimedLinkedIds(todos);
        }
      }
    }
  }
}
