/**
 * The home-screen widget's timeline entry (myTodoWidget/Widget/
 * TodoWidgetProvider.swift): the to-dos of the current time category within
 * today's window, the first five of them in display order, how many are still
 * open, and how long the category has left to run. The stored to-dos and
 * settings arrive as already-decoded values, absent when nothing could be
 * decoded; the clock reading is `now`.
 */
module TodoWidgetProvider {
  import opened Wrappers
  import opened Lists
  import opened Clock
  import opened TodoItem
  import opened TimeSettings
  import opened TodoStore
  import opened MainViewHelper

  /** The value a widget timeline entry carries; `timeRemaining` is in seconds. */
  datatype TodoWidgetEntry = TodoWidgetEntry(
    date: int,
    currentTimeCategory: TimeCategory,
    todos: seq<TodoItem>,
    timeSettings: TimeSettings,
    timeRemaining: int,
    remainingTodosCount: nat)

  /** The widget shows at most this many to-dos. */
  const DisplayLimit: nat := 5

  // ---------------------------------------------------------------------
  // The widget's copy of the display order
  // ---------------------------------------------------------------------

  /** `Int.max`, the rank given to a status missing from `statusOrder`. */
  const IntMax: int := 0x7fff_ffff_ffff_ffff

  const StatusOrder: seq<TodoStatus> := [InProgress, NotStarted, Completed]

  /** `statusOrder.firstIndex(of: status) ?? Int.max`. */
  function StatusIndex(st: TodoStatus): int {
    match FirstIndex(StatusOrder, (x: TodoStatus) => x == st)
    case Some(i) => i
    case None => IntMax
  }

  /** The comparator of the widget's `sortTodos`, written as the widget writes it. */
  predicate WidgetSortBefore(a: TodoItem, b: TodoItem) {
    var status1 := StatusIndex(a.status);
    var status2 := StatusIndex(b.status);
    if status1 != status2 then status1 < status2
    else if a.kind != b.kind then a.kind == MustDo
    else if a.startTime.Some? && b.startTime.Some? then a.startTime.value < b.startTime.value
    else if a.startTime.Some? then true
    else if b.startTime.Some? then false
    else LexLess(a.id, b.id)
  }

  /** Every status is found in `statusOrder`, at the rank the app's comparator gives it. */
  lemma StatusIndexIsRank(st: TodoStatus)
    ensures StatusIndex(st) == StatusRank(st)
  {
    var p := (x: TodoStatus) => x == st;
    assert StatusOrder[0] == InProgress && StatusOrder[1] == NotStarted && StatusOrder[2] == Completed;
    match st {
      case InProgress =>
        assert p(StatusOrder[0]);
      case NotStarted =>
        assert !p(StatusOrder[0]) && p(StatusOrder[1]);
      case Completed =>
        assert !p(StatusOrder[0]) && !p(StatusOrder[1]) && p(StatusOrder[2]);
    }
  }

  /** The widget's comparator is the app's: the widget sorts exactly as the main screen does. */
  lemma WidgetComparatorAgrees(a: TodoItem, b: TodoItem)
    ensures WidgetSortBefore(a, b) <==> SortBefore(a, b)
  {
    StatusIndexIsRank(a.status);
    StatusIndexIsRank(b.status);
  }

  // ---------------------------------------------------------------------
  // The end of the current category
  // ---------------------------------------------------------------------

  /**
   * `getTimeCategoryEndDate`: the category's end time on today's date, or a
   * day later when that moment is not after `now`.
   */
  function GetTimeCategoryEndDate(category: TimeCategory, s: TimeSettings, now: int): (endDate: int)
    ensures now < endDate <= now + SecondsPerDay
    ensures SecondOfDay(endDate) == WindowEnd(s, category) * 60
  {
    var todayStart := StartOfDay(now);
    var candidate := AtMinute(todayStart, WindowEnd(s, category));
    if candidate <= now then
      ShiftByDays(candidate, 1);
      candidate + SecondsPerDay
    else
      candidate
  }

  /** The end date is the next moment after `now` at the category's end time: no earlier one exists. */
  lemma EndDateIsNextOccurrence(category: TimeCategory, s: TimeSettings, now: int, t: int)
    requires now < t <= now + SecondsPerDay
    requires SecondOfDay(t) == WindowEnd(s, category) * 60
    ensures t == GetTimeCategoryEndDate(category, s, now)
  {
    var e := GetTimeCategoryEndDate(category, s, now);
    var d := t - e;
    assert d % SecondsPerDay == 0 by {
      assert (t - SecondOfDay(t)) % SecondsPerDay == 0;
      assert (e - SecondOfDay(e)) % SecondsPerDay == 0;
    }
    assert -SecondsPerDay < d < SecondsPerDay;
  }

  // ---------------------------------------------------------------------
  // The entry
  // ---------------------------------------------------------------------

  /** The widget's filter: in today's window (or untimed) and in the current category. */
  predicate WidgetShows(t: TodoItem, range: TimeRange, current: TimeCategory) {
    InTimeRange(t, range) && t.timeCategory == Some(current)
  }

  function CountIncomplete(s: seq<TodoItem>): nat {
    |Filter(s, (t: TodoItem) => t.status != Completed)|
  }

  /** The shown items of the current category, in display order, before the cut to five. */
  function FilteredTodos(todos: seq<TodoItem>, range: TimeRange, current: TimeCategory): seq<TodoItem> {
    Filter(todos, (t: TodoItem) => WidgetShows(t, range, current))
  }

  /** `Array(sortTodos(filteredTodos).prefix(5))`. */
  function DisplayTodos(todos: seq<TodoItem>, range: TimeRange, current: TimeCategory): (r: seq<TodoItem>)
    ensures |r| <= DisplayLimit
  {
    Prefix(SortTodos(FilteredTodos(todos, range, current)), DisplayLimit)
  }

  /** `max(0, timeCategoryEndDate.timeIntervalSince(now))`, in whole seconds. */
  function TimeRemaining(category: TimeCategory, s: TimeSettings, now: int): (r: int)
    ensures 0 < r <= SecondsPerDay
    ensures SecondOfDay(now + r) == WindowEnd(s, category) * 60
  {
    var timeCategoryEndDate := GetTimeCategoryEndDate(category, s, now);
    if timeCategoryEndDate - now > 0 then timeCategoryEndDate - now else 0
  }

  /**
   * `loadWidgetData`: the decoded to-dos (none when decoding fails) and
   * settings (the defaults when decoding fails), classified, filtered,
   * sorted and cut to five; the open count is taken before the cut.
   */
  function LoadWidgetData(storedTodos: Option<seq<TodoItem>>, storedSettings: Option<TimeSettings>, now: int): (r: TodoWidgetEntry)
    ensures r.date == now
    ensures r.timeSettings == (if storedSettings.Some? then storedSettings.value else DefaultSettings)
    ensures r.currentTimeCategory == GetCurrentTimeCategory(r.timeSettings, now)
    ensures storedTodos.None? ==> r.todos == [] && r.remainingTodosCount == 0
    ensures |r.todos| <= DisplayLimit
    ensures r.timeRemaining == TimeRemaining(r.currentTimeCategory, r.timeSettings, now)
  {
    var todos := if storedTodos.Some? then storedTodos.value else [];
    var timeSettings := if storedSettings.Some? then storedSettings.value else DefaultSettings;
    var currentTimeCategory := GetCurrentTimeCategory(timeSettings, now);
    var range := GetCurrentTimeRange(timeSettings, now);
    var displayTodos := DisplayTodos(todos, range, currentTimeCategory);
    var remainingTodos := CountIncomplete(FilteredTodos(todos, range, currentTimeCategory));
    var timeRemaining := TimeRemaining(currentTimeCategory, timeSettings, now);
    TodoWidgetEntry(now, currentTimeCategory, displayTodos, timeSettings, timeRemaining, remainingTodos)
  }

  /** A prefix of an ordered list is ordered. */
  lemma PrefixSorted(s: seq<TodoItem>, n: nat)
    requires Sorted(s)
    ensures Sorted(Prefix(s, n))
  {
  }

  /** The main screen's list for the current category, which the widget's list is cut from. */
  function CategoryList(todos: seq<TodoItem>, s: TimeSettings, now: int): (r: seq<TodoItem>)
    ensures Sorted(r)
  {
    GetTodosForCategory(Some(GetCurrentTimeCategory(s, now)), todos, s, now)
  }

  /** The widget's filtered list, before sorting, holds what the main screen's list holds. */
  lemma WidgetFilterMatchesMainScreen(todos: seq<TodoItem>, s: TimeSettings, now: int)
    ensures var range := GetCurrentTimeRange(s, now);
      var c := GetCurrentTimeCategory(s, now);
      SortTodos(FilteredTodos(todos, range, c)) == CategoryList(todos, s, now)
  {
    var range := GetCurrentTimeRange(s, now);
    var c := GetCurrentTimeCategory(s, now);
    FilterAgree(todos, (t: TodoItem) => WidgetShows(t, range, c),
      (t: TodoItem) => InTimeRange(t, range) && t.timeCategory == Some(c));
  }

  /** The entry shows the first five items of the main screen's list for the current category, in its order. */
  lemma WidgetShowsMainScreenHead(todos: seq<TodoItem>, storedSettings: Option<TimeSettings>, now: int)
    ensures var r := LoadWidgetData(Some(todos), storedSettings, now);
      r.todos == Prefix(CategoryList(todos, r.timeSettings, now), DisplayLimit) && Sorted(r.todos)
  {
    var r := LoadWidgetData(Some(todos), storedSettings, now);
    WidgetFilterMatchesMainScreen(todos, r.timeSettings, now);
    PrefixSorted(CategoryList(todos, r.timeSettings, now), DisplayLimit);
  }

  /**
   * The open count covers the whole list for the current category, not only
   * the five shown; it matches what is shown when everything fits.
   */
  lemma WidgetCountsWholeList(todos: seq<TodoItem>, storedSettings: Option<TimeSettings>, now: int)
    ensures var r := LoadWidgetData(Some(todos), storedSettings, now);
      var category := CategoryList(todos, r.timeSettings, now);
      && r.remainingTodosCount == CountIncomplete(category)
      && (|category| <= DisplayLimit ==> r.remainingTodosCount == CountIncomplete(r.todos))
  {
    var r := LoadWidgetData(Some(todos), storedSettings, now);
    var s := r.timeSettings;
    var range := GetCurrentTimeRange(s, now);
    var c := GetCurrentTimeCategory(s, now);
    var filtered := FilteredTodos(todos, range, c);
    WidgetFilterMatchesMainScreen(todos, s, now);
    FilterPermutation(filtered, CategoryList(todos, s, now), (t: TodoItem) => t.status != Completed);
  }
}
