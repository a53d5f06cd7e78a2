/**
 * The day window and the list queries of the main screen
 * (Views/MainViewHelper.swift). A "day" runs from one morning start to the
 * next; the store is passed as its list of to-dos and the current instant
 * as `now`.
 */
module MainViewHelper {
  import opened Wrappers
  import opened Lists
  import opened Clock
  import opened TodoItem
  import opened TimeSettings
  import opened TodoStore

  /** A half-open interval of instants `[startDate, endDate)`. */
  datatype TimeRange = TimeRange(startDate: int, endDate: int)

  predicate Contains(r: TimeRange, t: int) {
    r.startDate <= t < r.endDate
  }

  /**
   * `getCurrentTimeRange`: today's morning start to tomorrow's when `now` is
   * past today's morning start, and yesterday's to today's otherwise.
   */
  function GetCurrentTimeRange(s: TimeSettings, now: int): (r: TimeRange)
    ensures Contains(r, now)
    ensures r.endDate - r.startDate == SecondsPerDay
    ensures SecondOfDay(r.startDate) == s.morningStart * 60
    ensures r.startDate < StartOfDay(now) <==> SecondOfDay(now) < s.morningStart * 60
  {
    var todayMorningStart := AtMinute(StartOfDay(now), s.morningStart);
    var tomorrowMorningStart := todayMorningStart + SecondsPerDay;
    if now >= todayMorningStart && now < tomorrowMorningStart then
      TimeRange(todayMorningStart, tomorrowMorningStart)
    else
      ShiftByDays(todayMorningStart, -1);
      TimeRange(todayMorningStart - SecondsPerDay, todayMorningStart)
  }

  /** There is only one day-long window that starts at the morning start and contains `now`. */
  lemma CurrentTimeRangeUnique(s: TimeSettings, now: int, w: TimeRange)
    requires Contains(w, now) && w.endDate - w.startDate == SecondsPerDay
    requires SecondOfDay(w.startDate) == s.morningStart * 60
    ensures w == GetCurrentTimeRange(s, now)
  {
    var r := GetCurrentTimeRange(s, now);
    var d := w.startDate - r.startDate;
    assert d % SecondsPerDay == 0 by {
      assert (w.startDate - SecondOfDay(w.startDate)) % SecondsPerDay == 0;
      assert (r.startDate - SecondOfDay(r.startDate)) % SecondsPerDay == 0;
    }
    assert -SecondsPerDay < d < SecondsPerDay;
  }

  /** The filter shared by the three queries: untimed items always, timed ones when they start in the window. */
  predicate InTimeRange(t: TodoItem, r: TimeRange) {
    t.startTime.None? || Contains(r, t.startTime.value)
  }

  /** `getTodayTodos`: today's items in store order. */
  function GetTodayTodos(todos: seq<TodoItem>, s: TimeSettings, now: int): (r: seq<TodoItem>)
    ensures forall x :: multiset(r)[x] == if InTimeRange(x, GetCurrentTimeRange(s, now)) then multiset(todos)[x] else 0
    ensures IsSubsequence(r, todos)
  {
    var range := GetCurrentTimeRange(s, now);
    FilterSubsequence(todos, (t: TodoItem) => InTimeRange(t, range));
    Filter(todos, (t: TodoItem) => InTimeRange(t, range))
  }

  /** `getTodosForCategory`: today's items of one category (`None`: uncategorised), in display order. */
  function GetTodosForCategory(category: Option<TimeCategory>, todos: seq<TodoItem>, s: TimeSettings, now: int): (r: seq<TodoItem>)
    ensures Sorted(r)
    ensures forall x :: (multiset(r)[x] ==
      if InTimeRange(x, GetCurrentTimeRange(s, now)) && x.timeCategory == category then multiset(todos)[x] else 0)
  {
    var range := GetCurrentTimeRange(s, now);
    SortTodos(Filter(todos, (t: TodoItem) => InTimeRange(t, range) && t.timeCategory == category))
  }

  /** `getTodosByType`: today's items of one type, in display order. */
  function GetTodosByType(kind: TodoType, todos: seq<TodoItem>, s: TimeSettings, now: int): (r: seq<TodoItem>)
    ensures Sorted(r)
    ensures forall x :: (multiset(r)[x] ==
      if InTimeRange(x, GetCurrentTimeRange(s, now)) && x.kind == kind then multiset(todos)[x] else 0)
  {
    var range := GetCurrentTimeRange(s, now);
    SortTodos(Filter(todos, (t: TodoItem) => InTimeRange(t, range) && t.kind == kind))
  }

  /** One category query counts an item as often as today's list does when the item has that category, else never. */
  lemma CategoryCount(category: Option<TimeCategory>, todos: seq<TodoItem>, s: TimeSettings, now: int, x: TodoItem)
    ensures multiset(GetTodosForCategory(category, todos, s, now))[x] ==
      if x.timeCategory == category then multiset(GetTodayTodos(todos, s, now))[x] else 0
  {
    var range := GetCurrentTimeRange(s, now);
    var c := if InTimeRange(x, range) then multiset(todos)[x] else 0;
    assert multiset(GetTodayTodos(todos, s, now))[x] == c;
    assert multiset(GetTodosForCategory(category, todos, s, now))[x] == if x.timeCategory == category then c else 0;
  }

  /** Queries that each keep one category's share of `whole` together split it. */
  lemma SplitByCategory(whole: multiset<TodoItem>, share: Option<TimeCategory> -> multiset<TodoItem>)
    requires forall c, x :: share(c)[x] == if x.timeCategory == c then whole[x] else 0
    ensures whole == share(Some(Morning)) + share(Some(Daytime)) + share(Some(Evening)) + share(Some(Night)) + share(None)
  {
    var split := share(Some(Morning)) + share(Some(Daytime)) + share(Some(Evening)) + share(Some(Night)) + share(None);
    forall x ensures whole[x] == split[x] {
      assert share(x.timeCategory)[x] == whole[x];
      match x.timeCategory {
        case None =>
        case Some(Morning) =>
        case Some(Daytime) =>
        case Some(Evening) =>
        case Some(Night) =>
      }
    }
  }

  /** The four categories and "uncategorised" split today's items: together they hold each exactly once. */
  lemma CategoriesPartitionToday(todos: seq<TodoItem>, s: TimeSettings, now: int)
    ensures multiset(GetTodayTodos(todos, s, now)) ==
      multiset(GetTodosForCategory(Some(Morning), todos, s, now)) +
      multiset(GetTodosForCategory(Some(Daytime), todos, s, now)) +
      multiset(GetTodosForCategory(Some(Evening), todos, s, now)) +
      multiset(GetTodosForCategory(Some(Night), todos, s, now)) +
      multiset(GetTodosForCategory(None, todos, s, now))
  {
    var share := (c: Option<TimeCategory>) => multiset(GetTodosForCategory(c, todos, s, now));
    forall c, x ensures share(c)[x] == if x.timeCategory == c then multiset(GetTodayTodos(todos, s, now))[x] else 0 {
      CategoryCount(c, todos, s, now, x);
    }
    SplitByCategory(multiset(GetTodayTodos(todos, s, now)), share);
  }

  /** Each of today's items is counted by exactly one of the two type queries. */
  lemma TypeCounts(todos: seq<TodoItem>, s: TimeSettings, now: int, x: TodoItem)
    ensures multiset(GetTodayTodos(todos, s, now))[x] ==
      multiset(GetTodosByType(MustDo, todos, s, now))[x] + multiset(GetTodosByType(WantToDo, todos, s, now))[x]
  {
    var range := GetCurrentTimeRange(s, now);
    var c := if InTimeRange(x, range) then multiset(todos)[x] else 0;
    assert multiset(GetTodayTodos(todos, s, now))[x] == c;
    assert multiset(GetTodosByType(MustDo, todos, s, now))[x] == if x.kind == MustDo then c else 0;
    assert multiset(GetTodosByType(WantToDo, todos, s, now))[x] == if x.kind == WantToDo then c else 0;
  }

  /** The two types split today's items likewise. */
  lemma TypesPartitionToday(todos: seq<TodoItem>, s: TimeSettings, now: int)
    ensures multiset(GetTodayTodos(todos, s, now)) ==
      multiset(GetTodosByType(MustDo, todos, s, now)) + multiset(GetTodosByType(WantToDo, todos, s, now))
  {
    forall x {
      TypeCounts(todos, s, now, x);
    }
  }
}
