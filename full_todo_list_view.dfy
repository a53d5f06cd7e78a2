/**
 * The "all to-dos" sheet (Views/FullTodoListView.swift): the items created
 * on today's calendar date, optionally narrowed to one category, in display
 * order. Unlike the main screen, "today" here runs from midnight to
 * midnight, and the creation time decides, not the start time.
 */
module FullTodoListView {
  import opened Wrappers
  import opened Lists
  import opened Clock
  import opened TodoItem
  import opened TodoStore

  /** The sheet's date test: the start of the item's creation day lies in `[today, tomorrow)`. */
  predicate CreatedOnDay(t: TodoItem, today: int) {
    var todoDate := StartOfDay(t.createdAt);
    todoDate >= today && todoDate < today + SecondsPerDay
  }

  /** The category chip: none selected shows every category and uncategorised items too. */
  predicate MatchesSelection(t: TodoItem, selectedCategory: Option<TimeCategory>) {
    selectedCategory.None? || t.timeCategory == selectedCategory
  }

  /** `filteredTodos`. */
  function FilteredTodos(todos: seq<TodoItem>, selectedCategory: Option<TimeCategory>, now: int): (r: seq<TodoItem>)
    ensures Sorted(r)
    ensures forall x :: (multiset(r)[x] ==
      if CreatedOnDay(x, StartOfDay(now)) && MatchesSelection(x, selectedCategory) then multiset(todos)[x] else 0)
  {
    var today := StartOfDay(now);
    var dated := Filter(todos, (t: TodoItem) => CreatedOnDay(t, today));
    var shown := if selectedCategory.Some? then Filter(dated, (t: TodoItem) => t.timeCategory == selectedCategory) else dated;
    SortTodos(shown)
  }

  /**
   * The date test selects exactly the items created on the same calendar
   * date as `now`, that is, created between today's midnight and the next.
   */
  lemma CreatedOnDayIsSameDate(t: TodoItem, now: int)
    ensures CreatedOnDay(t, StartOfDay(now)) <==> StartOfDay(t.createdAt) == StartOfDay(now)
    ensures CreatedOnDay(t, StartOfDay(now)) <==> StartOfDay(now) <= t.createdAt < StartOfDay(now) + SecondsPerDay
  {
    var d := StartOfDay(t.createdAt) - StartOfDay(now);
    assert d % SecondsPerDay == 0;
    if CreatedOnDay(t, StartOfDay(now)) {
      assert 0 <= d < SecondsPerDay;
    }
  }

  /** Selecting a category keeps, of the unfiltered sheet, exactly the items of that category. */
  lemma SelectionNarrowsSheet(todos: seq<TodoItem>, c: TimeCategory, now: int)
    ensures forall x :: (multiset(FilteredTodos(todos, Some(c), now))[x] ==
      if x.timeCategory == Some(c) then multiset(FilteredTodos(todos, None, now))[x] else 0)
    ensures multiset(FilteredTodos(todos, Some(c), now)) <= multiset(FilteredTodos(todos, None, now))
  {
  }
}
