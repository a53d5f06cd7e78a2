/**
 * The "current time category" panel of the main screen
 * (Views/CurrentTimeCategoryView.swift): the left and right arrows that step
 * the shown category, the to-dos created inside today's window for that
 * category, the number still open, the title of the first open one and the
 * minutes left in the category. The shown category belongs to the enclosing
 * screen; the panel holds it by reference and changes it in place.
 */
module CurrentTimeCategoryView {
  import opened Wrappers
  import opened Lists
  import opened Clock
  import opened TodoItem
  import opened TimeSettings
  import opened TodoStore
  import opened MainViewHelper

  /** The category the panel shows, which its arrow buttons change. */
  class CurrentTimeCategoryView {
    var currentTimeCategory: TimeCategory

    constructor (currentTimeCategory: TimeCategory)
      ensures this.currentTimeCategory == currentTimeCategory
    {
      this.currentTimeCategory := currentTimeCategory;
    }

    /** The right arrow: one category later, nothing after night. */
    method MoveToNextTimeCategory()
      modifies this
      ensures NextCategory(old(currentTimeCategory)).Some? ==> currentTimeCategory == NextCategory(old(currentTimeCategory)).value
      ensures old(currentTimeCategory) == Night ==> currentTimeCategory == Night
    {
      var categories := AllCases;
      var currentIndex := CategoryIndex(currentTimeCategory);
      if currentIndex < |categories| - 1 {
        currentTimeCategory := categories[currentIndex + 1];
      }
    }

    /** The left arrow: one category earlier, nothing before morning. */
    method MoveToPreviousTimeCategory()
      modifies this
      ensures PreviousCategory(old(currentTimeCategory)).Some? ==> currentTimeCategory == PreviousCategory(old(currentTimeCategory)).value
      ensures old(currentTimeCategory) == Morning ==> currentTimeCategory == Morning
    {
      var categories := AllCases;
      var currentIndex := CategoryIndex(currentTimeCategory);
      if currentIndex > 0 {
        currentTimeCategory := categories[currentIndex - 1];
      }
    }

    /** Pressing right and then left comes back, except from night, where the right arrow does nothing. */
    method NextThenPrevious()
      modifies this
      ensures old(currentTimeCategory) != Night ==> currentTimeCategory == old(currentTimeCategory)
      ensures old(currentTimeCategory) == Night ==> currentTimeCategory == Evening
    {
      MoveToNextTimeCategory();
      MoveToPreviousTimeCategory();
      NextPreviousInverse(old(currentTimeCategory), currentTimeCategory);
    }
  }

  // ---------------------------------------------------------------------
  // The panel's list and what is derived from it
  // ---------------------------------------------------------------------

  /** The panel's filter: created inside the window and in the shown category; the start time plays no part. */
  predicate ShownInPanel(t: TodoItem, range: TimeRange, current: TimeCategory) {
    Contains(range, t.createdAt) && t.timeCategory == Some(current)
  }

  predicate Open(t: TodoItem) {
    t.status != Completed
  }

  /** `getCurrentTimeTodos`: the items created in today's window for the shown category, in display order. */
  function GetCurrentTimeTodos(todos: seq<TodoItem>, current: TimeCategory, s: TimeSettings, now: int): (r: seq<TodoItem>)
    ensures Sorted(r)
    ensures forall x :: (multiset(r)[x] ==
      if x.timeCategory == Some(current) && Contains(GetCurrentTimeRange(s, now), x.createdAt) then multiset(todos)[x] else 0)
  {
    var range := GetCurrentTimeRange(s, now);
    SortTodos(Filter(todos, (t: TodoItem) => ShownInPanel(t, range, current)))
  }

  /** `getIncompleteCount`. */
  function GetIncompleteCount(todos: seq<TodoItem>, current: TimeCategory, s: TimeSettings, now: int): nat {
    |Filter(GetCurrentTimeTodos(todos, current, s, now), Open)|
  }

  /** The open count does not depend on the display order: it counts the store's open items shown in the panel. */
  lemma IncompleteCountCountsStore(todos: seq<TodoItem>, current: TimeCategory, s: TimeSettings, now: int)
    ensures var range := GetCurrentTimeRange(s, now);
      GetIncompleteCount(todos, current, s, now) ==
      |Filter(todos, (t: TodoItem) => ShownInPanel(t, range, current) && Open(t))|
  {
    var range := GetCurrentTimeRange(s, now);
    var shown := Filter(todos, (t: TodoItem) => ShownInPanel(t, range, current));
    FilterPermutation(GetCurrentTimeTodos(todos, current, s, now), shown, Open);
    FilterFilter(todos, (t: TodoItem) => ShownInPanel(t, range, current), Open,
      (t: TodoItem) => ShownInPanel(t, range, current) && Open(t));
  }

  /** The title the panel shows when there is nothing open. */
  const PlaceholderTitle: string := "할 일"

  /** `getTopTodoTitle`: the title of the first open item in display order, or the placeholder. */
  function GetTopTodoTitle(todos: seq<TodoItem>, current: TimeCategory, s: TimeSettings, now: int): (r: string)
    ensures var range := GetCurrentTimeRange(s, now);
      (forall x :: x in todos && ShownInPanel(x, range, current) ==> !Open(x)) ==> r == PlaceholderTitle
  {
    var open := Filter(GetCurrentTimeTodos(todos, current, s, now), Open);
    if |open| > 0 then open[0].title else PlaceholderTitle
  }

  /** The panel's list holds exactly the store's items that the panel shows. */
  lemma InPanelList(todos: seq<TodoItem>, current: TimeCategory, s: TimeSettings, now: int, z: TodoItem)
    ensures z in GetCurrentTimeTodos(todos, current, s, now) <==> z in todos && ShownInPanel(z, GetCurrentTimeRange(s, now), current)
  {
    var list := GetCurrentTimeTodos(todos, current, s, now);
    assert z in list <==> multiset(list)[z] > 0;
    assert z in todos <==> multiset(todos)[z] > 0;
  }

  /**
   * When some shown item is open, the title is that of an open shown item
   * which no other open shown item comes before in display order.
   */
  lemma TopTodoTitleIsFirstOpen(todos: seq<TodoItem>, current: TimeCategory, s: TimeSettings, now: int, y: TodoItem)
    requires y in todos && ShownInPanel(y, GetCurrentTimeRange(s, now), current) && Open(y)
    ensures exists x :: (x in todos && ShownInPanel(x, GetCurrentTimeRange(s, now), current) && Open(x) &&
      GetTopTodoTitle(todos, current, s, now) == x.title &&
      forall z :: z in todos && ShownInPanel(z, GetCurrentTimeRange(s, now), current) && Open(z) ==> !SortBefore(z, x))
  {
    var list := GetCurrentTimeTodos(todos, current, s, now);
    InPanelList(todos, current, s, now, y);
    assert y in Filter(list, Open);
    FirstOpenInPanel(todos, current, s, now);
  }

  /** The first open item of the panel's list is a shown open store item that no other one comes before. */
  lemma FirstOpenInPanel(todos: seq<TodoItem>, current: TimeCategory, s: TimeSettings, now: int)
    requires |Filter(GetCurrentTimeTodos(todos, current, s, now), Open)| > 0
    ensures var x := Filter(GetCurrentTimeTodos(todos, current, s, now), Open)[0];
      && x in todos && ShownInPanel(x, GetCurrentTimeRange(s, now), current) && Open(x)
      && forall z :: z in todos && ShownInPanel(z, GetCurrentTimeRange(s, now), current) && Open(z) ==> !SortBefore(z, x)
  {
    var range := GetCurrentTimeRange(s, now);
    var list := GetCurrentTimeTodos(todos, current, s, now);
    FirstOpenOfSorted(list);
    var x := Filter(list, Open)[0];
    InPanelList(todos, current, s, now, x);
    forall z | z in todos && ShownInPanel(z, range, current) && Open(z)
      ensures !SortBefore(z, x)
    {
      InPanelList(todos, current, s, now, z);
    }
  }

  /** In an ordered list, no open element comes before the first open one in display order. */
  lemma FirstOpenOfSorted(list: seq<TodoItem>)
    requires Sorted(list) && |Filter(list, Open)| > 0
    ensures var x := Filter(list, Open)[0];
      x in list && Open(x) && forall z :: z in list && Open(z) ==> !SortBefore(z, x)
  {
    var open := Filter(list, Open);
    FilterHeadIsFirst(list, Open);
    var k := FirstIndex(list, Open).value;
    forall z | z in list && Open(z)
      ensures !SortBefore(z, open[0])
    {
      var i :| 0 <= i < |list| && list[i] == z;
      if i > k {
        assert !SortBefore(list[i], list[k]);
      } else if i == k {
        SortBeforeIrreflexive(z);
      }
    }
  }

  lemma SortBeforeIrreflexive(a: TodoItem)
    ensures !SortBefore(a, a)
  {
    LexLessIrreflexive(a.id);
  }

  // ---------------------------------------------------------------------
  // Minutes left
  // ---------------------------------------------------------------------

  /** Swift's `Int(x)` of a quotient: division truncating toward zero. */
  function TruncatingDiv(a: int, b: int): (q: int)
    requires b > 0
    ensures a >= 0 ==> q == a / b
    ensures a < 0 ==> q == -((-a) / b)
  {
    if a >= 0 then a / b else -((-a) / b)
  }

  /**
   * The end `getRemainingMinutes` counts down to. Between midnight and the
   * night's end the day still counts as the previous one: the first three
   * categories end on yesterday's date, and night ends today; otherwise the
   * first three end today and night ends tomorrow.
   */
  function RemainingEndDate(current: TimeCategory, s: TimeSettings, now: int): (endDate: int)
    ensures SecondOfDay(endDate) == WindowEnd(s, current) * 60
    ensures current == Night ==> now < endDate <= now + SecondsPerDay
    ensures current != Night ==> (StartOfDay(endDate) ==
      StartOfDay(now) - (if MinuteOf(now) < s.nightEnd then SecondsPerDay else 0))
  {
    var today := StartOfDay(now);
    var currentTimeInMinutes := MinuteOf(now);
    var nightEndTimeInMinutes := s.nightEnd;
    if current == Night then
      if currentTimeInMinutes < nightEndTimeInMinutes then
        AtMinute(today, nightEndTimeInMinutes)
      else
        ShiftByDays(today, 1);
        AtMinute(today + SecondsPerDay, nightEndTimeInMinutes)
    else
      var end := WindowEnd(s, current);
      if currentTimeInMinutes < nightEndTimeInMinutes then
        ShiftByDays(today, -1);
        AtMinute(today - SecondsPerDay, end)
      else
        AtMinute(today, end)
  }

  /** `getRemainingMinutes`: whole minutes from `now` to the end, never negative. */
  function GetRemainingMinutes(current: TimeCategory, s: TimeSettings, now: int): (r: nat)
    ensures var interval := RemainingEndDate(current, s, now) - now;
      (r == 0 <==> interval < 60) && (interval >= 60 ==> r * 60 <= interval < r * 60 + 60)
  {
    var endDate := RemainingEndDate(current, s, now);
    var timeInterval := endDate - now;
    var minutes := TruncatingDiv(timeInterval, 60);
    if minutes > 0 then minutes else 0
  }

  /** At night the countdown is to the next night's end, which is less than a day away. */
  lemma NightCountdownBelowADay(s: TimeSettings, now: int)
    ensures GetRemainingMinutes(Night, s, now) <= 1440
  {
  }

  /**
   * Between midnight and the night's end, the first three categories count
   * down to yesterday's end, which has passed: the panel shows zero minutes.
   */
  lemma AfterMidnightDayCategoriesShowZero(current: TimeCategory, s: TimeSettings, now: int)
    requires current != Night && MinuteOf(now) < s.nightEnd
    ensures GetRemainingMinutes(current, s, now) == 0
  {
  }

  /**
   * Outside that stretch, the first three categories count down to their end
   * today: zero once it has passed, the whole minutes left before it.
   */
  lemma DayCategoryCountsToEndToday(current: TimeCategory, s: TimeSettings, now: int)
    requires current != Night && MinuteOf(now) >= s.nightEnd
    ensures var end := AtMinute(StartOfDay(now), WindowEnd(s, current));
      GetRemainingMinutes(current, s, now) == if end - now >= 0 then (end - now) / 60 else 0
  {
    var e := RemainingEndDate(current, s, now);
    assert e == AtMinute(StartOfDay(now), WindowEnd(s, current));
  }
}
