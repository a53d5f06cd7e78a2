/**
 * The app's single mutable store of to-dos and its operations
 * (Models/TodoStore.swift). Persistence through UserDefaults is left out:
 * each save is counted in the ghost field `saveCount`.
 */
module TodoStore {
  import opened Wrappers
  import opened Lists
  import opened TodoItem
  import opened TimeSettings
  import opened Clock
  import opened ReminderOperations

  // ---------------------------------------------------------------------
  // Lookup and editing by UUID
  // ---------------------------------------------------------------------

  /** No two items share a UUID (what `UUID()` provides in practice). */
  predicate UniqueIds(s: seq<TodoItem>) {
    forall i, j :: 0 <= i < j < |s| ==> s[i].id != s[j].id
  }

  function Ids(s: seq<TodoItem>): set<Uuid> {
    set t | t in s :: t.id
  }

  /** The UUIDs that `newId`, standing in for `UUID()`, hands out for the first `n` new items. */
  function IssuedIds(newId: nat -> Uuid, n: nat): set<Uuid> {
    if n == 0 then {} else IssuedIds(newId, n - 1) + {newId(n - 1)}
  }

  /** The UUIDs `newId` hands out for the first `n` new items are distinct and not yet in the store. */
  predicate FreshIds(newId: nat -> Uuid, todos: seq<TodoItem>, n: nat) {
    (forall i, j :: 0 <= i < j < n ==> newId(i) != newId(j)) && forall i :: 0 <= i < n ==> newId(i) !in Ids(todos)
  }

  /** The UUID handed out for the `m`-th new item differs from those handed out for the first `k`. */
  lemma {:induction false} IssuedBefore(newId: nat -> Uuid, m: nat, k: nat)
    requires k <= m && forall i :: 0 <= i < m ==> newId(i) != newId(m)
    ensures newId(m) !in IssuedIds(newId, k)
  {
    if k > 0 {
      IssuedBefore(newId, m, k - 1);
    }
  }

  /** With fresh UUIDs, the next one is neither in the store nor among those already handed out. */
  lemma NextIdFresh(newId: nat -> Uuid, todos: seq<TodoItem>, n: nat)
    requires FreshIds(newId, todos, n + 1)
    ensures newId(n) !in Ids(todos) + IssuedIds(newId, n)
  {
    IssuedBefore(newId, n, n);
  }

  /** `todos.firstIndex(where: { $0.id == id })`. */
  function IndexOfId(s: seq<TodoItem>, id: Uuid): (r: Option<nat>)
    ensures r.Some? ==> r.value < |s| && s[r.value].id == id
    ensures r.Some? ==> forall j :: 0 <= j < r.value ==> s[j].id != id
    ensures r.None? <==> id !in Ids(s)
  {
    if s == [] then None
    else if s[0].id == id then Some(0)
    else
      assert Ids(s) == {s[0].id} + Ids(s[1..]) by {
        assert s == [s[0]] + s[1..];
      }
      match IndexOfId(s[1..], id)
      case None => None
      case Some(k) => Some(k + 1)
  }

  /** In a store without repeated UUIDs, the item at `i` is the one `IndexOfId` finds. */
  lemma IndexOfUniqueId(s: seq<TodoItem>, i: nat)
    requires UniqueIds(s) && i < |s|
    ensures IndexOfId(s, s[i].id) == Some(i)
  {
  }

  /**
   * `updateTodo`: the first item with the same UUID takes the new value;
   * nothing happens when there is none.
   */
  function ReplaceById(s: seq<TodoItem>, t: TodoItem): (r: seq<TodoItem>)
    ensures |r| == |s|
    ensures forall j :: 0 <= j < |s| ==> r[j] == if IndexOfId(s, t.id) == Some(j) then t else s[j]
  {
    match IndexOfId(s, t.id)
    case None => s
    case Some(index) => s[index := t]
  }

  /** Replacing the item at `i` by a value with the same UUID, in a store without repeated UUIDs. */
  lemma ReplaceAt(s: seq<TodoItem>, i: nat, t: TodoItem)
    requires UniqueIds(s) && i < |s| && t.id == s[i].id
    ensures ReplaceById(s, t) == s[i := t]
    ensures UniqueIds(s[i := t])
  {
    IndexOfUniqueId(s, i);
  }

  /** `removeAll { $0.id == id }`: every item with that UUID goes, the rest keep their order. */
  function RemoveById(s: seq<TodoItem>, id: Uuid): (r: seq<TodoItem>)
    ensures forall x :: x in r <==> x in s && x.id != id
  {
    if s == [] then []
    else
      assert s == [s[0]] + s[1..];
      (if s[0].id != id then [s[0]] else []) + RemoveById(s[1..], id)
  }

  /** `removeAll` keeps every other item as often as it occurred, and no item with the UUID. */
  lemma {:induction false} RemoveByIdCounts(s: seq<TodoItem>, id: Uuid)
    ensures forall x :: multiset(RemoveById(s, id))[x] == if x.id == id then 0 else multiset(s)[x]
  {
    if s != [] {
      RemoveByIdCounts(s[1..], id);
      assert s == [s[0]] + s[1..];
    }
  }

  /** `removeAll` keeps the relative order of the items it keeps. */
  lemma {:induction false} RemoveByIdSubsequence(s: seq<TodoItem>, id: Uuid)
    ensures IsSubsequence(RemoveById(s, id), s)
  {
    if s != [] {
      RemoveByIdSubsequence(s[1..], id);
      if s[0].id != id {
        assert RemoveById(s, id)[1..] == RemoveById(s[1..], id);
      } else {
        assert RemoveById(s, id) == RemoveById(s[1..], id);
      }
    }
  }

  // ---------------------------------------------------------------------
  // The status cycle
  // ---------------------------------------------------------------------

  /** The status after one tap: not started, in progress, completed, and round again. */
  function NextStatus(st: TodoStatus): TodoStatus {
    match st
    case NotStarted => InProgress
    case InProgress => Completed
    case Completed => NotStarted
  }

  /** The edit `toggleStatus` makes to the stored item; reaching "completed" stamps the time, leaving it clears it. */
  function Toggled(t: TodoItem, now: int): (r: TodoItem)
    ensures r.status == NextStatus(t.status)
    ensures r.completedAt == match t.status
      case NotStarted => t.completedAt
      case InProgress => Some(now)
      case Completed => None
    ensures r == t.(status := r.status, completedAt := r.completedAt)
  {
    match t.status
    case NotStarted => t.(status := InProgress)
    case InProgress => t.(status := Completed, completedAt := Some(now))
    case Completed => t.(status := NotStarted, completedAt := None)
  }

  /** Toggling keeps "a completion time exactly when completed", and three toggles restore the status. */
  lemma ToggleKeepsCompletionConsistent(t: TodoItem, n1: int, n2: int, n3: int)
    ensures CompletionConsistent(t) ==> CompletionConsistent(Toggled(t, n1))
    ensures Toggled(Toggled(Toggled(t, n1), n2), n3).status == t.status
    ensures t.status != NotStarted ==> Toggled(Toggled(Toggled(t, n1), n2), n3) == Toggled(Toggled(Toggled(t, n3), n3), n3)
  {
  }

  /** The store after `toggleStatus(todo)`: the first item with that UUID is toggled, or nothing changes. */
  function ToggleById(s: seq<TodoItem>, id: Uuid, now: int): (r: seq<TodoItem>)
    ensures |r| == |s| && Ids(r) == Ids(s)
    ensures forall j :: 0 <= j < |s| ==> r[j] == if IndexOfId(s, id) == Some(j) then Toggled(s[j], now) else s[j]
  {
    match IndexOfId(s, id)
    case None => s
    case Some(i) =>
      assert forall t :: t in s[i := Toggled(s[i], now)] ==> t.id in Ids(s);
      assert forall u :: u in Ids(s) ==> u in Ids(s[i := Toggled(s[i], now)]) by {
        forall u | u in Ids(s) ensures u in Ids(s[i := Toggled(s[i], now)]) {
          var t :| t in s && t.id == u;
          var j :| 0 <= j < |s| && s[j] == t;
          assert s[i := Toggled(s[i], now)][j].id == u;
        }
      }
      s[i := Toggled(s[i], now)]
  }

  // ---------------------------------------------------------------------
  // Moving between time categories
  // ---------------------------------------------------------------------

  /** A to-do whose time came from a reminder loses that time when it is moved by one category. */
  predicate DropsReminderTime(t: TodoItem) {
    t.startTime.Some? && t.reminderIdentifier.Some?
  }

  function WithoutReminderTime(t: TodoItem): TodoItem {
    if DropsReminderTime(t) then t.(startTime := None) else t
  }

  /**
   * The value `moveTodoToNextTimeCategory` writes for `todo`, or none when
   * the to-do has no category or is already at night.
   */
  function MovedToNext(t: TodoItem): (r: Option<TodoItem>)
    ensures r.None? <==> t.timeCategory.None? || t.timeCategory == Some(Night)
    ensures r.Some? ==> (r.value.timeCategory.Some? &&
      CategoryIndex(r.value.timeCategory.value) == CategoryIndex(t.timeCategory.value) + 1)
    ensures r.Some? ==> r.value.startTime == (if DropsReminderTime(t) then None else t.startTime)
    ensures r.Some? ==> r.value == t.(timeCategory := r.value.timeCategory, startTime := r.value.startTime)
  {
    match t.timeCategory
    case None => None
    case Some(c) =>
      match NextCategory(c)
      case None => None
      case Some(n) => Some(WithoutReminderTime(t).(timeCategory := Some(n)))
  }

  /** The value `moveTodoToPreviousTimeCategory` writes, or none without a category or at morning. */
  function MovedToPrevious(t: TodoItem): (r: Option<TodoItem>)
    ensures r.None? <==> t.timeCategory.None? || t.timeCategory == Some(Morning)
    ensures r.Some? ==> (r.value.timeCategory.Some? &&
      CategoryIndex(r.value.timeCategory.value) + 1 == CategoryIndex(t.timeCategory.value))
    ensures r.Some? ==> r.value.startTime == (if DropsReminderTime(t) then None else t.startTime)
    ensures r.Some? ==> r.value == t.(timeCategory := r.value.timeCategory, startTime := r.value.startTime)
  {
    match t.timeCategory
    case None => None
    case Some(c) =>
      match PreviousCategory(c)
      case None => None
      case Some(p) => Some(WithoutReminderTime(t).(timeCategory := Some(p)))
  }

  /** A step forward undone by a step back restores the category; only a reminder-derived time is lost. */
  lemma MoveRoundTrip(t: TodoItem)
    requires MovedToNext(t).Some?
    ensures MovedToPrevious(MovedToNext(t).value) == Some(WithoutReminderTime(t))
  {
  }

  // ---------------------------------------------------------------------
  // The display order
  // ---------------------------------------------------------------------

  /** Position in `statusOrder` = [inProgress, notStarted, completed]. */
  function StatusRank(st: TodoStatus): (r: nat)
    ensures r < 3
  {
    match st
    case InProgress => 0
    case NotStarted => 1
    case Completed => 2
  }

  /** Swift's `<` on two `uuidString`s: lexicographic by character. */
  predicate LexLess(a: string, b: string)
    decreases |a|
  {
    if |b| == 0 then false
    else if |a| == 0 then true
    else if a[0] != b[0] then a[0] < b[0]
    else LexLess(a[1..], b[1..])
  }

  lemma {:induction false} LexLessIrreflexive(a: string)
    ensures !LexLess(a, a)
  {
    if |a| > 0 {
      LexLessIrreflexive(a[1..]);
    }
  }

  lemma {:induction false} LexLessTransitive(a: string, b: string, c: string)
    requires LexLess(a, b) && LexLess(b, c)
    ensures LexLess(a, c)
  {
    if |a| > 0 && a[0] == b[0] && b[0] == c[0] {
      LexLessTransitive(a[1..], b[1..], c[1..]);
    }
  }

  lemma {:induction false} LexLessTotal(a: string, b: string)
    ensures a == b || LexLess(a, b) || LexLess(b, a)
  {
    if |a| > 0 && |b| > 0 && a[0] == b[0] {
      LexLessTotal(a[1..], b[1..]);
      assert a == [a[0]] + a[1..] && b == [b[0]] + b[1..];
    }
  }

  /**
   * The comparator of `sortTodos`: in progress before not started before
   * completed; then must-do before want-to-do; then items with a start time
   * earliest first and ahead of items without one; two items without a start
   * time by UUID string.
   */
  predicate SortBefore(a: TodoItem, b: TodoItem) {
    var status1 := StatusRank(a.status);
    var status2 := StatusRank(b.status);
    if status1 != status2 then status1 < status2
    else if a.kind != b.kind then a.kind == MustDo
    else if a.startTime.Some? && b.startTime.Some? then a.startTime.value < b.startTime.value
    else if a.startTime.Some? then true
    else if b.startTime.Some? then false
    else LexLess(a.id, b.id)
  }

  /** "Not before" is transitive for UUID strings. */
  lemma LexLessNegTransitive(a: string, b: string, c: string)
    ensures !LexLess(a, b) && !LexLess(b, c) ==> !LexLess(a, c)
  {
    if !LexLess(a, b) && !LexLess(b, c) && LexLess(a, c) {
      LexLessTotal(a, b);
      LexLessTotal(b, c);
      if a != b && b != c {
        LexLessTransitive(c, b, a);
        LexLessTransitive(a, c, a);
        LexLessIrreflexive(a);
      }
    }
  }

  /**
   * The comparator is a strict weak order, as `sorted(by:)` demands:
   * irreflexive, transitive, and "not before" is transitive too.
   */
  lemma SortBeforeStrictWeakOrder(a: TodoItem, b: TodoItem, c: TodoItem)
    ensures !SortBefore(a, a)
    ensures SortBefore(a, b) && SortBefore(b, c) ==> SortBefore(a, c)
    ensures !SortBefore(a, b) && !SortBefore(b, c) ==> !SortBefore(a, c)
  {
    LexLessIrreflexive(a.id);
    LexLessNegTransitive(a.id, b.id, c.id);
    if LexLess(a.id, b.id) && LexLess(b.id, c.id) {
      LexLessTransitive(a.id, b.id, c.id);
    }
  }

  /** Two items of equal status and type starting at the same instant are equivalent whatever their UUIDs. */
  lemma SameStartTimeEquivalent(a: TodoItem, b: TodoItem)
    requires a.status == b.status && a.kind == b.kind
    requires a.startTime.Some? && a.startTime == b.startTime
    ensures !SortBefore(a, b) && !SortBefore(b, a)
  {
  }

  /** No later element sorts before an earlier one. */
  predicate Sorted(s: seq<TodoItem>) {
    forall i, j :: 0 <= i < j < |s| ==> !SortBefore(s[j], s[i])
  }

  lemma SortedCons(y: TodoItem, r: seq<TodoItem>)
    requires Sorted(r)
    requires forall k :: 0 <= k < |r| ==> !SortBefore(r[k], y)
    ensures Sorted([y] + r)
  {
    forall i, j | 0 <= i < j < |[y] + r| ensures !SortBefore(([y] + r)[j], ([y] + r)[i]) {
      if i > 0 {
        assert ([y] + r)[i] == r[i - 1] && ([y] + r)[j] == r[j - 1];
      }
    }
  }

  /** When the head of a sorted list is not before `x`, nothing in it is. */
  lemma NoneBefore(x: TodoItem, s: seq<TodoItem>)
    requires Sorted(s) && (s == [] || !SortBefore(s[0], x))
    ensures forall j :: 0 <= j < |s| ==> !SortBefore(s[j], x)
  {
    forall j | 0 <= j < |s| ensures !SortBefore(s[j], x) {
      SortBeforeStrictWeakOrder(s[j], s[0], x);
    }
  }

  /** The tail of a sorted list with `x` added holds nothing that sorts before the head, when the head sorts before `x`. */
  lemma TailNotBeforeHead(x: TodoItem, s: seq<TodoItem>, rest: seq<TodoItem>)
    requires Sorted(s) && s != [] && SortBefore(s[0], x)
    requires multiset(rest) == multiset(s[1..]) + multiset{x}
    ensures forall k :: 0 <= k < |rest| ==> !SortBefore(rest[k], s[0])
  {
    forall k | 0 <= k < |rest| ensures !SortBefore(rest[k], s[0]) {
      assert rest[k] in multiset(rest);
      if rest[k] == x {
        SortBeforeStrictWeakOrder(x, s[0], x);
      } else {
        assert rest[k] in multiset(s[1..]);
        var m :| 0 <= m < |s[1..]| && s[1..][m] == rest[k];
        assert s[m + 1] == rest[k];
      }
    }
  }

  /** Insertion of `x` into a sorted list, in front of the first element that is not before it. */
  function Insert(x: TodoItem, s: seq<TodoItem>): (r: seq<TodoItem>)
    requires Sorted(s)
    ensures Sorted(r)
    ensures multiset(r) == multiset(s) + multiset{x}
  {
    if s == [] || !SortBefore(s[0], x) then
      NoneBefore(x, s);
      SortedCons(x, s);
      [x] + s
    else
      var rest := Insert(x, s[1..]);
      TailNotBeforeHead(x, s, rest);
      SortedCons(s[0], rest);
      assert s == [s[0]] + s[1..];
      [s[0]] + rest
  }

  /** `sortTodos`: the same items, each as often as before, in comparator order. */
  function SortTodos(s: seq<TodoItem>): (r: seq<TodoItem>)
    ensures Sorted(r)
    ensures multiset(r) == multiset(s)
    ensures |r| == |s|
  {
    if s == [] then []
    else
      assert s == [s[0]] + s[1..];
      Insert(s[0], SortTodos(s[1..]))
  }

  /** In sorted order the statuses come in the order in progress, not started, completed. */
  lemma SortedGroupsByStatus(s: seq<TodoItem>, i: nat, j: nat)
    requires Sorted(s) && i < j < |s|
    ensures StatusRank(s[i].status) <= StatusRank(s[j].status)
    ensures s[i].status == s[j].status && s[j].kind == MustDo ==> s[i].kind == MustDo
  {
  }

  // ---------------------------------------------------------------------
  // Queries
  // ---------------------------------------------------------------------

  /** The optional type filter of `getTodos` and `getTodosWithoutTimeCategory`. */
  predicate OfType(kind: Option<TodoType>, t: TodoItem) {
    kind.None? || t.kind == kind.value
  }

  // ---------------------------------------------------------------------
  // Clean-up of old synced items
  // ---------------------------------------------------------------------

  /** Linked to a calendar event or a reminder. */
  predicate IsSynced(t: TodoItem) {
    t.calendarEventIdentifier.Some? || t.reminderIdentifier.Some?
  }

  /** `todosToProcess`: a synced item that starts before the given boundary. */
  predicate StartsBefore(t: TodoItem, boundary: int) {
    IsSynced(t) && t.startTime.Some? && t.startTime.value < boundary
  }

  /** `syncedTodosOutsideRange`: a synced item whose start is outside [from, to). */
  predicate SyncedOutside(t: TodoItem, from: int, to: int) {
    IsSynced(t) && t.startTime.Some? && !(from <= t.startTime.value < to)
  }

  /** The items of `s`, in order, that `SyncedOutside` selects. */
  function SyncedOutsideRange(s: seq<TodoItem>, from: int, to: int): (r: seq<TodoItem>)
    ensures forall t :: t in r <==> t in s && SyncedOutside(t, from, to)
  {
    Filter(s, (t: TodoItem) => SyncedOutside(t, from, to))
  }

  /** The deferral of an unfinished item: must-do, morning, starting at `to`; every other field is kept. */
  function Deferred(t: TodoItem, to: int): (r: TodoItem)
    ensures r.(kind := t.kind, timeCategory := t.timeCategory, startTime := t.startTime) == t
    ensures r.id == t.id && IsSynced(r) == IsSynced(t)
    ensures r.startTime == Some(to) && r.timeCategory == Some(Morning) && r.kind == MustDo
  {
    t.(kind := MustDo, timeCategory := Some(Morning), startTime := Some(to))
  }

  /** An element of the store during clean-up: an original item, or the deferral of one that was due. */
  ghost predicate FromOriginal(t: TodoItem, original: seq<TodoItem>, from: int, to: int) {
    t in original || exists u :: u in original && StartsBefore(u, from) && t == Deferred(u, to)
  }

  /** Two distinct members of a store without repeated UUIDs have distinct UUIDs. */
  lemma DistinctMembersDistinctIds(s: seq<TodoItem>, t: TodoItem, u: TodoItem)
    requires UniqueIds(s) && t in s && u in s && t != u
    ensures t.id != u.id
  {
    var i :| 0 <= i < |s| && s[i] == t;
    var j :| 0 <= j < |s| && s[j] == u;
    assert i != j;
    if i < j { assert s[i].id != s[j].id; } else { assert s[j].id != s[i].id; }
  }

  lemma UniqueIdsCons(a: TodoItem, r: seq<TodoItem>)
    requires UniqueIds(r) && forall t :: t in r ==> t.id != a.id
    ensures UniqueIds([a] + r)
  {
    forall i, j | 0 <= i < j < |[a] + r| ensures ([a] + r)[i].id != ([a] + r)[j].id {
      if i == 0 {
        assert ([a] + r)[j] == r[j - 1];
        assert r[j - 1] in r;
      } else {
        assert ([a] + r)[i] == r[i - 1] && ([a] + r)[j] == r[j - 1];
      }
    }
  }

  /** Removing by UUID keeps UUIDs unique. */
  lemma {:induction false} RemoveByIdKeepsUniqueIds(s: seq<TodoItem>, id: Uuid)
    requires UniqueIds(s)
    ensures UniqueIds(RemoveById(s, id))
  {
    if s != [] {
      var rest := RemoveById(s[1..], id);
      assert UniqueIds(s[1..]) by {
        forall i, j | 0 <= i < j < |s[1..]| ensures s[1..][i].id != s[1..][j].id {
          assert s[1..][i] == s[i + 1] && s[1..][j] == s[j + 1];
        }
      }
      RemoveByIdKeepsUniqueIds(s[1..], id);
      assert RemoveById(s, id) == (if s[0].id != id then [s[0]] else []) + rest;
      if s[0].id != id {
        forall t | t in rest ensures t.id != s[0].id {
          assert t in s[1..];
          var k :| 0 <= k < |s[1..]| && s[1..][k] == t;
          assert s[k + 1] == t;
        }
        UniqueIdsCons(s[0], rest);
      }
    }
  }

  /** What the clean-up keeps: every item that is not a synced item starting outside [from, to). */
  function Keeps(from: int, to: int): TodoItem -> bool {
    (t: TodoItem) => !SyncedOutside(t, from, to)
  }

  /** Filtering keeps UUIDs unique. */
  lemma {:induction false} FilterKeepsUniqueIds(s: seq<TodoItem>, p: TodoItem -> bool)
    requires UniqueIds(s)
    ensures UniqueIds(Filter(s, p))
  {
    if s != [] {
      var rest := Filter(s[1..], p);
      assert UniqueIds(s[1..]) by {
        forall i, j | 0 <= i < j < |s[1..]| ensures s[1..][i].id != s[1..][j].id {
          assert s[1..][i] == s[i + 1] && s[1..][j] == s[j + 1];
        }
      }
      FilterKeepsUniqueIds(s[1..], p);
      if p(s[0]) {
        assert Filter(s, p) == [s[0]] + rest;
        forall t | t in rest ensures t.id != s[0].id {
          var k :| 0 <= k < |s[1..]| && s[1..][k] == t;
          assert s[k + 1] == t;
        }
        UniqueIdsCons(s[0], rest);
      } else {
        assert Filter(s, p) == rest;
      }
    }
  }

  /** Removing a UUID that only items the filter drops carry leaves the filtered sequence unchanged. */
  lemma {:induction false} FilterRemoveDropped(s: seq<TodoItem>, id: Uuid, p: TodoItem -> bool)
    requires forall x :: x in s && x.id == id ==> !p(x)
    ensures Filter(RemoveById(s, id), p) == Filter(s, p)
  {
    if s != [] {
      var r, rest := RemoveById(s, id), RemoveById(s[1..], id);
      assert s[0] in s;
      FilterRemoveDropped(s[1..], id, p);
      if s[0].id != id {
        assert r == [s[0]] + rest;
        assert r[0] == s[0] && r[1..] == rest;
        assert Filter(r, p) == (if p(s[0]) then [s[0]] else []) + Filter(rest, p);
      } else {
        assert r == rest && !p(s[0]);
        assert Filter(s, p) == Filter(s[1..], p);
      }
    }
  }

  /** What clean-up keeps true of the store while it defers and deletes due items, given unique UUIDs. */
  ghost predicate CleanupPhaseOne(s: seq<TodoItem>, original: seq<TodoItem>, from: int, to: int) {
    UniqueIds(s)
    && (forall t :: t in s ==> FromOriginal(t, original, from, to))
    && (forall t :: t in original && !StartsBefore(t, from) ==> t in s)
  }

  lemma DeleteDueKeepsPhaseOne(s: seq<TodoItem>, original: seq<TodoItem>, todo: TodoItem, from: int, to: int)
    requires UniqueIds(original) && todo in original && StartsBefore(todo, from)
    requires CleanupPhaseOne(s, original, from, to)
    ensures CleanupPhaseOne(RemoveById(s, todo.id), original, from, to)
  {
    RemoveByIdKeepsUniqueIds(s, todo.id);
    forall t | t in original && !StartsBefore(t, from) ensures t.id != todo.id {
      DistinctMembersDistinctIds(original, t, todo);
    }
  }

  lemma DeferDueKeepsPhaseOne(s: seq<TodoItem>, original: seq<TodoItem>, todo: TodoItem, i: nat, from: int, to: int)
    requires UniqueIds(original) && todo in original && StartsBefore(todo, from)
    requires CleanupPhaseOne(s, original, from, to)
    requires i < |s| && s[i].id == todo.id
    ensures Deferred(s[i], to) == Deferred(todo, to)
    ensures CleanupPhaseOne(s[i := Deferred(s[i], to)], original, from, to)
  {
    var was := s[i];
    assert was in s;
    if was in original {
      if was != todo {
        DistinctMembersDistinctIds(original, was, todo);
      }
    } else {
      var u :| u in original && StartsBefore(u, from) && was == Deferred(u, to);
      if u != todo {
        DistinctMembersDistinctIds(original, u, todo);
      }
      assert Deferred(was, to) == Deferred(u, to);
    }
    forall t | t in original && !StartsBefore(t, from) ensures t in s[i := Deferred(s[i], to)] {
      assert t in s;
      var j :| 0 <= j < |s| && s[j] == t;
      if j == i {
        DistinctMembersDistinctIds(original, t, todo);
      }
      assert s[i := Deferred(s[i], to)][j] == t;
    }
    var s' := s[i := Deferred(s[i], to)];
    assert forall j :: 0 <= j < |s| ==> s'[j].id == s[j].id;
  }

  /** During clean-up, whatever shares its UUID with a due original item is itself a synced item outside the range. */
  lemma SharesDueIdOutside(s: seq<TodoItem>, original: seq<TodoItem>, todo: TodoItem, x: TodoItem, from: int, to: int)
    requires UniqueIds(original) && todo in original && StartsBefore(todo, from)
    requires CleanupPhaseOne(s, original, from, to) && x in s && x.id == todo.id
    ensures SyncedOutside(x, from, to)
  {
    assert FromOriginal(x, original, from, to);
    if x in original && x != todo {
      DistinctMembersDistinctIds(original, x, todo);
    }
  }

  /** The first loop has dealt with the due item `t`: deleted it if completed, deferred it otherwise. */
  predicate DueHandled(t: TodoItem, s: seq<TodoItem>, to: int) {
    if t.status == Completed then t.id !in Ids(s) else Deferred(t, to) in s
  }

  /**
   * The first loop's progress after `i` of the due items `due`: the clean-up
   * invariant, the items it will keep unchanged in order, the first `i` due
   * items dealt with and the others still in place.
   */
  ghost predicate DueProgress(s: seq<TodoItem>, original: seq<TodoItem>, due: seq<TodoItem>, i: nat, from: int, to: int) {
    && CleanupPhaseOne(s, original, from, to)
    && Filter(s, Keeps(from, to)) == Filter(original, Keeps(from, to))
    && i <= |due|
    && (forall j :: 0 <= j < i ==> DueHandled(due[j], s, to))
    && (forall j :: i <= j < |due| ==> due[j] in s)
  }

  /** The due items, in the order the first loop meets them: distinct UUIDs, all original, all due. */
  predicate DueList(due: seq<TodoItem>, original: seq<TodoItem>, from: int) {
    UniqueIds(due) && forall j :: 0 <= j < |due| ==> due[j] in original && StartsBefore(due[j], from)
  }

  /** Deleting the `i`-th due item, a completed one, keeps the first loop's progress. */
  lemma DeleteDueStep(s: seq<TodoItem>, original: seq<TodoItem>, due: seq<TodoItem>, i: nat, r: seq<TodoItem>, i': nat, from: int, to: int)
    requires UniqueIds(original) && DueList(due, original, from)
    requires DueProgress(s, original, due, i, from, to) && i < |due| && due[i].status == Completed
    requires r == RemoveById(s, due[i].id) && i' == i + 1
    ensures DueProgress(r, original, due, i', from, to)
  {
    var todo := due[i];
    DeleteDueKeepsPhaseOne(s, original, todo, from, to);
    forall x | x in s && x.id == todo.id ensures !Keeps(from, to)(x) {
      SharesDueIdOutside(s, original, todo, x, from, to);
    }
    FilterRemoveDropped(s, todo.id, Keeps(from, to));
    DeleteHandled(s, due, i, r, to);
  }

  /** Deleting the `i`-th due item, a completed one, deals with it and leaves the others as they were. */
  lemma DeleteHandled(s: seq<TodoItem>, due: seq<TodoItem>, i: nat, r: seq<TodoItem>, to: int)
    requires UniqueIds(due) && i < |due| && due[i].status == Completed
    requires r == RemoveById(s, due[i].id)
    requires forall j :: 0 <= j < i ==> DueHandled(due[j], s, to)
    requires forall j :: i <= j < |due| ==> due[j] in s
    ensures forall j :: 0 <= j < i + 1 ==> DueHandled(due[j], r, to)
    ensures forall j :: i + 1 <= j < |due| ==> due[j] in r
  {
    var todo := due[i];
    forall j | 0 <= j < i + 1 ensures DueHandled(due[j], r, to) {
      if j < i && due[j].status != Completed {
        assert Deferred(due[j], to).id != todo.id;
      }
    }
    forall j | i + 1 <= j < |due| ensures due[j] in r {
      assert due[j].id != todo.id;
    }
  }

  /** One step of the first loop: delete the due item `t` if completed, else defer the first item with its UUID. */
  function DueStep(s: seq<TodoItem>, t: TodoItem, to: int): seq<TodoItem> {
    if t.status == Completed then RemoveById(s, t.id)
    else match IndexOfId(s, t.id)
      case None => s
      case Some(k) => s[k := Deferred(s[k], to)]
  }

  /** The first loop after its first `n` steps over `due`. */
  function DueEach(s: seq<TodoItem>, due: seq<TodoItem>, n: nat, to: int): seq<TodoItem>
    requires n <= |due|
  {
    if n == 0 then s else DueStep(DueEach(s, due, n - 1, to), due[n - 1], to)
  }

  /** Before the first loop the store `s` is the original one, and the progress invariant holds. */
  lemma DueProgressStart(original: seq<TodoItem>, due: seq<TodoItem>, s: seq<TodoItem>, from: int, to: int)
    requires UniqueIds(original) && DueList(due, original, from) && s == original
    ensures DueProgress(s, original, due, 0, from, to)
  {
    forall j | 0 <= j < |due| ensures due[j] in original {
    }
  }

  /** With unique UUIDs, every prefix of the first loop keeps its progress invariant. */
  lemma {:induction false} DueEachProgress(original: seq<TodoItem>, due: seq<TodoItem>, n: nat, s: seq<TodoItem>, from: int, to: int)
    requires UniqueIds(original) && DueList(due, original, from) && n <= |due|
    requires s == DueEach(original, due, n, to)
    ensures DueProgress(s, original, due, n, from, to)
    decreases n, 1
  {
    if n == 0 {
      DueProgressStart(original, due, s, from, to);
    } else {
      DueEachStep(original, due, n - 1, DueEach(original, due, n - 1, to), s, n, from, to);
    }
  }

  /** One more step of the first loop takes the store `s` it has reached after `i` steps to `s'`, keeping its progress. */
  lemma {:induction false} DueEachStep(original: seq<TodoItem>, due: seq<TodoItem>, i: nat, s: seq<TodoItem>, s': seq<TodoItem>, i': nat, from: int, to: int)
    requires UniqueIds(original) && DueList(due, original, from) && i < |due|
    requires s == DueEach(original, due, i, to)
    requires s' == DueStep(s, due[i], to) && i' == i + 1
    ensures DueProgress(s', original, due, i', from, to)
    decreases i, 2
  {
    DueEachProgress(original, due, i, s, from, to);
    var todo := due[i];
    if todo.status == Completed {
      assert s' == RemoveById(s, todo.id);
      DeleteDueStep(s, original, due, i, s', i', from, to);
    } else {
      assert todo in s;
      var k := IndexOfId(s, todo.id).value;
      assert s' == s[k := Deferred(s[k], to)];
      DeferDueStep(s, original, due, i, k, s', i', from, to);
    }
  }

  /** Once the first loop has gone through every due item, each due original item has been dealt with. */
  lemma DueAllHandled(s: seq<TodoItem>, original: seq<TodoItem>, due: seq<TodoItem>, from: int, to: int)
    requires DueProgress(s, original, due, |due|, from, to)
    requires forall t :: t in original && StartsBefore(t, from) ==> t in due
    ensures forall t :: t in original && StartsBefore(t, from) ==> DueHandled(t, s, to)
  {
    forall t | t in original && StartsBefore(t, from) ensures DueHandled(t, s, to) {
      var j :| 0 <= j < |due| && due[j] == t;
    }
  }

  /** What the whole first loop, over the due items `due`, makes of the store: `s`. */
  lemma DueLoopDone(original: seq<TodoItem>, due: seq<TodoItem>, s: seq<TodoItem>, from: int, to: int)
    requires forall t :: t in due <==> t in original && StartsBefore(t, from)
    requires UniqueIds(original) ==> UniqueIds(due)
    requires s == DueEach(original, due, |due|, to)
    ensures |due| == 0 ==> s == original
    ensures |due| > 0 <==> exists t :: t in original && StartsBefore(t, from)
    ensures UniqueIds(original) ==> forall t :: t in original && StartsBefore(t, from) ==> DueHandled(t, s, to)
    ensures UniqueIds(original) ==> CleanupPhaseOne(s, original, from, to)
    ensures UniqueIds(original) ==> Filter(s, Keeps(from, to)) == Filter(original, Keeps(from, to))
  {
    if |due| > 0 {
      assert due[0] in due;
    }
    if UniqueIds(original) {
      assert DueList(due, original, from) by {
        forall j | 0 <= j < |due| ensures due[j] in original && StartsBefore(due[j], from) {
          assert due[j] in due;
        }
      }
      DueEachProgress(original, due, |due|, s, from, to);
      DueAllHandled(s, original, due, from, to);
    }
  }

  /** Overwriting an item by one with the same UUID keeps the set of UUIDs and every item with another UUID. */
  lemma UpdateSameId(s: seq<TodoItem>, k: nat, v: TodoItem)
    requires k < |s| && v.id == s[k].id
    ensures Ids(s[k := v]) == Ids(s)
    ensures forall y :: y in s && y.id != v.id ==> y in s[k := v]
  {
    var s' := s[k := v];
    forall x | x in Ids(s') ensures x in Ids(s) {
      var y :| y in s' && y.id == x;
      var m :| 0 <= m < |s'| && s'[m] == y;
      assert s[m] in s && s[m].id == x;
    }
    forall x | x in Ids(s) ensures x in Ids(s') {
      var y :| y in s && y.id == x;
      var m :| 0 <= m < |s| && s[m] == y;
      assert s'[m] in s' && s'[m].id == x;
    }
    forall y | y in s && y.id != v.id ensures y in s' {
      var m :| 0 <= m < |s| && s[m] == y;
      assert s'[m] == y;
    }
  }

  /** Deferring the `i`-th due item, an unfinished one found at index `k`, keeps the first loop's progress. */
  lemma DeferDueStep(s: seq<TodoItem>, original: seq<TodoItem>, due: seq<TodoItem>, i: nat, k: nat, s': seq<TodoItem>, i': nat, from: int, to: int)
    requires UniqueIds(original) && DueList(due, original, from)
    requires DueProgress(s, original, due, i, from, to) && i < |due| && due[i].status != Completed
    requires k < |s| && s[k].id == due[i].id
    requires s' == s[k := Deferred(s[k], to)] && i' == i + 1
    ensures DueProgress(s', original, due, i', from, to)
  {
    var todo := due[i];
    DeferDueKeepsPhaseOne(s, original, todo, k, from, to);
    assert s[k] in s;
    SharesDueIdOutside(s, original, todo, s[k], from, to);
    DeferredIsThenDeleted(todo, from, to);
    FilterUpdateDropped(s, k, Deferred(s[k], to), Keeps(from, to));
    DeferHandled(s, due, i, k, to);
  }

  /** Deferring the `i`-th due item deals with it and leaves the others as they were. */
  lemma DeferHandled(s: seq<TodoItem>, due: seq<TodoItem>, i: nat, k: nat, to: int)
    requires UniqueIds(due) && i < |due| && due[i].status != Completed
    requires k < |s| && s[k].id == due[i].id && Deferred(s[k], to) == Deferred(due[i], to)
    requires forall j :: 0 <= j < i ==> DueHandled(due[j], s, to)
    requires forall j :: i <= j < |due| ==> due[j] in s
    ensures forall j :: 0 <= j < i + 1 ==> DueHandled(due[j], s[k := Deferred(s[k], to)], to)
    ensures forall j :: i + 1 <= j < |due| ==> due[j] in s[k := Deferred(s[k], to)]
  {
    var todo, s' := due[i], s[k := Deferred(s[k], to)];
    UpdateSameId(s, k, Deferred(s[k], to));
    forall j | 0 <= j < i && due[j].status != Completed ensures Deferred(due[j], to) in s' {
      assert Deferred(due[j], to).id != todo.id;
    }
    assert s'[k] == Deferred(todo, to);
    forall j | i + 1 <= j < |due| ensures due[j] in s' {
      assert due[j].id != todo.id;
    }
  }

  /** `removeAll { $0.id == d.id }` applied for each of the first `n` items `d` of `doomed`, in order. */
  function RemoveEach(s: seq<TodoItem>, doomed: seq<TodoItem>, n: nat): seq<TodoItem>
    requires n <= |doomed|
  {
    if n == 0 then s else RemoveById(RemoveEach(s, doomed, n - 1), doomed[n - 1].id)
  }

  /** One of the first `n` items of `doomed` has UUID `id`. */
  predicate IdAmong(id: Uuid, doomed: seq<TodoItem>, n: nat)
    requires n <= |doomed|
  {
    n > 0 && (doomed[n - 1].id == id || IdAmong(id, doomed, n - 1))
  }

  lemma {:induction false} IdAmongIndex(id: Uuid, doomed: seq<TodoItem>, n: nat)
    requires n <= |doomed|
    ensures IdAmong(id, doomed, n) <==> exists k :: 0 <= k < n && doomed[k].id == id
  {
    if n > 0 {
      IdAmongIndex(id, doomed, n - 1);
    }
  }

  /** An item survives `RemoveEach` exactly when none of the removed items shares its UUID. */
  lemma {:induction false} RemoveEachMember(s: seq<TodoItem>, doomed: seq<TodoItem>, n: nat, t: TodoItem)
    requires n <= |doomed|
    ensures t in RemoveEach(s, doomed, n) <==> t in s && !IdAmong(t.id, doomed, n)
  {
    if n > 0 {
      var prev := RemoveEach(s, doomed, n - 1);
      RemoveEachMember(s, doomed, n - 1, t);
      assert RemoveEach(s, doomed, n) == RemoveById(prev, doomed[n - 1].id);
      assert IdAmong(t.id, doomed, n) == (doomed[n - 1].id == t.id || IdAmong(t.id, doomed, n - 1));
    }
  }

  lemma {:induction false} RemoveEachKeepsUniqueIds(s: seq<TodoItem>, doomed: seq<TodoItem>, n: nat)
    requires n <= |doomed| && UniqueIds(s)
    ensures UniqueIds(RemoveEach(s, doomed, n))
  {
    if n > 0 {
      RemoveEachKeepsUniqueIds(s, doomed, n - 1);
      RemoveByIdKeepsUniqueIds(RemoveEach(s, doomed, n - 1), doomed[n - 1].id);
      assert RemoveEach(s, doomed, n) == RemoveById(RemoveEach(s, doomed, n - 1), doomed[n - 1].id);
    }
  }

  /** The second clean-up loop's result: every synced item starting outside [from, to) deleted by UUID. */
  function DeleteOutside(s: seq<TodoItem>, from: int, to: int): seq<TodoItem> {
    var outside := SyncedOutsideRange(s, from, to);
    RemoveEach(s, outside, |outside|)
  }

  /** After the second loop no synced item starts outside the range, and nothing new appears. */
  lemma DeleteOutsideLeavesNone(s: seq<TodoItem>, from: int, to: int)
    ensures forall t :: t in DeleteOutside(s, from, to) ==> t in s && !SyncedOutside(t, from, to)
  {
    var outside := SyncedOutsideRange(s, from, to);
    forall t | t in DeleteOutside(s, from, to) ensures t in s && !SyncedOutside(t, from, to) {
      RemoveEachMember(s, outside, |outside|, t);
      if SyncedOutside(t, from, to) {
        IdAmongIndex(t.id, outside, |outside|);
      }
    }
  }

  /** What the clean-up ends with: unique UUIDs, and every original item starting inside the range is kept. */
  ghost predicate CleanupPhaseTwo(s: seq<TodoItem>, original: seq<TodoItem>, from: int, to: int) {
    UniqueIds(s) && forall t :: t in original && !SyncedOutside(t, from, to) ==> t in s
  }

  /** The second loop, run on the first loop's result, keeps every original item that starts inside the range. */
  lemma DeleteOutsideKeepsOriginals(s: seq<TodoItem>, original: seq<TodoItem>, from: int, to: int)
    requires UniqueIds(original) && CleanupPhaseOne(s, original, from, to)
    ensures CleanupPhaseTwo(DeleteOutside(s, from, to), original, from, to)
  {
    var outside := SyncedOutsideRange(s, from, to);
    RemoveEachKeepsUniqueIds(s, outside, |outside|);
    forall t | t in original && !SyncedOutside(t, from, to) ensures t in DeleteOutside(s, from, to) {
      RemoveEachMember(s, outside, |outside|, t);
      IdAmongIndex(t.id, outside, |outside|);
      forall k | 0 <= k < |outside| ensures outside[k].id != t.id {
        assert outside[k] in outside;
        OutsideIdDiffers(s, original, t, outside[k], from, to);
      }
    }
  }

  /**
   * Deleting by UUID each item of `doomed`, all of them synced items outside
   * the range, leaves what the clean-up keeps unchanged and in order.
   */
  lemma {:induction false} RemoveEachKeepsFilter(s: seq<TodoItem>, doomed: seq<TodoItem>, n: nat, r: seq<TodoItem>, from: int, to: int)
    requires UniqueIds(s) && n <= |doomed| && r == RemoveEach(s, doomed, n)
    requires forall t :: t in doomed ==> t in s && SyncedOutside(t, from, to)
    ensures Filter(r, Keeps(from, to)) == Filter(s, Keeps(from, to))
  {
    if n > 0 {
      var prev := RemoveEach(s, doomed, n - 1);
      RemoveEachKeepsFilter(s, doomed, n - 1, prev, from, to);
      IdOwnerIsOutside(s, doomed, n, from, to);
      FilterRemoveDropped(prev, doomed[n - 1].id, Keeps(from, to));
    }
  }

  /** With unique UUIDs, the only item carrying the UUID deleted at the `n`-th step is the doomed item itself. */
  lemma IdOwnerIsOutside(s: seq<TodoItem>, doomed: seq<TodoItem>, n: nat, from: int, to: int)
    requires UniqueIds(s) && 0 < n <= |doomed|
    requires forall t :: t in doomed ==> t in s && SyncedOutside(t, from, to)
    ensures forall x :: (x in RemoveEach(s, doomed, n - 1) && x.id == doomed[n - 1].id) ==> !Keeps(from, to)(x)
  {
    var d := doomed[n - 1];
    assert d in doomed;
    forall x | x in RemoveEach(s, doomed, n - 1) && x.id == d.id ensures !Keeps(from, to)(x) {
      RemoveEachMember(s, doomed, n - 1, x);
      if x != d {
        DistinctMembersDistinctIds(s, x, d);
      }
    }
  }

  /**
   * Both loops of the clean-up together, from `original` through `processed`
   * to `r`: what survives is exactly what the clean-up keeps, and one of the
   * loops changed something exactly when some item was synced outside the range.
   */
  lemma CleanupDone(original: seq<TodoItem>, processed: seq<TodoItem>, r: seq<TodoItem>, changedFirst: bool, changedSecond: bool, from: int, to: int)
    requires changedFirst <==> exists t :: t in original && StartsBefore(t, from)
    requires !changedFirst ==> processed == original
    requires UniqueIds(original) ==> CleanupPhaseOne(processed, original, from, to)
    requires UniqueIds(original) ==> Filter(processed, Keeps(from, to)) == Filter(original, Keeps(from, to))
    requires r == DeleteOutside(processed, from, to)
    requires changedSecond <==> |SyncedOutsideRange(processed, from, to)| > 0
    ensures forall t :: t in r ==> !SyncedOutside(t, from, to)
    ensures UniqueIds(original) ==> UniqueIds(r)
    ensures UniqueIds(original) ==> r == Filter(original, Keeps(from, to))
    ensures (changedFirst || changedSecond) <==> exists t :: t in original && SyncedOutside(t, from, to)
    ensures (forall t :: t in original ==> !SyncedOutside(t, from, to)) ==> r == original
  {
    var outside := SyncedOutsideRange(processed, from, to);
    if |outside| > 0 {
      assert outside[0] in outside;
    }
    DeleteOutsideLeavesNone(processed, from, to);
    if UniqueIds(original) {
      DeleteOutsideKeepsOriginals(processed, original, from, to);
      DeleteOutsideFilter(processed, from, to);
    }
    if changedFirst {
      var u :| u in original && StartsBefore(u, from);
      assert SyncedOutside(u, from, to);
    } else if exists t :: t in original && SyncedOutside(t, from, to) {
      var u :| u in original && SyncedOutside(u, from, to);
      assert u in outside;
    }
  }

  /** With unique UUIDs, the second loop's result is the store filtered by what the clean-up keeps. */
  lemma DeleteOutsideFilter(s: seq<TodoItem>, from: int, to: int)
    requires UniqueIds(s)
    ensures DeleteOutside(s, from, to) == Filter(s, Keeps(from, to))
  {
    var r := DeleteOutside(s, from, to);
    RemoveEachKeepsFilter(s, SyncedOutsideRange(s, from, to), |SyncedOutsideRange(s, from, to)|, r, from, to);
    DeleteOutsideLeavesNone(s, from, to);
    forall i | 0 <= i < |r| ensures Keeps(from, to)(r[i]) {
      assert r[i] in r;
    }
    FilterAll(r, Keeps(from, to));
  }

  /** An item the second loop deletes never shares its UUID with an original item that starts inside the range. */
  lemma OutsideIdDiffers(s: seq<TodoItem>, original: seq<TodoItem>, t: TodoItem, y: TodoItem, from: int, to: int)
    requires UniqueIds(original) && CleanupPhaseOne(s, original, from, to)
    requires t in original && !SyncedOutside(t, from, to)
    requires y in s && SyncedOutside(y, from, to)
    ensures y.id != t.id
  {
    assert FromOriginal(y, original, from, to);
    if y in original {
      DistinctMembersDistinctIds(original, t, y);
    } else {
      var u :| u in original && StartsBefore(u, from) && y == Deferred(u, to);
      DistinctMembersDistinctIds(original, t, u);
    }
  }

  /**
   * A deferred item starts exactly at the end of the range, which the range
   * excludes, so the second clean-up loop deletes every item the first loop deferred.
   */
  lemma DeferredIsThenDeleted(t: TodoItem, from: int, to: int)
    requires StartsBefore(t, from)
    ensures SyncedOutside(Deferred(t, to), from, to)
  {
  }

  /** On a clock whose days all last 86400 seconds the clean-up guard always returns early. */
  lemma CleanupGuardAlwaysReturns(s: TimeSettings, now: int)
    ensures now < AtMinute(StartOfDay(now), s.morningStart) + SecondsPerDay
  {
  }

  class TodoStore {
    var todos: seq<TodoItem>
    ghost var saveCount: nat

    /** `init()`: the store starts from the persisted to-dos, passed in. */
    constructor (saved: seq<TodoItem>)
      ensures todos == saved && saveCount == 0
    {
      todos := saved;
      saveCount := 0;
    }

    method AddTodo(todo: TodoItem)
      modifies this
      ensures todos == old(todos) + [todo]
      ensures saveCount == old(saveCount) + 1
    {
      todos := todos + [todo];
      saveCount := saveCount + 1;
    }

    method UpdateTodo(todo: TodoItem)
      modifies this
      ensures todos == ReplaceById(old(todos), todo)
      ensures saveCount == old(saveCount) + if todo.id in Ids(old(todos)) then 1 else 0
    {
      var index := IndexOfId(todos, todo.id);
      if index.Some? {
        todos := todos[index.value := todo];
        saveCount := saveCount + 1;
      }
    }

    method DeleteTodo(todo: TodoItem)
      modifies this
      ensures todos == RemoveById(old(todos), todo.id)
      ensures saveCount == old(saveCount) + 1
    {
      todos := RemoveById(todos, todo.id);
      saveCount := saveCount + 1;
    }

    /** Deletes the to-do, first asking for its reminder to be deleted when it has one. */
    method DeleteTodoWithReminder(todo: TodoItem, calendarSyncService: ReminderOperations)
      modifies this, calendarSyncService
      ensures todos == RemoveById(old(todos), todo.id)
      ensures saveCount == old(saveCount) + 1
      ensures calendarSyncService.calls == old(calendarSyncService.calls) +
        if todo.reminderIdentifier.Some? then [ReminderCall.DeleteReminder(todo)] else []
    {
      if todo.reminderIdentifier.Some? {
        calendarSyncService.DeleteReminder(todo);
      }
      DeleteTodo(todo);
    }

    /** Advances the stored copy of `todo` (found by UUID) one step round the status cycle. */
    method ToggleStatus(todo: TodoItem, now: int)
      modifies this
      ensures todos == ToggleById(old(todos), todo.id, now)
      ensures saveCount == old(saveCount) + if todo.id in Ids(old(todos)) then 1 else 0
    {
      var index := IndexOfId(todos, todo.id);
      if index.Some? {
        var updatedTodo := todos[index.value];
        match updatedTodo.status {
          case NotStarted =>
            updatedTodo := updatedTodo.(status := InProgress);
          case InProgress =>
            updatedTodo := updatedTodo.(status := Completed, completedAt := Some(now));
          case Completed =>
            updatedTodo := updatedTodo.(status := NotStarted, completedAt := None);
        }
        todos := todos[index.value := updatedTodo];
        saveCount := saveCount + 1;
      }
    }

    method ToggleComplete(todo: TodoItem, now: int)
      modifies this
      ensures todos == ToggleById(old(todos), todo.id, now)
      ensures saveCount == old(saveCount) + if todo.id in Ids(old(todos)) then 1 else 0
    {
      ToggleStatus(todo, now);
    }

    /**
     * Moves the given to-do value one category later and writes it back by
     * UUID; a time that came from a reminder is dropped, and the reminder is
     * asked to drop it too when a service is at hand.
     */
    method MoveTodoToNextTimeCategory(todo: TodoItem, calendarSyncService: ReminderOperations?)
      modifies this, calendarSyncService
      ensures MovedToNext(todo).None? ==> todos == old(todos) && saveCount == old(saveCount)
      ensures MovedToNext(todo).Some? ==> todos == ReplaceById(old(todos), MovedToNext(todo).value)
      ensures MovedToNext(todo).Some? ==> saveCount == old(saveCount) + if todo.id in Ids(old(todos)) then 1 else 0
      ensures calendarSyncService != null ==> (calendarSyncService.calls == old(calendarSyncService.calls) +
        if MovedToNext(todo).Some? && DropsReminderTime(todo)
        then [ReminderCall.RemoveReminderTime(todo.(startTime := None))] else [])
    {
      if todo.timeCategory.None? {
        return;
      }
      var currentIndex := CategoryIndex(todo.timeCategory.value);
      if currentIndex < |AllCases| - 1 {
        var updatedTodo := todo;
        var newCategory := AllCases[currentIndex + 1];
        if updatedTodo.startTime.Some? && updatedTodo.reminderIdentifier.Some? {
          updatedTodo := updatedTodo.(startTime := None);
          if calendarSyncService != null {
            calendarSyncService.RemoveReminderTime(updatedTodo);
          }
        }
        updatedTodo := updatedTodo.(timeCategory := Some(newCategory));
        UpdateTodo(updatedTodo);
      }
    }

    /** The mirror image of `MoveTodoToNextTimeCategory`: one category earlier, nothing before morning. */
    method MoveTodoToPreviousTimeCategory(todo: TodoItem, calendarSyncService: ReminderOperations?)
      modifies this, calendarSyncService
      ensures MovedToPrevious(todo).None? ==> todos == old(todos) && saveCount == old(saveCount)
      ensures MovedToPrevious(todo).Some? ==> todos == ReplaceById(old(todos), MovedToPrevious(todo).value)
      ensures MovedToPrevious(todo).Some? ==> saveCount == old(saveCount) + if todo.id in Ids(old(todos)) then 1 else 0
      ensures calendarSyncService != null ==> (calendarSyncService.calls == old(calendarSyncService.calls) +
        if MovedToPrevious(todo).Some? && DropsReminderTime(todo)
        then [ReminderCall.RemoveReminderTime(todo.(startTime := None))] else [])
    {
      if todo.timeCategory.None? {
        return;
      }
      var currentIndex := CategoryIndex(todo.timeCategory.value);
      if currentIndex > 0 {
        var updatedTodo := todo;
        var newCategory := AllCases[currentIndex - 1];
        if updatedTodo.startTime.Some? && updatedTodo.reminderIdentifier.Some? {
          updatedTodo := updatedTodo.(startTime := None);
          if calendarSyncService != null {
            calendarSyncService.RemoveReminderTime(updatedTodo);
          }
        }
        updatedTodo := updatedTodo.(timeCategory := Some(newCategory));
        UpdateTodo(updatedTodo);
      }
    }

    method MoveTodoToTimeCategory(todo: TodoItem, timeCategory: TimeCategory)
      modifies this
      ensures todos == ReplaceById(old(todos), todo.(timeCategory := Some(timeCategory)))
      ensures saveCount == old(saveCount) + if todo.id in Ids(old(todos)) then 1 else 0
    {
      var updatedTodo := todo.(timeCategory := Some(timeCategory));
      UpdateTodo(updatedTodo);
    }

    /**
     * The drag-and-drop handler: it sorts a filtered copy and reorders only
     * that copy, so the stored order never changes; it still saves.
     */
    method MoveTodo(source: set<nat>, destination: nat, timeCategory: TimeCategory)
      modifies this
      ensures todos == old(todos)
      ensures saveCount == old(saveCount) + 1
    {
      var filteredTodos := Filter(todos, (t: TodoItem) => t.timeCategory == Some(timeCategory));
      var sortedTodos := SortTodos(filteredTodos);
      saveCount := saveCount + 1;
    }

    /** `getTodos(for:type:)`: the items of one category (and type), in display order. */
    function GetTodos(timeCategory: TimeCategory, kind: Option<TodoType>): (r: seq<TodoItem>)
      reads this
      ensures Sorted(r)
      ensures forall x :: (multiset(r)[x] ==
        if x.timeCategory == Some(timeCategory) && OfType(kind, x) then multiset(todos)[x] else 0)
    {
      var filtered := Filter(todos, (t: TodoItem) => t.timeCategory == Some(timeCategory));
      var filtered' := if kind.Some? then Filter(filtered, (t: TodoItem) => t.kind == kind.value) else filtered;
      SortTodos(filtered')
    }

    /** `getTodosWithoutTimeCategory(type:)`: the uncategorised items (of one type), in display order. */
    function GetTodosWithoutTimeCategory(kind: Option<TodoType>): (r: seq<TodoItem>)
      reads this
      ensures Sorted(r)
      ensures forall x :: (multiset(r)[x] ==
        if x.timeCategory.None? && OfType(kind, x) then multiset(todos)[x] else 0)
    {
      var filtered := Filter(todos, (t: TodoItem) => t.timeCategory.None?);
      var filtered' := if kind.Some? then Filter(filtered, (t: TodoItem) => t.kind == kind.value) else filtered;
      SortTodos(filtered')
    }

    /**
     * `cleanupOldTodos`. The clean-up only proceeds once the current instant
     * has reached tomorrow's morning start, which by construction lies more
     * than the current second ahead; so the store is never changed.
     */
    method CleanupOldTodos(timeSettings: TimeSettings, now: int)
      modifies this
      ensures todos == old(todos) && saveCount == old(saveCount)
    {
      var todayStart := StartOfDay(now);
      var todayMorningStart := AtMinute(todayStart, timeSettings.morningStart);
      var tomorrowMorningStart := todayMorningStart + SecondsPerDay;
      if now < tomorrowMorningStart {
        return;
      }
      assert false;
    }

    /**
     * The part of `cleanupOldTodos` after its guard, for the boundaries
     * `tomorrowMorningStart` and `dayAfterTomorrowMorningStart`: completed
     * due items are deleted, unfinished ones deferred, and then every synced
     * item starting outside [tomorrowMorningStart, dayAfterTomorrowMorningStart)
     * is deleted, including the ones just deferred.
     */
    method CleanupPastBoundary(tomorrowMorningStart: int, dayAfterTomorrowMorningStart: int)
      modifies this
      ensures forall t :: t in todos ==> !SyncedOutside(t, tomorrowMorningStart, dayAfterTomorrowMorningStart)
      ensures UniqueIds(old(todos)) ==> UniqueIds(todos)
      ensures UniqueIds(old(todos)) ==> todos == Filter(old(todos), Keeps(tomorrowMorningStart, dayAfterTomorrowMorningStart))
      ensures saveCount == old(saveCount) +
        if exists t :: t in old(todos) && SyncedOutside(t, tomorrowMorningStart, dayAfterTomorrowMorningStart) then 1 else 0
      ensures (forall t :: t in old(todos) ==> !SyncedOutside(t, tomorrowMorningStart, dayAfterTomorrowMorningStart)) ==>
        todos == old(todos)
    {
      ghost var original := todos;
      var deferredOrDeleted := ProcessDueTodos(tomorrowMorningStart, dayAfterTomorrowMorningStart);
      ghost var processed := todos;
      var deletedOutside := DeleteSyncedOutsideRange(tomorrowMorningStart, dayAfterTomorrowMorningStart);
      CleanupDone(original, processed, todos, deferredOrDeleted, deletedOutside, tomorrowMorningStart, dayAfterTomorrowMorningStart);
      if deferredOrDeleted || deletedOutside {
        saveCount := saveCount + 1;
      }
    }

    /**
     * The first loop of the clean-up: each due item is deleted when completed
     * and deferred otherwise. It touches only items the clean-up does not keep,
     * so what it keeps stays, in order.
     */
    method ProcessDueTodos(tomorrowMorningStart: int, dayAfterTomorrowMorningStart: int) returns (hasChanges: bool)
      modifies this
      ensures saveCount == old(saveCount)
      ensures !hasChanges ==> todos == old(todos)
      ensures hasChanges <==> exists t :: t in old(todos) && StartsBefore(t, tomorrowMorningStart)
      ensures UniqueIds(old(todos)) ==> forall t :: t in old(todos) && StartsBefore(t, tomorrowMorningStart) ==>
        DueHandled(t, todos, dayAfterTomorrowMorningStart)
      ensures UniqueIds(old(todos)) ==> CleanupPhaseOne(todos, old(todos), tomorrowMorningStart, dayAfterTomorrowMorningStart)
      ensures UniqueIds(old(todos)) ==>
        Filter(todos, Keeps(tomorrowMorningStart, dayAfterTomorrowMorningStart)) ==
        Filter(old(todos), Keeps(tomorrowMorningStart, dayAfterTomorrowMorningStart))
    {
      ghost var original := todos;
      var todosToProcess := Filter(todos, (t: TodoItem) => StartsBefore(t, tomorrowMorningStart));
      hasChanges := DeferOrDeleteEach(todosToProcess, dayAfterTomorrowMorningStart);
      if UniqueIds(original) {
        FilterKeepsUniqueIds(original, (t: TodoItem) => StartsBefore(t, tomorrowMorningStart));
      }
      DueLoopDone(original, todosToProcess, todos, tomorrowMorningStart, dayAfterTomorrowMorningStart);
    }

    /**
     * The loop of the first pass over the due items `due`, taken from the
     * store: each one is deleted or deferred in turn.
     */
    method DeferOrDeleteEach(due: seq<TodoItem>, to: int) returns (hasChanges: bool)
      modifies this
      requires forall t :: t in due ==> t in todos
      ensures todos == DueEach(old(todos), due, |due|, to)
      ensures hasChanges <==> |due| > 0
      ensures saveCount == old(saveCount)
    {
      hasChanges := false;
      if |due| > 0 {
        assert due[0] in due;
      }
      for i := 0 to |due|
        invariant saveCount == old(saveCount)
        invariant todos == DueEach(old(todos), due, i, to)
        invariant hasChanges <==> i > 0
      {
        var changed := DeferOrDelete(due[i], to);
        hasChanges := hasChanges || changed;
      }
    }

    /**
     * One step of the first pass for the due item `todo`: when completed,
     * every item with its UUID is deleted; otherwise the first item with its
     * UUID is deferred to `to`. The flag says whether the step changed
     * anything, as the code sees it.
     */
    method DeferOrDelete(todo: TodoItem, to: int) returns (changed: bool)
      modifies this
      ensures todos == DueStep(old(todos), todo, to)
      ensures changed <==> todo.status == Completed || todo.id in Ids(old(todos))
      ensures saveCount == old(saveCount)
    {
      changed := false;
      if todo.status == Completed {
        todos := RemoveById(todos, todo.id);
        changed := true;
      } else {
        var index := IndexOfId(todos, todo.id);
        if index.Some? {
          var updatedTodo := todos[index.value].(kind := MustDo, timeCategory := Some(Morning), startTime := Some(to));
          todos := todos[index.value := updatedTodo];
          changed := true;
        }
      }
    }

    /** The second loop of the clean-up: every synced item starting outside the range is deleted by UUID. */
    method DeleteSyncedOutsideRange(tomorrowMorningStart: int, dayAfterTomorrowMorningStart: int) returns (hasChanges: bool)
      modifies this
      ensures todos == DeleteOutside(old(todos), tomorrowMorningStart, dayAfterTomorrowMorningStart)
      ensures hasChanges <==> |SyncedOutsideRange(old(todos), tomorrowMorningStart, dayAfterTomorrowMorningStart)| > 0
      ensures saveCount == old(saveCount)
    {
      hasChanges := false;
      var syncedTodosOutsideRange := SyncedOutsideRange(todos, tomorrowMorningStart, dayAfterTomorrowMorningStart);
      for i := 0 to |syncedTodosOutsideRange|
        invariant todos == RemoveEach(old(todos), syncedTodosOutsideRange, i)
        invariant hasChanges <==> i > 0
        invariant saveCount == old(saveCount)
      {
        todos := RemoveById(todos, syncedTodosOutsideRange[i].id);
        hasChanges := true;
      }
    }
  }
}
