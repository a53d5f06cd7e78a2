/**
 * The to-do record and its enumerations (Models/TodoItem.swift).
 *
 * The revision of TodoItem.swift at hand has no `startTime` field although
 * every other core file reads or writes `todo.startTime`; the model carries it
 * as an optional instant beside `createdAt`.
 */
module TodoItem {
  import opened Wrappers

  /** `TimeCategory`, declared (and so enumerated by `allCases`) in this order. */
  datatype TimeCategory = Morning | Daytime | Evening | Night

  datatype TodoType = MustDo | WantToDo

  datatype TodoStatus = NotStarted | InProgress | Completed

  /** A UUID, by its `uuidString`. */
  type Uuid = string

  datatype TodoItem = TodoItem(
    id: Uuid,
    title: string,
    memo: Option<string>,
    kind: TodoType,
    timeCategory: Option<TimeCategory>,
    status: TodoStatus,
    createdAt: int,
    completedAt: Option<int>,
    reminderIdentifier: Option<string>,
    calendarEventIdentifier: Option<string>,
    startTime: Option<int>)

  /** The `init` with every defaulted argument left out; `UUID()` and `Date()` are passed in. */
  function NewTodoItem(id: Uuid, title: string, kind: TodoType, now: int): (t: TodoItem)
    ensures t.id == id && t.title == title && t.kind == kind && t.createdAt == now
    ensures t.status == NotStarted && CompletionConsistent(t)
    ensures t.memo.None? && t.timeCategory.None? && t.startTime.None?
    ensures t.reminderIdentifier.None? && t.calendarEventIdentifier.None?
  {
    TodoItem(id, title, None, kind, None, NotStarted, now, None, None, None, None)
  }

  /** The getter of the computed `isCompleted` property. */
  predicate IsCompleted(t: TodoItem) {
    t.status == Completed
  }

  /** The setter of `isCompleted`: only `status` changes, and `false` always means "not started". */
  function SetIsCompleted(t: TodoItem, newValue: bool): (r: TodoItem)
    ensures IsCompleted(r) == newValue
    ensures !newValue ==> r.status == NotStarted
    ensures r == t.(status := r.status)
  {
    t.(status := if newValue then Completed else NotStarted)
  }

  /** Setting `isCompleted` to the value it already reads leaves every item but an in-progress one unchanged. */
  lemma SetIsCompletedIdempotent(t: TodoItem)
    ensures SetIsCompleted(t, IsCompleted(t)) == t <==> t.status != InProgress
  {
  }

  /** A completion time is recorded exactly when the item is completed. */
  predicate CompletionConsistent(t: TodoItem) {
    t.completedAt.Some? <==> t.status == Completed
  }

  /** `TimeCategory.allCases`, the order every category stepper walks. */
  const AllCases: seq<TimeCategory> := [Morning, Daytime, Evening, Night]

  /** `allCases.firstIndex(of: c)`, which always exists. */
  function CategoryIndex(c: TimeCategory): (i: nat)
    ensures i < |AllCases| && AllCases[i] == c
  {
    match c
    case Morning => 0
    case Daytime => 1
    case Evening => 2
    case Night => 3
  }

  /** Every category occurs exactly once in `AllCases`. */
  lemma AllCasesEnumerates()
    ensures forall c :: c in AllCases
    ensures forall i, j :: 0 <= i < j < |AllCases| ==> AllCases[i] != AllCases[j]
  {
    forall c: TimeCategory ensures c in AllCases {
      assert AllCases[CategoryIndex(c)] == c;
    }
  }

  /** The category after `c` in `allCases`, or none after the last. */
  function NextCategory(c: TimeCategory): (r: Option<TimeCategory>)
    ensures r.None? <==> c == Night
    ensures r.Some? ==> CategoryIndex(r.value) == CategoryIndex(c) + 1
  {
    var i := CategoryIndex(c);
    if i < |AllCases| - 1 then Some(AllCases[i + 1]) else None
  }

  /** The category before `c` in `allCases`, or none before the first. */
  function PreviousCategory(c: TimeCategory): (r: Option<TimeCategory>)
    ensures r.None? <==> c == Morning
    ensures r.Some? ==> CategoryIndex(r.value) + 1 == CategoryIndex(c)
  {
    var i := CategoryIndex(c);
    if i > 0 then Some(AllCases[i - 1]) else None
  }

  /** Stepping forward and stepping back are inverse to each other. */
  lemma NextPreviousInverse(c: TimeCategory, d: TimeCategory)
    ensures NextCategory(c) == Some(d) <==> PreviousCategory(d) == Some(c)
  {
  }
}
