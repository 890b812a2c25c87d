/**
 * The records the stores hold and the partial updates applied to them: a task, a
 * category, what `create` is given for each, and the `{ ...record, ...updateData }`
 * merge with the task store's completion-timestamp rule.
 *
 * Instants (`dueDate`, `createdAt`, `completedAt`) are milliseconds since the epoch;
 * `null` is `None`.
 */
module Records {
  import opened Wrappers

  datatype Task = Task(
    id: int,
    title: string,
    completed: bool,
    priority: string,
    dueDate: Option<int>,
    categoryId: Option<string>,
    createdAt: int,
    completedAt: Option<int>)

  /** The fields a caller hands to the task store's `create`. */
  datatype TaskDraft = TaskDraft(
    title: string,
    completed: bool,
    priority: string,
    dueDate: Option<int>,
    categoryId: Option<string>)

  /**
   * An `updateData` object for a task: `None` is a key the object does not carry;
   * `Some(None)` for `dueDate` / `categoryId` is a key set to `null`.
   */
  datatype TaskPatch = TaskPatch(
    title: Option<string>,
    completed: Option<bool>,
    priority: Option<string>,
    dueDate: Option<Option<int>>,
    categoryId: Option<Option<string>>)

  const NoTaskChange := TaskPatch(None, None, None, None, None)

  /** `{ completed }`, the patch the completion toggle and the bulk actions send. */
  function CompletionPatch(completed: bool): TaskPatch {
    NoTaskChange.(completed := Some(completed))
  }

  /** A completed task carries a completion instant, and an open one does not. */
  predicate CompletionConsistent(t: Task) {
    t.completedAt.Some? <==> t.completed
  }

  /**
   * The task store's merge: the supplied fields overwrite, the rest are kept; then
   * `completed: true` on an open task stamps `completedAt` with `stamp` (the clock),
   * and `completed: false` clears it.
   */
  function ApplyPatch(t: Task, p: TaskPatch, stamp: int): (r: Task)
    ensures r.id == t.id && r.createdAt == t.createdAt
    ensures r.title == p.title.GetOr(t.title) && r.priority == p.priority.GetOr(t.priority)
    ensures r.completed == p.completed.GetOr(t.completed)
    ensures r.dueDate == p.dueDate.GetOr(t.dueDate) && r.categoryId == p.categoryId.GetOr(t.categoryId)
    ensures p.completed == Some(true) && !t.completed ==> r.completedAt == Some(stamp)
    ensures p.completed == Some(false) ==> r.completedAt == None
    ensures p.completed.None? || (p.completed == Some(true) && t.completed) ==> r.completedAt == t.completedAt
  {
    var merged := Task(
      t.id,
      p.title.GetOr(t.title),
      p.completed.GetOr(t.completed),
      p.priority.GetOr(t.priority),
      p.dueDate.GetOr(t.dueDate),
      p.categoryId.GetOr(t.categoryId),
      t.createdAt,
      t.completedAt);
    if p.completed == Some(true) && !t.completed then merged.(completedAt := Some(stamp))
    else if p.completed == Some(false) then merged.(completedAt := None)
    else merged
  }

  /** An empty `updateData` leaves the task as it was. */
  lemma ApplyEmptyPatch(t: Task, stamp: int)
    ensures ApplyPatch(t, NoTaskChange, stamp) == t
  {
  }

  /**
   * Applying the same patch a second time changes nothing, whatever the clock says
   * then: the second application finds the task already completed and keeps its stamp.
   */
  lemma ApplyPatchIdempotent(t: Task, p: TaskPatch, stamp: int, later: int)
    ensures ApplyPatch(ApplyPatch(t, p, stamp), p, later) == ApplyPatch(t, p, stamp)
  {
  }

  /** Every patch keeps a task whose `completedAt` agrees with `completed` in that state. */
  lemma PatchKeepsConsistency(t: Task, p: TaskPatch, stamp: int)
    requires CompletionConsistent(t)
    ensures CompletionConsistent(ApplyPatch(t, p, stamp))
  {
  }

  /** The Id of every record of a list, in order. */
  function TaskIds(s: seq<Task>): (r: seq<int>)
    ensures |r| == |s| && forall i :: 0 <= i < |s| ==> r[i] == s[i].id
  {
    if s == [] then [] else [s[0].id] + TaskIds(s[1..])
  }

  /** No two tasks of the list share an Id. */
  predicate UniqueIds(s: seq<Task>) {
    forall i, j :: 0 <= i < j < |s| ==> s[i].id != s[j].id
  }

  /** `task => task.Id === id`. */
  function HasId(id: int): Task -> bool {
    (t: Task) => t.id == id
  }

  /** `task => task.Id !== id`. */
  function OtherId(id: int): Task -> bool {
    (t: Task) => t.id != id
  }

  datatype Category = Category(id: int, name: string, color: string, icon: string, order: int)

  /** The fields a caller hands to the category store's `create`. */
  datatype CategoryDraft = CategoryDraft(name: string, color: string, icon: string)

  /** An `updateData` object for a category; `None` is a key the object does not carry. */
  datatype CategoryPatch = CategoryPatch(
    name: Option<string>,
    color: Option<string>,
    icon: Option<string>,
    order: Option<int>)

  /** `{ ...category, ...updateData }`: the supplied fields overwrite, the Id is kept. */
  function ApplyCategoryPatch(c: Category, p: CategoryPatch): (r: Category)
    ensures r.id == c.id
    ensures r.name == p.name.GetOr(c.name) && r.color == p.color.GetOr(c.color)
    ensures r.icon == p.icon.GetOr(c.icon) && r.order == p.order.GetOr(c.order)
  {
    Category(c.id, p.name.GetOr(c.name), p.color.GetOr(c.color), p.icon.GetOr(c.icon), p.order.GetOr(c.order))
  }

  /**
   * The Ids of a category list, in order: the category records' counterpart of
   * `TaskIds`, written apart because `Task` and `Category` are distinct record types.
   */
  function CategoryIds(s: seq<Category>): (r: seq<int>)
    ensures |r| == |s| && forall i :: 0 <= i < |s| ==> r[i] == s[i].id
  {
    if s == [] then [] else [s[0].id] + CategoryIds(s[1..])
  }

  predicate UniqueCategoryIds(s: seq<Category>) {
    forall i, j :: 0 <= i < j < |s| ==> s[i].id != s[j].id
  }

  /** `cat => cat.Id === id`. */
  function CategoryHasId(id: int): Category -> bool {
    (c: Category) => c.id == id
  }
}
