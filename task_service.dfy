/**
 * The task store: one module-level list of tasks that `create`, `update`, `delete`,
 * `bulkUpdate` and `bulkDelete` change in place, and `getAll` / `getById` read.
 *
 * Every `id` argument goes through `parseInt`; the callers hand over task Ids, which
 * parse to themselves, so ids are integers here. The clock reading that stamps
 * `createdAt` and `completedAt` is the parameter `stamp`.
 */
module TaskService {
  import opened Wrappers
  import opened Lists
  import opened Records
  import RecordIds

  /** `tasks.find(task => task.Id === id)`: the first task with that Id, if any. */
  function Find(s: seq<Task>, id: int): (r: Option<Task>)
    ensures r.None? <==> id !in TaskIds(s)
    ensures r.Some? ==> r.value in s && r.value.id == id
  {
    var k := FindIndex(s, HasId(id));
    if k == -1 then None else Some(s[k])
  }

  /** The record `create` builds: the draft's fields, the new Id, the stamp, no completion. */
  function NewTask(d: TaskDraft, id: int, stamp: int): Task {
    Task(id, d.title, d.completed, d.priority, d.dueDate, d.categoryId, stamp, None)
  }

  /** What `update` leaves: the new list, and the record it returns (`null` is `None`). */
  datatype Updated = Updated(store: seq<Task>, task: Option<Task>)

  /**
   * `update(id, updateData)`: the first task with that Id is replaced by the merge;
   * an unknown Id changes nothing and gives `null`. No Id changes.
   */
  function UpdateById(s: seq<Task>, id: int, p: TaskPatch, stamp: int): (r: Updated)
    ensures r.task.None? <==> id !in TaskIds(s)
    ensures r.task.None? ==> r.store == s
    ensures r.task.Some? ==> r.task == Some(ApplyPatch(Find(s, id).value, p, stamp)) && r.task.value in r.store
    ensures TaskIds(r.store) == TaskIds(s)
  {
    var k := FindIndex(s, HasId(id));
    if k == -1 then Updated(s, None)
    else
      var u := ApplyPatch(s[k], p, stamp);
      assert s[k := u][k] == u;
      Updated(s[k := u], Some(u))
  }

  /** `delete(id)`: the list without the first task of that Id; unchanged for an unknown Id. */
  function DeleteById(s: seq<Task>, id: int): (r: seq<Task>)
    ensures id !in TaskIds(s) ==> r == s
    ensures id in TaskIds(s) ==> |r| == |s| - 1
    ensures IsSubsequence(r, s)
  {
    var k := FindIndex(s, HasId(id));
    if k == -1 then
      SubsequenceRefl(s);
      s
    else
      DropIsSubsequence(s, k);
      s[..k] + s[k + 1..]
  }

  /**
   * With unique Ids, `update` replaces the one task of that Id by the merge and keeps
   * every other task where it was.
   */
  lemma UpdateByIdPointwise(s: seq<Task>, id: int, p: TaskPatch, stamp: int)
    requires UniqueIds(s)
    ensures var r := UpdateById(s, id, p, stamp).store;
      |r| == |s| && forall i :: 0 <= i < |s| ==> r[i] == if s[i].id == id then ApplyPatch(s[i], p, stamp) else s[i]
  {
  }

  /** With unique Ids, `delete` removes exactly the tasks of that Id and keeps the order of the rest. */
  lemma DeleteByIdFilters(s: seq<Task>, id: int)
    requires UniqueIds(s)
    ensures DeleteById(s, id) == Filter(s, OtherId(id))
  {
    var k := FindIndex(s, HasId(id));
    if k == -1 {
      FilterAll(s, OtherId(id));
    } else {
      assert s[k].id == id;
      FilterDropsOne(s, k, OtherId(id));
    }
  }

  /** What a bulk update leaves: the new list and the records it returns. */
  datatype BulkUpdated = BulkUpdated(store: seq<Task>, updated: seq<Task>)

  /** `bulkUpdate(ids, updateData)`: `update` for each id in turn, collecting the records found. */
  function BulkUpdateById(s: seq<Task>, ids: seq<int>, p: TaskPatch, stamp: int): (r: BulkUpdated)
    ensures TaskIds(r.store) == TaskIds(s)
    ensures |r.updated| <= |ids|
  {
    if ids == [] then BulkUpdated(s, [])
    else
      var prev := BulkUpdateById(s, ids[..|ids| - 1], p, stamp);
      var step := UpdateById(prev.store, ids[|ids| - 1], p, stamp);
      BulkUpdated(step.store, prev.updated + if step.task.Some? then [step.task.value] else [])
  }

  /** `id => tasks.some(t => t.Id === id)` for the list `s`. */
  function PresentIn(s: seq<Task>): int -> bool {
    (id: int) => id in TaskIds(s)
  }

  /** The bulk update of `ids` followed by one more id: one more `update`. */
  lemma BulkUpdateSnoc(s: seq<Task>, ids: seq<int>, x: int, p: TaskPatch, stamp: int)
    ensures var prev := BulkUpdateById(s, ids, p, stamp);
      var step := UpdateById(prev.store, x, p, stamp);
      BulkUpdateById(s, ids + [x], p, stamp)
        == BulkUpdated(step.store, prev.updated + if step.task.Some? then [step.task.value] else [])
  {
    assert (ids + [x])[..|ids|] == ids;
  }

  /** The record one `update` returns carries the id exactly when the id names a task. */
  lemma UpdateReturnsPresent(store: seq<Task>, s: seq<Task>, x: int, p: TaskPatch, stamp: int)
    requires TaskIds(store) == TaskIds(s)
    ensures var step := UpdateById(store, x, p, stamp);
      TaskIds(if step.task.Some? then [step.task.value] else []) == Filter([x], PresentIn(s))
  {
    assert [x][1..] == [];
  }

  /**
   * A bulk update returns one record per id that names a task, in the order of `ids`
   * (a repeated id is returned again), and skips the others.
   */
  lemma {:induction false} BulkUpdateReturnsPresent(s: seq<Task>, ids: seq<int>, p: TaskPatch, stamp: int)
    ensures TaskIds(BulkUpdateById(s, ids, p, stamp).updated) == Filter(ids, PresentIn(s))
  {
    if ids != [] {
      var init, x := ids[..|ids| - 1], ids[|ids| - 1];
      assert ids == init + [x];
      var prev := BulkUpdateById(s, init, p, stamp);
      var step := UpdateById(prev.store, x, p, stamp);
      var extra := if step.task.Some? then [step.task.value] else [];
      BulkUpdateSnoc(s, init, x, p, stamp);
      IdsAppend(prev.updated, extra);
      BulkUpdateReturnsPresent(s, init, p, stamp);
      UpdateReturnsPresent(prev.store, s, x, p, stamp);
      FilterAppend(init, [x], PresentIn(s));
    }
  }

  lemma IdsAppend(a: seq<Task>, b: seq<Task>)
    ensures TaskIds(a + b) == TaskIds(a) + TaskIds(b)
  {
  }

  /**
   * `r` is `s` with every task whose Id is listed merged once and every other task as
   * it was.
   */
  ghost predicate MergedWhereListed(s: seq<Task>, r: seq<Task>, ids: seq<int>, p: TaskPatch, stamp: int) {
    |r| == |s| && forall i :: 0 <= i < |s| ==> r[i] == if s[i].id in ids then ApplyPatch(s[i], p, stamp) else s[i]
  }

  /** One more `update` of the bulk pass keeps the description, with its id listed. */
  lemma MergedStep(s: seq<Task>, prev: seq<Task>, init: seq<int>, x: int, p: TaskPatch, stamp: int)
    requires UniqueIds(s) && MergedWhereListed(s, prev, init, p, stamp)
    ensures MergedWhereListed(s, UpdateById(prev, x, p, stamp).store, init + [x], p, stamp)
  {
    assert forall i :: 0 <= i < |s| ==> prev[i].id == s[i].id;
    UpdateByIdPointwise(prev, x, p, stamp);
    var r := UpdateById(prev, x, p, stamp).store;
    forall i | 0 <= i < |s|
      ensures r[i] == if s[i].id in init + [x] then ApplyPatch(s[i], p, stamp) else s[i]
    {
      if s[i].id == x && s[i].id in init {
        ApplyPatchIdempotent(s[i], p, stamp, stamp);
      }
    }
  }

  /**
   * With unique Ids, a bulk update leaves every task whose Id is listed merged once
   * (merging again changes nothing, whatever the clock) and every other task as it was.
   */
  lemma {:induction false} BulkUpdatePointwise(s: seq<Task>, ids: seq<int>, p: TaskPatch, stamp: int)
    requires UniqueIds(s)
    ensures MergedWhereListed(s, BulkUpdateById(s, ids, p, stamp).store, ids, p, stamp)
  {
    if ids == [] {
      assert MergedWhereListed(s, s, ids, p, stamp);
    } else {
      var init, x := ids[..|ids| - 1], ids[|ids| - 1];
      var prev := BulkUpdateById(s, init, p, stamp).store;
      assert init + [x] == ids;
      BulkUpdateSnoc(s, init, x, p, stamp);
      BulkUpdatePointwise(s, init, p, stamp);
      MergedStep(s, prev, init, x, p, stamp);
    }
  }

  /** What a bulk delete leaves: the new list and the ids it reports removed. */
  datatype BulkDeleted = BulkDeleted(store: seq<Task>, deleted: seq<int>)

  /** `bulkDelete(ids)`: `delete` for each id in turn, collecting the ids that removed a task. */
  function BulkDeleteById(s: seq<Task>, ids: seq<int>): (r: BulkDeleted)
    ensures |r.deleted| <= |ids|
  {
    if ids == [] then BulkDeleted(s, [])
    else
      var prev := BulkDeleteById(s, ids[..|ids| - 1]);
      var x := ids[|ids| - 1];
      if x in TaskIds(prev.store) then BulkDeleted(DeleteById(prev.store, x), prev.deleted + [x])
      else prev
  }

  /** The bulk delete of `ids` followed by one more id: one more `delete`. */
  lemma BulkDeleteSnoc(s: seq<Task>, ids: seq<int>, x: int)
    ensures var prev := BulkDeleteById(s, ids);
      BulkDeleteById(s, ids + [x])
        == if x in TaskIds(prev.store) then BulkDeleted(DeleteById(prev.store, x), prev.deleted + [x]) else prev
  {
    assert (ids + [x])[..|ids|] == ids;
  }

  /** `task => !ids.includes(task.Id)`. */
  function NotListed(ids: seq<int>): Task -> bool {
    (t: Task) => t.id !in ids
  }

  /** Filtering a list with unique Ids keeps its Ids unique. */
  lemma FilterKeepsUniqueIds(s: seq<Task>, p: Task -> bool)
    requires UniqueIds(s)
    ensures UniqueIds(Filter(s, p))
  {
    FilterIsSubsequence(s, p);
    SubsequenceUniqueIds(Filter(s, p), s);
  }

  /** A subsequence of a list with unique Ids has unique Ids. */
  lemma {:induction false} SubsequenceUniqueIds(r: seq<Task>, s: seq<Task>)
    requires UniqueIds(s) && IsSubsequence(r, s)
    ensures UniqueIds(r)
    ensures forall t :: t in r ==> t in s
    decreases |s|
  {
    if r != [] {
      if r[0] == s[0] {
        SubsequenceUniqueIds(r[1..], s[1..]);
        forall j | 0 < j < |r|
          ensures r[0].id != r[j].id
        {
          assert r[j] == r[1..][j - 1] && r[1..][j - 1] in r[1..];
          assert r[j] in s[1..];
          var k :| 0 <= k < |s| - 1 && s[1..][k] == r[j];
          assert s[k + 1] == r[j];
        }
        forall t | t in r
          ensures t in s
        {
          if t != r[0] {
            assert t in r[1..];
          }
        }
      } else {
        SubsequenceUniqueIds(r, s[1..]);
      }
    }
  }

  /** The Ids left after dropping the listed ones are the Ids that are not listed. */
  lemma IdsOfUnlisted(s: seq<Task>, ids: seq<int>, x: int)
    ensures x in TaskIds(Filter(s, NotListed(ids))) <==> x in TaskIds(s) && x !in ids
  {
    var f := Filter(s, NotListed(ids));
    FilterMembers(s, NotListed(ids));
    if x in TaskIds(f) {
      var i :| 0 <= i < |f| && f[i].id == x;
      assert f[i] in f;
    }
    if x in TaskIds(s) && x !in ids {
      var i :| 0 <= i < |s| && s[i].id == x;
      assert s[i] in f;
      var j :| 0 <= j < |f| && f[j] == s[i];
      assert TaskIds(f)[j] == x;
    }
  }

  /**
   * With unique Ids, a bulk delete removes exactly the tasks whose Id is listed and
   * keeps the order of the rest.
   */
  lemma {:induction false} BulkDeleteRemovesListed(s: seq<Task>, ids: seq<int>)
    requires UniqueIds(s)
    ensures BulkDeleteById(s, ids).store == Filter(s, NotListed(ids))
  {
    if ids == [] {
      FilterAll(s, NotListed(ids));
    } else {
      var init, x := ids[..|ids| - 1], ids[|ids| - 1];
      var prev := BulkDeleteById(s, init).store;
      BulkDeleteRemovesListed(s, init);
      assert forall y :: y in ids <==> y in init || y == x by {
        assert ids == init + [x];
      }
      if x in TaskIds(prev) {
        FilterKeepsUniqueIds(s, NotListed(init));
        DeleteByIdFilters(prev, x);
        FilterTwice(s, NotListed(init), OtherId(x), NotListed(ids));
      } else {
        IdsOfUnlisted(s, init, x);
        forall t | t in s
          ensures NotListed(init)(t) == NotListed(ids)(t)
        {
          if t.id == x {
            IdOfMember(s, t);
          }
        }
        FilterExt(s, NotListed(init), NotListed(ids));
      }
    }
  }

  /**
   * With unique Ids, a bulk delete reports each removed Id once: the reported ids are
   * exactly the listed ids that named a task.
   */
  lemma {:induction false} BulkDeleteReportsRemoved(s: seq<Task>, ids: seq<int>)
    requires UniqueIds(s)
    ensures var d := BulkDeleteById(s, ids).deleted;
      NoDuplicates(d) && forall x :: x in d <==> x in ids && x in TaskIds(s)
  {
    if ids != [] {
      var init, x := ids[..|ids| - 1], ids[|ids| - 1];
      var prev := BulkDeleteById(s, init);
      BulkDeleteSnoc(s, init, x);
      BulkDeleteReportsRemoved(s, init);
      assert x in TaskIds(prev.store) <==> x in TaskIds(s) && x !in init by {
        BulkDeleteRemovesListed(s, init);
        IdsOfUnlisted(s, init, x);
      }
      assert ids == init + [x];
      if x in TaskIds(prev.store) {
        NoDuplicatesSnoc(prev.deleted, x);
      }
    }
  }

  lemma IdOfMember(s: seq<Task>, t: Task)
    requires t in s
    ensures t.id in TaskIds(s)
  {
    var i :| 0 <= i < |s| && s[i] == t;
    assert TaskIds(s)[i] == t.id;
  }

  /**
   * Under the corrected Id rule `RecordIds.NextId`, a new task gets an Id that no
   * stored task has, so the Ids stay unique; it carries no completion instant and is
   * stamped with the clock. (As written, an emptied store hands out -Infinity to every
   * new task, and the Ids repeat: see `RecordIds.EmptiedStoreRepeatsId`.)
   */
  lemma CreateKeepsUniqueIds(s: seq<Task>, d: TaskDraft, stamp: int)
    requires UniqueIds(s)
    ensures var t := NewTask(d, RecordIds.NextId(TaskIds(s)), stamp);
      t.id !in TaskIds(s) && UniqueIds(s + [t]) && t.completedAt.None? && t.createdAt == stamp
  {
    var ids := TaskIds(s);
    var t := NewTask(d, RecordIds.NextId(ids), stamp);
    forall i | 0 <= i < |s|
      ensures s[i].id < t.id
    {
      assert ids[i] == s[i].id;
    }
    AppendKeepsUniqueIds(s, t);
  }

  /** Appending a task whose Id exceeds every stored Id keeps the Ids unique. */
  lemma AppendKeepsUniqueIds(s: seq<Task>, t: Task)
    requires UniqueIds(s)
    requires forall i :: 0 <= i < |s| ==> s[i].id < t.id
    ensures UniqueIds(s + [t])
  {
    var r := s + [t];
    forall i, j | 0 <= i < j < |r|
      ensures r[i].id != r[j].id
    {
      assert r[i] == s[i];
      if j < |s| {
        assert r[j] == s[j];
      }
    }
  }

  /** The store: the module-level `tasks` array. */
  class TaskStore {
    var tasks: seq<Task>

    /** No two stored tasks share an Id. */
    ghost predicate Valid()
      reads this
    {
      UniqueIds(tasks)
    }

    /** The store as loaded from the mock data, whose Ids are unique. */
    constructor(initial: seq<Task>)
      requires UniqueIds(initial)
      ensures Valid() && tasks == initial
    {
      tasks := initial;
    }

    /** `getAll()`: a copy of the list; the store does not change. */
    method GetAll() returns (r: seq<Task>)
      ensures r == tasks
    {
      r := tasks;
    }

    /** `getById(id)`: a copy of the task with that Id, `null` when there is none. */
    method GetById(id: int) returns (r: Option<Task>)
      ensures r == Find(tasks, id)
    {
      var k := FindIndex(tasks, HasId(id));
      if k == -1 {
        r := None;
      } else {
        r := Some(tasks[k]);
      }
    }

    /**
     * `create(taskData)` with the corrected Id rule `RecordIds.NextId`: appends one
     * task with a fresh Id, stamped now, with no completion instant.
     */
    method Create(d: TaskDraft, stamp: int) returns (t: Task)
      requires Valid()
      modifies this
      ensures Valid()
      ensures t == NewTask(d, RecordIds.NextId(TaskIds(old(tasks))), stamp)
      ensures tasks == old(tasks) + [t]
    {
      CreateKeepsUniqueIds(tasks, d, stamp);
      t := NewTask(d, RecordIds.NextId(TaskIds(tasks)), stamp);
      tasks := tasks + [t];
    }

    /** `update(id, updateData)`. */
    method Update(id: int, p: TaskPatch, stamp: int) returns (r: Option<Task>)
      requires Valid()
      modifies this
      ensures Valid()
      ensures Updated(tasks, r) == UpdateById(old(tasks), id, p, stamp)
    {
      var k := FindIndex(tasks, HasId(id));
      if k == -1 {
        r := None;
        return;
      }
      var u := ApplyPatch(tasks[k], p, stamp);
      tasks := tasks[k := u];
      r := Some(u);
    }

    /** `delete(id)`: `true` when a task was removed. */
    method Delete(id: int) returns (removed: bool)
      requires Valid()
      modifies this
      ensures Valid()
      ensures removed <==> id in TaskIds(old(tasks))
      ensures tasks == DeleteById(old(tasks), id)
    {
      var k := FindIndex(tasks, HasId(id));
      if k == -1 {
        return false;
      }
      DeleteByIdFilters(tasks, id);
      FilterKeepsUniqueIds(tasks, OtherId(id));
      tasks := tasks[..k] + tasks[k + 1..];
      removed := true;
    }

    /** `bulkUpdate(ids, updateData)`: one pass over `ids`. */
    method BulkUpdate(ids: seq<int>, p: TaskPatch, stamp: int) returns (updated: seq<Task>)
      requires Valid()
      modifies this
      ensures Valid()
      ensures BulkUpdated(tasks, updated) == BulkUpdateById(old(tasks), ids, p, stamp)
    {
      updated := [];
      var n := 0;
      while n < |ids|
        invariant 0 <= n <= |ids|
        invariant Valid()
        invariant BulkUpdated(tasks, updated) == BulkUpdateById(old(tasks), ids[..n], p, stamp)
      {
        assert ids[..n + 1] == ids[..n] + [ids[n]];
        BulkUpdateSnoc(old(tasks), ids[..n], ids[n], p, stamp);
        var r := Update(ids[n], p, stamp);
        if r.Some? {
          updated := updated + [r.value];
        }
        n := n + 1;
      }
      assert ids[..n] == ids;
    }

    /** `bulkDelete(ids)`: one pass over `ids`, reporting the ids that removed a task. */
    method BulkDelete(ids: seq<int>) returns (deleted: seq<int>)
      requires Valid()
      modifies this
      ensures Valid()
      ensures BulkDeleted(tasks, deleted) == BulkDeleteById(old(tasks), ids)
    {
      deleted := [];
      var n := 0;
      while n < |ids|
        invariant 0 <= n <= |ids|
        invariant Valid()
        invariant BulkDeleted(tasks, deleted) == BulkDeleteById(old(tasks), ids[..n])
      {
        assert ids[..n + 1][..n] == ids[..n];
        var removed := Delete(ids[n]);
        if removed {
          deleted := deleted + [ids[n]];
        }
        n := n + 1;
      }
      assert ids[..n] == ids;
    }
  }
}
