/**
 * The All Tasks page: every stored task, the three reconciliation handlers without
 * any membership rule, and the Active / Completed / Total counters.
 */
module Dashboard {
  import opened Wrappers
  import opened Lists
  import opened Records
  import opened Reconcile
  import opened TaskCounts

  /**
   * Prepending a task adds one to the list and one to the counter of its state,
   * leaving the other counter as it was.
   */
  lemma AddCounts(s: seq<Task>, t: Task)
    ensures |[t] + s| == |s| + 1
    ensures CompletedCount([t] + s) == CompletedCount(s) + (if t.completed then 1 else 0)
    ensures OpenCount([t] + s) == OpenCount(s) + (if t.completed then 0 else 1)
  {
    FilterCons(t, s, IsCompleted());
    FilterCons(t, s, IsOpen());
  }

  /**
   * Deleting a listed Id from a list with unique Ids removes one task, and lowers the
   * counter of its state by one.
   */
  lemma DeleteCounts(s: seq<Task>, k: nat)
    requires UniqueIds(s) && k < |s|
    ensures var r := RemoveById(s, s[k].id);
      && |r| == |s| - 1
      && CompletedCount(r) == CompletedCount(s) - (if s[k].completed then 1 else 0)
      && OpenCount(r) == OpenCount(s) - (if s[k].completed then 0 else 1)
  {
    forall i | 0 <= i < |s| && i != k
      ensures OtherId(s[k].id)(s[i])
    {
    }
    FilterDropsOne(s, k, OtherId(s[k].id));
    CountsWithout(s, k);
  }

  /** Leaving out the task at position `k` lowers the counter of its state by one. */
  lemma CountsWithout(s: seq<Task>, k: nat)
    requires k < |s|
    ensures CompletedCount(s[..k] + s[k + 1..]) == CompletedCount(s) - (if s[k].completed then 1 else 0)
    ensures OpenCount(s[..k] + s[k + 1..]) == OpenCount(s) - (if s[k].completed then 0 else 1)
  {
    assert s == s[..k] + [s[k]] + s[k + 1..];
    FilterAround(s[..k], s[k], s[k + 1..], IsCompleted());
    FilterAround(s[..k], s[k], s[k + 1..], IsOpen());
    FilterAppend(s[..k], s[k + 1..], IsCompleted());
    FilterAppend(s[..k], s[k + 1..], IsOpen());
  }

  const LoadError := "Failed to load tasks. Please try again."

  /** The page's state. */
  class DashboardPage {
    var tasks: seq<Task>
    var categories: seq<Category>
    var error: string

    constructor()
      ensures tasks == [] && categories == [] && error == ""
    {
      tasks := [];
      categories := [];
      error := "";
    }

    /** `loadData`: both store reads must succeed; then every task and category is kept. */
    method LoadData(fetchedTasks: Option<seq<Task>>, fetchedCategories: Option<seq<Category>>)
      modifies this
      ensures fetchedTasks.Some? && fetchedCategories.Some? ==>
        tasks == fetchedTasks.value && categories == fetchedCategories.value && error == ""
      ensures fetchedTasks.None? || fetchedCategories.None? ==>
        tasks == old(tasks) && categories == old(categories) && error == LoadError
    {
      error := "";
      if fetchedTasks.Some? && fetchedCategories.Some? {
        tasks := fetchedTasks.value;
        categories := fetchedCategories.value;
      } else {
        error := LoadError;
      }
    }

    /** `handleTaskAdded`: always prepended. */
    method TaskAdded(t: Task)
      modifies this
      ensures tasks == [t] + old(tasks)
      ensures categories == old(categories) && error == old(error)
    {
      tasks := [t] + tasks;
    }

    /** `handleTaskUpdated`: replaced in place; length, order and Ids unchanged. */
    method TaskUpdated(u: Task)
      modifies this
      ensures tasks == ReplaceById(old(tasks), u)
      ensures categories == old(categories) && error == old(error)
    {
      tasks := ReplaceById(tasks, u);
    }

    method TaskDeleted(id: int)
      modifies this
      ensures tasks == RemoveById(old(tasks), id)
      ensures categories == old(categories) && error == old(error)
    {
      tasks := RemoveById(tasks, id);
    }
  }
}
