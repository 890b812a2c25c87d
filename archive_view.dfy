/**
 * The Archive page: the completed tasks, most recently completed first, and their
 * grouping by completion day.
 */
module ArchiveView {
  import opened Wrappers
  import opened Lists
  import opened Records
  import opened Reconcile
  import opened Sorting
  import Grouping
  import Dates
  import TaskFilters
  import FilterBar

  function IsDone(): Task -> bool {
    (t: Task) => t.completed
  }

  /**
   * The archive comparator as written: two tasks without `completedAt` tie, a task
   * without one sorts after a task with one, and otherwise the later completion
   * comes first (`b.completedAt - a.completedAt`).
   */
  function Compare(a: Task, b: Task): int {
    if a.completedAt.None? && b.completedAt.None? then 0
    else if a.completedAt.None? then 1
    else if b.completedAt.None? then -1
    else b.completedAt.value - a.completedAt.value
  }

  /** The comparator as a sort key: completed tasks by descending instant, then the rest. */
  function ArchiveRank(t: Task): Rank {
    match t.completedAt
    case Some(c) => Rank(0, -c)
    case None => Rank(1, 0)
  }

  /** The comparator and the key order agree on every pair: negative, zero and positive. */
  lemma CompareIsRank(a: Task, b: Task)
    ensures Compare(a, b) < 0 <==> Below(ArchiveRank(a), ArchiveRank(b))
    ensures Compare(a, b) == 0 <==> ArchiveRank(a) == ArchiveRank(b)
    ensures Compare(a, b) > 0 <==> Below(ArchiveRank(b), ArchiveRank(a))
  {
  }

  /** The page's invariant: every listed task is completed and the list is in archive order. */
  predicate Valid(s: seq<Task>) {
    All(s, IsDone()) && SortedBy(s, ArchiveRank)
  }

  /** `loadData`: the completed tasks, stably sorted with the archive comparator. */
  function Loaded(all: seq<Task>): (r: seq<Task>)
    ensures forall t :: t in r <==> t in all && t.completed
  {
    var done := Filter(all, IsDone());
    FilterMembers(all, IsDone());
    SortByMembers(done, ArchiveRank);
    SortBy(done, ArchiveRank)
  }

  /**
   * `handleTaskUpdated`: a completed task replaces its Id and the list is re-sorted;
   * a reopened one is removed.
   */
  function Updated(s: seq<Task>, u: Task): seq<Task> {
    if u.completed then SortBy(ReplaceById(s, u), ArchiveRank) else RemoveById(s, u.id)
  }

  /**
   * In archive order, tasks with a completion instant come first, newest first, and
   * tasks without one come last.
   */
  lemma SortedIsNewestFirst(s: seq<Task>)
    requires SortedBy(s, ArchiveRank)
    ensures forall i, j :: 0 <= i < j < |s| && s[j].completedAt.Some? ==>
      s[i].completedAt.Some? && s[i].completedAt.value >= s[j].completedAt.value
  {
    forall i, j | 0 <= i < j < |s| && s[j].completedAt.Some?
      ensures s[i].completedAt.Some? && s[i].completedAt.value >= s[j].completedAt.value
    {
      assert !Below(ArchiveRank(s[j]), ArchiveRank(s[i]));
    }
  }

  /** The loaded list is valid and holds each completed task as often as the store does. */
  lemma LoadedValid(all: seq<Task>)
    ensures Valid(Loaded(all))
    ensures multiset(Loaded(all)) == multiset(Filter(all, IsDone()))
  {
    var done := Filter(all, IsDone());
    SortBySorted(done, ArchiveRank);
    SortByPermutation(done, ArchiveRank);
  }

  /**
   * Updating keeps the page valid and never brings in a task that was not listed; a
   * completed update keeps the length, and a reopened one acts as a delete.
   */
  lemma UpdateKeepsValid(s: seq<Task>, u: Task)
    requires Valid(s)
    ensures Valid(Updated(s, u))
    ensures forall t :: t in Updated(s, u) ==> t in s || (t == u && u.id in TaskIds(s))
    ensures u.completed ==> |Updated(s, u)| == |s|
    ensures !u.completed ==> Updated(s, u) == RemoveById(s, u.id)
  {
    var m := ReplaceById(s, u);
    ReplaceMembers(s, u);
    if u.completed {
      SortBySorted(m, ArchiveRank);
      SortByMembers(m, ArchiveRank);
    } else {
      FilterSorted(s, ArchiveRank, OtherId(u.id));
    }
  }

  /** Deleting keeps the page valid. */
  lemma DeleteKeepsValid(s: seq<Task>, id: int)
    requires Valid(s)
    ensures Valid(RemoveById(s, id))
  {
    FilterSorted(s, ArchiveRank, OtherId(id));
  }

  /** `format(new Date(task.completedAt), "yyyy-MM-dd")` as a day number; no group without one. */
  function CompletionDay(t: Task): Option<int> {
    match t.completedAt
    case Some(c) => Some(Dates.Day(c))
    case None => None
  }

  /**
   * `groupedTasks`: a task without `completedAt` is in no group; every other
   * filtered task is in the group of its completion day and no other, in filtered
   * order.
   */
  method GroupedTasks(filtered: seq<Task>) returns (groups: map<int, seq<Task>>)
    ensures forall d :: d in groups <==> exists t :: t in filtered && CompletionDay(t) == Some(d)
    ensures forall d :: d in groups ==> groups[d] == Filter(filtered, Grouping.HasKey(CompletionDay, d))
    ensures forall t, d :: t in filtered && d in groups ==> (t in groups[d] <==> CompletionDay(t) == Some(d))
    ensures forall t :: t in filtered && t.completedAt.Some? ==> Dates.Day(t.completedAt.value) in groups
  {
    groups := Grouping.GroupBy(filtered, CompletionDay);
    forall t | t in filtered {
      Grouping.ExactlyOneGroup(filtered, CompletionDay, groups, t);
    }
    forall d
      ensures d in groups <==> exists t :: t in filtered && CompletionDay(t) == Some(d)
    {
      if d in groups {
        var i :| 0 <= i < |filtered| && CompletionDay(filtered[i]) == Some(d);
        assert filtered[i] in filtered;
      }
    }
  }

  /**
   * The record the page hands its filter bar: the hook's state with "Show completed"
   * forced on. The bar shows it and builds every change from it.
   */
  function BarFilters(state: TaskFilters.Filters): (r: TaskFilters.Filters)
    ensures r.showCompleted
    ensures r.(showCompleted := state.showCompleted) == state
  {
    state.(showCompleted := true)
  }

  /**
   * As written, the page filters its tasks with the hook's own state, not with the
   * record the bar shows. Starting from the defaults, unticking "Show completed"
   * empties the page while the box still shows ticked and Clear stays hidden, and
   * the next change of any other filter, here the date range, ticks it back.
   */
  lemma UntickEmptiesPage(s: seq<Task>, now: int, range: TaskFilters.DateRange)
    requires forall t :: t in s ==> t.completed
    ensures var state := TaskFilters.Merge(TaskFilters.DefaultFilters,
        FilterBar.WholePatch(FilterBar.OnShowCompletedChange(BarFilters(TaskFilters.DefaultFilters), false)));
      && state != TaskFilters.DefaultFilters
      && BarFilters(state).showCompleted
      && !FilterBar.ShowsClear(BarFilters(state))
      && TaskFilters.FilteredTasks(Some(s), state, now) == []
      && TaskFilters.Merge(state, FilterBar.WholePatch(FilterBar.OnDateRangeChange(BarFilters(state), range))).showCompleted
  {
    var state := TaskFilters.Merge(TaskFilters.DefaultFilters,
      FilterBar.WholePatch(FilterBar.OnShowCompletedChange(BarFilters(TaskFilters.DefaultFilters), false)));
    assert state == TaskFilters.DefaultFilters.(showCompleted := false);
    FilterNone(s, TaskFilters.Keep(state, now));
  }

  /**
   * The corrected list: the tasks filtered with the record the bar shows, so that
   * "Show completed" is always on for the archive.
   */
  function ArchiveList(s: seq<Task>, state: TaskFilters.Filters, now: int): (r: seq<Task>)
    ensures IsSubsequence(r, s)
    ensures forall t :: t in r <==> t in s && TaskFilters.Passes(state.(showCompleted := true), t, now)
  {
    TaskFilters.FilteredTasks(Some(s), BarFilters(state), now)
  }

  /**
   * With the corrected list, the bar shows the filters the list uses: Clear shows
   * exactly when clearing would change them (search aside), the box cannot empty
   * the page, each other handler changes only its own field of those filters, and
   * with Clear hidden the list is exactly the search matches.
   */
  lemma BarMatchesArchiveList(s: seq<Task>, state: TaskFilters.Filters, now: int,
                              shown: bool, range: TaskFilters.DateRange, categoryId: string, priorities: seq<string>)
    ensures BarFilters(TaskFilters.DefaultFilters) == TaskFilters.DefaultFilters
    ensures FilterBar.ShowsClear(BarFilters(state)) <==>
      BarFilters(state).(search := "") != BarFilters(TaskFilters.DefaultFilters)
    ensures ArchiveList(s, TaskFilters.Merge(state, FilterBar.WholePatch(FilterBar.OnShowCompletedChange(BarFilters(state), shown))), now)
      == ArchiveList(s, state, now)
    ensures BarFilters(TaskFilters.Merge(state, FilterBar.WholePatch(FilterBar.OnDateRangeChange(BarFilters(state), range))))
      == BarFilters(state).(dateRange := range)
    ensures BarFilters(TaskFilters.Merge(state, FilterBar.WholePatch(FilterBar.OnCategoryChange(BarFilters(state), categoryId))))
      == BarFilters(state).(categories := FilterBar.CategoryChoice(categoryId))
    ensures BarFilters(TaskFilters.Merge(state, FilterBar.WholePatch(FilterBar.OnPriorityChange(BarFilters(state), priorities))))
      == BarFilters(state).(priorities := priorities)
    ensures !FilterBar.ShowsClear(BarFilters(state)) ==>
      ArchiveList(s, state, now) == TaskFilters.FilteredTasks(Some(s), TaskFilters.DefaultFilters.(search := state.search), now)
  {
    if !FilterBar.ShowsClear(BarFilters(state)) {
      assert BarFilters(state) == TaskFilters.DefaultFilters.(search := state.search);
    }
  }

  const LoadError := "Failed to load archived tasks. Please try again."

  /** The page's state; the categories are loaded for display only. */
  class ArchivePage {
    var tasks: seq<Task>
    var categories: seq<Category>
    var error: string

    constructor()
      ensures tasks == [] && categories == [] && error == ""
    {
      tasks := [];
      categories := [];
      error := "";
    }

    /**
     * `loadData`: both store reads must succeed; then the completed tasks are
     * copied out and sorted in place.
     */
    method LoadData(fetchedTasks: Option<seq<Task>>, fetchedCategories: Option<seq<Category>>)
      modifies this
      ensures fetchedTasks.Some? && fetchedCategories.Some? ==>
        tasks == Loaded(fetchedTasks.value) && categories == fetchedCategories.value && error == ""
      ensures fetchedTasks.None? || fetchedCategories.None? ==>
        tasks == old(tasks) && categories == old(categories) && error == LoadError
    {
      error := "";
      if fetchedTasks.Some? && fetchedCategories.Some? {
        tasks := SortedCopy(Filter(fetchedTasks.value, IsDone()), ArchiveRank);
        categories := fetchedCategories.value;
      } else {
        error := LoadError;
      }
    }

    method TaskUpdated(u: Task)
      modifies this
      ensures tasks == Updated(old(tasks), u)
      ensures categories == old(categories) && error == old(error)
    {
      if u.completed {
        tasks := SortedCopy(ReplaceById(tasks, u), ArchiveRank);
      } else {
        tasks := RemoveById(tasks, u.id);
      }
    }

    method TaskDeleted(id: int)
      modifies this
      ensures tasks == RemoveById(old(tasks), id)
      ensures categories == old(categories) && error == old(error)
    {
      tasks := RemoveById(tasks, id);
    }
  }
}
