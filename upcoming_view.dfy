/**
 * The Upcoming page: the tasks due after the start of tomorrow, kept sorted by due
 * date, and their grouping by due day.
 */
module UpcomingView {
  import opened Wrappers
  import opened Lists
  import opened Records
  import opened Reconcile
  import opened Sorting
  import Grouping
  import Dates

  /** `task.dueDate && isAfter(new Date(task.dueDate), startOfDay(addDays(now, 1)))`. */
  predicate Qualifies(t: Task, now: int) {
    t.dueDate.Some? && Dates.IsAfter(t.dueDate.value, Dates.StartOfTomorrow(now))
  }

  function IsUpcoming(now: int): Task -> bool {
    (t: Task) => Qualifies(t, now)
  }

  /** `new Date(task.dueDate)` as the comparator sees it: a missing due date is the epoch. */
  function DueKey(t: Task): int {
    t.dueDate.GetOr(0)
  }

  /** `(a, b) => new Date(a.dueDate) - new Date(b.dueDate)` as a sort key. */
  function DueRank(t: Task): Rank {
    Rank(0, DueKey(t))
  }

  /** The page's invariant: every listed task qualifies and the list is in due-date order. */
  predicate Valid(s: seq<Task>, now: int) {
    All(s, IsUpcoming(now)) && SortedBy(s, DueRank)
  }

  /** `loadData`: the qualifying tasks, stably sorted by due date. */
  function Loaded(all: seq<Task>, now: int): (r: seq<Task>)
    ensures forall t :: t in r <==> t in all && Qualifies(t, now)
  {
    var q := Filter(all, IsUpcoming(now));
    FilterMembers(all, IsUpcoming(now));
    SortByMembers(q, DueRank);
    SortBy(q, DueRank)
  }

  /** `handleTaskAdded`: a qualifying task is prepended and the list re-sorted; any other is ignored. */
  function Added(s: seq<Task>, t: Task, now: int): seq<Task> {
    if Qualifies(t, now) then SortBy([t] + s, DueRank) else s
  }

  /**
   * `handleTaskUpdated`: the task of that Id replaced, dropped unless it still
   * qualifies, and the list re-sorted.
   */
  function Updated(s: seq<Task>, u: Task, now: int): seq<Task> {
    var m := ReplaceById(s, u);
    SortBy(if Qualifies(u, now) then m else RemoveById(m, u.id), DueRank)
  }

  /** Sorted by `DueRank` means ascending by due date. */
  lemma SortedIsAscending(s: seq<Task>)
    requires SortedBy(s, DueRank)
    ensures forall i, j :: 0 <= i < j < |s| ==> DueKey(s[i]) <= DueKey(s[j])
  {
  }

  /**
   * The loaded list is valid, holds each qualifying task as often as the store
   * does, and keeps the store's order among tasks due at the same instant.
   */
  lemma LoadedValid(all: seq<Task>, now: int, due: int)
    ensures Valid(Loaded(all, now), now)
    ensures multiset(Loaded(all, now)) == multiset(Filter(all, IsUpcoming(now)))
    ensures Filter(Loaded(all, now), HasRank(DueRank, Rank(0, due)))
      == Filter(Filter(all, IsUpcoming(now)), HasRank(DueRank, Rank(0, due)))
  {
    var q := Filter(all, IsUpcoming(now));
    SortBySorted(q, DueRank);
    SortByPermutation(q, DueRank);
    SortByStable(q, DueRank, Rank(0, due));
  }

  /** A qualifying task is due after the current instant and not today. */
  lemma QualifiesIsLater(t: Task, now: int)
    requires Qualifies(t, now)
    ensures t.dueDate.value > now && !Dates.IsToday(t.dueDate.value, now)
  {
    Dates.AfterTomorrowStart(t.dueDate.value, now);
  }

  /**
   * Adding keeps the page valid; a qualifying task is added once, and any other
   * leaves the list as it was.
   */
  lemma AddKeepsValid(s: seq<Task>, t: Task, now: int)
    requires Valid(s, now)
    ensures Valid(Added(s, t, now), now)
    ensures Qualifies(t, now) ==> multiset(Added(s, t, now)) == multiset(s) + multiset{t}
    ensures !Qualifies(t, now) ==> Added(s, t, now) == s
  {
    if Qualifies(t, now) {
      SortBySorted([t] + s, DueRank);
      SortByMembers([t] + s, DueRank);
      SortByPermutation([t] + s, DueRank);
    }
  }

  /** Updating keeps the page valid and never brings in a task that was not listed. */
  lemma UpdateKeepsValid(s: seq<Task>, u: Task, now: int)
    requires Valid(s, now)
    ensures Valid(Updated(s, u, now), now)
    ensures forall t :: t in Updated(s, u, now) ==> t in s || (t == u && u.id in TaskIds(s))
  {
    var m := ReplaceById(s, u);
    var kept := if Qualifies(u, now) then m else RemoveById(m, u.id);
    ReplaceMembers(s, u);
    SortBySorted(kept, DueRank);
    SortByMembers(kept, DueRank);
  }

  /**
   * An update that makes a task stop qualifying acts as a delete: re-sorting the
   * already ordered remainder moves nothing.
   */
  lemma UpdateDisqualified(s: seq<Task>, u: Task, now: int)
    requires Valid(s, now) && !Qualifies(u, now)
    ensures Updated(s, u, now) == RemoveById(s, u.id)
  {
    ReplaceThenRemove(s, u);
    FilterSorted(s, DueRank, OtherId(u.id));
    SortBySortedIsIdentity(RemoveById(s, u.id), DueRank);
  }

  /** Deleting keeps the page valid. */
  lemma DeleteKeepsValid(s: seq<Task>, id: int, now: int)
    requires Valid(s, now)
    ensures Valid(RemoveById(s, id), now)
  {
    FilterSorted(s, DueRank, OtherId(id));
  }

  /** `format(new Date(task.dueDate), "yyyy-MM-dd")`, as a day number. */
  function DueDay(t: Task): Option<int> {
    Some(Dates.Day(DueKey(t)))
  }

  /**
   * `groupedTasks`: every filtered task in the group of its due day, the groups in
   * filtered order.
   */
  method GroupedTasks(filtered: seq<Task>) returns (groups: map<int, seq<Task>>)
    ensures forall d :: d in groups <==> exists t :: t in filtered && Dates.Day(DueKey(t)) == d
    ensures forall d :: d in groups ==> groups[d] == Filter(filtered, Grouping.HasKey(DueDay, d))
    ensures forall t :: t in filtered ==> Dates.Day(DueKey(t)) in groups && t in groups[Dates.Day(DueKey(t))]
    ensures forall t, d :: t in filtered && d in groups && d != Dates.Day(DueKey(t)) ==> t !in groups[d]
  {
    groups := Grouping.GroupBy(filtered, DueDay);
    forall t | t in filtered {
      Grouping.ExactlyOneGroup(filtered, DueDay, groups, t);
    }
    forall d
      ensures d in groups <==> exists t :: t in filtered && Dates.Day(DueKey(t)) == d
    {
      if d in groups {
        var i :| 0 <= i < |filtered| && DueDay(filtered[i]) == Some(d);
        assert filtered[i] in filtered;
      }
    }
  }

  const LoadError := "Failed to load upcoming tasks. Please try again."

  /** The page's state. */
  class UpcomingPage {
    var tasks: seq<Task>
    var error: string

    constructor()
      ensures tasks == [] && error == ""
    {
      tasks := [];
      error := "";
    }

    /** `loadData`: the qualifying tasks copied out and sorted in place. */
    method LoadData(fetched: Option<seq<Task>>, now: int)
      modifies this
      ensures fetched.Some? ==> tasks == Loaded(fetched.value, now) && error == ""
      ensures fetched.None? ==> tasks == old(tasks) && error == LoadError
    {
      error := "";
      if fetched.Some? {
        tasks := SortedCopy(Filter(fetched.value, IsUpcoming(now)), DueRank);
      } else {
        error := LoadError;
      }
    }

    method TaskAdded(t: Task, now: int)
      modifies this
      ensures tasks == Added(old(tasks), t, now) && error == old(error)
    {
      if Qualifies(t, now) {
        tasks := SortedCopy([t] + tasks, DueRank);
      }
    }

    method TaskUpdated(u: Task, now: int)
      modifies this
      ensures tasks == Updated(old(tasks), u, now) && error == old(error)
    {
      var m := ReplaceById(tasks, u);
      if !Qualifies(u, now) {
        m := RemoveById(m, u.id);
      }
      tasks := SortedCopy(m, DueRank);
    }

    method TaskDeleted(id: int)
      modifies this
      ensures tasks == RemoveById(old(tasks), id) && error == old(error)
    {
      tasks := RemoveById(tasks, id);
    }
  }
}
