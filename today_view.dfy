/**
 * The Today page: the tasks due on the current calendar day, the handlers that keep
 * that list in step with the store; its completed/total counters are those of TaskCounts.
 */
module TodayView {
  import opened Wrappers
  import opened Lists
  import opened Records
  import opened Reconcile
  import Dates

  /** `task.dueDate && isToday(new Date(task.dueDate))`. */
  predicate DueToday(t: Task, now: int) {
    t.dueDate.Some? && Dates.IsToday(t.dueDate.value, now)
  }

  function IsDueToday(now: int): Task -> bool {
    (t: Task) => DueToday(t, now)
  }

  /** `loadData`: the tasks due today, in the store's order. */
  function Loaded(all: seq<Task>, now: int): (r: seq<Task>)
    ensures IsSubsequence(r, all)
    ensures forall t :: t in r <==> t in all && DueToday(t, now)
  {
    FilterMembers(all, IsDueToday(now));
    FilterIsSubsequence(all, IsDueToday(now));
    Filter(all, IsDueToday(now))
  }

  /** `handleTaskAdded`: prepended when due today, otherwise ignored. */
  function Added(s: seq<Task>, t: Task, now: int): seq<Task> {
    if DueToday(t, now) then [t] + s else s
  }

  /**
   * `handleTaskUpdated`: the task of that Id replaced; then dropped when it now has a
   * due date on another day. A task whose due date was cleared stays.
   */
  function Updated(s: seq<Task>, u: Task, now: int): seq<Task> {
    var m := ReplaceById(s, u);
    if u.dueDate.Some? && !Dates.IsToday(u.dueDate.value, now) then RemoveById(m, u.id) else m
  }

  /** The loaded tasks are those due within today's half-open window of instants. */
  lemma LoadedWindow(all: seq<Task>, now: int)
    ensures forall t :: t in Loaded(all, now) <==>
      t in all && t.dueDate.Some? && Dates.StartOfDay(now) <= t.dueDate.value < Dates.StartOfTomorrow(now)
  {
    forall t: Task | t.dueDate.Some? {
      Dates.TodayIff(t.dueDate.value, now);
    }
  }

  /** An added task grows the list by one exactly when it is due today; the list stays due-today. */
  lemma AddedIff(s: seq<Task>, t: Task, now: int)
    requires All(s, IsDueToday(now))
    ensures |Added(s, t, now)| == |s| + 1 <==> DueToday(t, now)
    ensures !DueToday(t, now) ==> Added(s, t, now) == s
    ensures All(Added(s, t, now), IsDueToday(now))
  {
  }

  /**
   * An update never brings in a task the list did not hold: everything after it was
   * listed before, or is the replacement of a listed task.
   */
  lemma UpdateNeverAdds(s: seq<Task>, u: Task, now: int)
    ensures forall t :: t in Updated(s, u, now) ==> t in s || (t == u && u.id in TaskIds(s))
  {
    ReplaceMembers(s, u);
  }

  /** An update that moves the due date to another day acts as a delete of that task. */
  lemma UpdateMovedAway(s: seq<Task>, u: Task, now: int)
    requires u.dueDate.Some? && !Dates.IsToday(u.dueDate.value, now)
    ensures Updated(s, u, now) == RemoveById(s, u.id)
  {
    ReplaceThenRemove(s, u);
  }

  /**
   * An update that keeps a due date keeps every listed task due today; one that
   * clears the due date leaves the task listed without one.
   */
  lemma UpdateKeepsDueToday(s: seq<Task>, u: Task, now: int)
    requires All(s, IsDueToday(now))
    ensures u.dueDate.Some? ==> All(Updated(s, u, now), IsDueToday(now))
    ensures u.dueDate.None? && u.id in TaskIds(s) ==> u in Updated(s, u, now) && !DueToday(u, now)
  {
    ReplaceMembers(s, u);
  }

  /** An update with the Id of no listed task changes nothing. */
  lemma UpdateUnknown(s: seq<Task>, u: Task, now: int)
    requires u.id !in TaskIds(s)
    ensures Updated(s, u, now) == s
  {
    ReplaceUnknown(s, u);
    RemoveUnknown(s, u.id);
  }

  const LoadError := "Failed to load today's tasks. Please try again."

  /** The page's state. */
  class TodayPage {
    var tasks: seq<Task>
    var error: string

    constructor()
      ensures tasks == [] && error == ""
    {
      tasks := [];
      error := "";
    }

    /**
     * `loadData`, given what `getAll` produced at the instant `now` (`None` when it
     * failed): the tasks due today, or the error message with the list kept.
     */
    method LoadData(fetched: Option<seq<Task>>, now: int)
      modifies this
      ensures fetched.Some? ==> tasks == Loaded(fetched.value, now) && error == ""
      ensures fetched.None? ==> tasks == old(tasks) && error == LoadError
    {
      error := "";
      if fetched.Some? {
        tasks := Loaded(fetched.value, now);
      } else {
        error := LoadError;
      }
    }

    method TaskAdded(t: Task, now: int)
      modifies this
      ensures tasks == Added(old(tasks), t, now) && error == old(error)
    {
      if DueToday(t, now) {
        tasks := [t] + tasks;
      }
    }

    method TaskUpdated(u: Task, now: int)
      modifies this
      ensures tasks == Updated(old(tasks), u, now) && error == old(error)
    {
      var m := ReplaceById(tasks, u);
      if u.dueDate.Some? && !Dates.IsToday(u.dueDate.value, now) {
        m := RemoveById(m, u.id);
      }
      tasks := m;
    }

    /** `handleTaskDeleted`. */
    method TaskDeleted(id: int)
      modifies this
      ensures tasks == RemoveById(old(tasks), id) && error == old(error)
    {
      tasks := RemoveById(tasks, id);
    }
  }
}
