/**
 * One task's card: the completion toggle and the delete button, each guarded by an
 * in-flight flag around its store call, and the pure classifiers of the due date and
 * the priority.
 *
 * An awaited store call is split in two steps: `Begin…` runs up to the `await` and
 * says which request is sent (none when the guard returns early); `Finish…` runs
 * from the `await` on, given how the call ended, and says what the card hands to the
 * page's callback.
 */
module TaskCard {
  import opened Wrappers
  import opened Records
  import TaskService
  import Dates

  /** The due-date colour classes: `text-gray-500`, `text-warning`, `text-accent-500`. */
  datatype DueColor = Neutral | Warning | Accent

  /** What `getDueDateText` shows: nothing, "Today", "Overdue (…)" or a plain date of the due day. */
  datatype DueText = NoText | TodayText | OverdueText(day: int) | DateText(day: int)

  /** `getDueDateColor`: the overdue test is written before the today test. */
  function DueDateColor(t: Task, now: int): DueColor {
    match t.dueDate
    case None => Neutral
    case Some(d) =>
      if Dates.IsPast(d, now) && !Dates.IsToday(d, now) then Accent
      else if Dates.IsToday(d, now) then Warning
      else Neutral
  }

  /** `getDueDateText`: "today" is tested before "past". */
  function DueDateText(t: Task, now: int): DueText {
    match t.dueDate
    case None => NoText
    case Some(d) =>
      if Dates.IsToday(d, now) then TodayText
      else if Dates.IsPast(d, now) then OverdueText(Dates.Day(d))
      else DateText(Dates.Day(d))
  }

  /**
   * Colour and text classify a due date alike, by window: before today is overdue,
   * today is "Today", from tomorrow on is a plain date, and no due date shows nothing.
   */
  lemma DueClassesAgree(t: Task, now: int)
    ensures DueDateText(t, now) == NoText <==> t.dueDate.None?
    ensures DueDateText(t, now) == TodayText <==> DueDateColor(t, now) == Warning
    ensures DueDateText(t, now).OverdueText? <==> DueDateColor(t, now) == Accent
    ensures t.dueDate.Some? ==>
      && (DueDateText(t, now) == TodayText <==>
            Dates.StartOfDay(now) <= t.dueDate.value < Dates.StartOfTomorrow(now))
      && (DueDateText(t, now).OverdueText? <==> t.dueDate.value < Dates.StartOfDay(now))
      && (DueDateText(t, now).DateText? <==> Dates.StartOfTomorrow(now) <= t.dueDate.value)
  {
    if t.dueDate.Some? {
      var d := t.dueDate.value;
      Dates.TodayIff(d, now);
      Dates.OverdueIff(d, now);
      assert Dates.StartOfDay(now) <= now < Dates.StartOfTomorrow(now);
    }
  }

  /** A task due earlier today is past, yet reads "Today" in the warning colour, not overdue. */
  lemma EarlierTodayIsToday(t: Task, now: int)
    requires t.dueDate.Some? && Dates.StartOfDay(now) <= t.dueDate.value < now
    ensures Dates.IsPast(t.dueDate.value, now)
    ensures DueDateText(t, now) == TodayText && DueDateColor(t, now) == Warning
  {
    Dates.TodayIff(t.dueDate.value, now);
  }

  /** `getPriorityVariant`: the three known priorities map to themselves, anything else to "default". */
  function PriorityVariant(priority: string): string {
    if priority == "high" then "high"
    else if priority == "medium" then "medium"
    else if priority == "low" then "low"
    else "default"
  }

  /**
   * The variant is one of four names: the priority itself for the three known ones,
   * "default" for any other.
   */
  lemma PriorityVariantRange(priority: string)
    ensures PriorityVariant(priority) in ["high", "medium", "low", "default"]
    ensures priority in ["high", "medium", "low"] ==> PriorityVariant(priority) == priority
    ensures priority !in ["high", "medium", "low"] ==> PriorityVariant(priority) == "default"
  {
  }

  /**
   * The reply the toggle gets for a listed task: the stored task with the requested
   * completion, keeping its Id.
   */
  lemma ToggleReplyMatches(s: seq<Task>, t: Task, stamp: int)
    requires t.id in TaskIds(s)
    ensures var r := TaskService.UpdateById(s, t.id, CompletionPatch(!t.completed), stamp).task;
      r.Some? && r.value.id == t.id && r.value.completed == !t.completed
  {
  }

  /**
   * A card whose task is bulk-deleted elsewhere stays on the page (the bulk delete
   * hands the page no removals), and toggling it asks the store to update an Id it
   * no longer holds: the reply is `null`.
   */
  lemma StaleCardGetsNull(s: seq<Task>, t: Task, stamp: int)
    requires UniqueIds(s) && t in s
    ensures var store := TaskService.BulkDeleteById(s, [t.id]).store;
      TaskService.UpdateById(store, t.id, CompletionPatch(!t.completed), stamp).task == None
  {
    var store := TaskService.BulkDeleteById(s, [t.id]).store;
    TaskService.BulkDeleteRemovesListed(s, [t.id]);
    TaskService.IdsOfUnlisted(s, [t.id], t.id);
  }

  /** The card's state. */
  class TaskCardState {
    const task: Task
    var isCompleting: bool
    var isDeleting: bool

    constructor(task: Task)
      ensures this.task == task && !isCompleting && !isDeleting
    {
      this.task := task;
      isCompleting := false;
      isDeleting := false;
    }

    /**
     * `handleToggleComplete` up to the `await`: ignored while a toggle is in flight;
     * otherwise the flag is raised and `completed: !task.completed` is requested.
     */
    method BeginToggle() returns (request: Option<TaskPatch>)
      modifies this
      ensures old(isCompleting) ==> request.None?
      ensures !old(isCompleting) ==> request == Some(CompletionPatch(!task.completed))
      ensures isCompleting && isDeleting == old(isDeleting)
    {
      if isCompleting {
        return None;
      }
      isCompleting := true;
      request := Some(CompletionPatch(!task.completed));
    }

    /**
     * The rest of `handleToggleComplete` as written: whatever `update` resolved
     * with, `null` included, goes to `onTaskUpdated`; nothing does when it threw;
     * the flag is lowered either way.
     */
    method FinishToggle(reply: Outcome<Option<Task>>) returns (forwarded: Option<Option<Task>>)
      modifies this
      ensures reply.Failed? ==> forwarded.None?
      ensures reply.Resolved? ==> forwarded == Some(reply.value)
      ensures !isCompleting && isDeleting == old(isDeleting)
    {
      isCompleting := false;
      match reply
      case Failed => forwarded := None;
      case Resolved(r) => forwarded := Some(r);
    }

    /**
     * The rest of `handleToggleComplete` with a `null` reply treated like a failed
     * call: only a record reaches `onTaskUpdated`, and the flag is lowered either way.
     */
    method FinishToggleChecked(reply: Outcome<Option<Task>>) returns (forwarded: Option<Task>)
      modifies this
      ensures forwarded.Some? <==> reply.Resolved? && reply.value.Some?
      ensures forwarded.Some? ==> forwarded == reply.value
      ensures !isCompleting && isDeleting == old(isDeleting)
    {
      isCompleting := false;
      forwarded := None;
      if reply.Resolved? && reply.value.Some? {
        forwarded := reply.value;
      }
    }

    /** `handleDelete` up to the `await`: ignored while a delete is in flight; otherwise the card's Id is sent. */
    method BeginDelete() returns (request: Option<int>)
      modifies this
      ensures old(isDeleting) ==> request.None?
      ensures !old(isDeleting) ==> request == Some(task.id)
      ensures isDeleting && isCompleting == old(isCompleting)
    {
      if isDeleting {
        return None;
      }
      isDeleting := true;
      request := Some(task.id);
    }

    /**
     * The rest of `handleDelete`: once the call resolves, whatever it returned, the
     * card's Id goes to `onTaskDeleted`; nothing does when it threw; the flag is
     * lowered either way.
     */
    method FinishDelete(reply: Outcome<bool>) returns (forwarded: Option<int>)
      modifies this
      ensures reply.Failed? ==> forwarded.None?
      ensures reply.Resolved? ==> forwarded == Some(task.id)
      ensures !isDeleting && isCompleting == old(isCompleting)
    {
      isDeleting := false;
      forwarded := if reply.Resolved? then Some(task.id) else None;
    }
  }
}
