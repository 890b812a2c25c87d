/**
 * The bulk bar over a non-empty selection of task Ids: mark every selected task
 * completed or open, or delete them all after a confirmation. Each handler runs the
 * store call, then hands the result to the list, then clears the selection, then
 * shows a notice; a call that throws leaves the selection and shows an error notice.
 *
 * A store call that throws is the input `fails` (the call then changes nothing);
 * `window.confirm` is the input `confirmed`; the clock is `stamp`.
 */
module BulkActions {
  import opened Wrappers
  import opened Lists
  import opened Records
  import Text
  import TaskService
  import TaskList
  import Reconcile

  /** A toast: its kind and its text. */
  datatype Notice = SuccessNotice(text: string) | ErrorNotice(text: string)

  const UpdateError := "Failed to update tasks. Please try again."
  const DeleteError := "Failed to delete tasks. Please try again."

  /** `if (selectedTasks.length === 0) return null`: the bar renders only over a selection. */
  function Renders(selected: seq<int>): (r: bool)
    ensures r <==> selected != []
  {
    |selected| != 0
  }

  /** The bar the list shows is never the empty rendering. */
  lemma ShownBarRenders(showBulkActions: bool, selected: seq<int>)
    ensures TaskList.ShowsBulkBar(showBulkActions, selected) ==> Renders(selected)
    ensures !Renders(selected) ==> !TaskList.ShowsBulkBar(showBulkActions, selected)
  {
  }

  /** `task${length === 1 ? "" : "s"}`. */
  function Noun(n: nat): (r: string)
    ensures r == "task" <==> n == 1
    ensures r == "task" || r == "tasks"
  {
    if n == 1 then "task" else "tasks"
  }

  /** "<n> task" or "<n> tasks", the count every message of the bar starts with. */
  function CountLabel(n: nat): string {
    Text.IntToString(n) + " " + Noun(n)
  }

  function CompletedText(completed: bool): string {
    if completed then "completed" else "marked as incomplete"
  }

  /** The success notice of a bulk completion over `n` selected Ids. */
  function CompleteNotice(n: nat, completed: bool): Notice {
    SuccessNotice(CountLabel(n) + " " + CompletedText(completed))
  }

  /** The success notice of a bulk delete over `n` selected Ids. */
  function DeleteNotice(n: nat): Notice {
    SuccessNotice(CountLabel(n) + " deleted")
  }

  /** The question put to `confirm` before a bulk delete. */
  function ConfirmPrompt(n: nat): string {
    "Are you sure you want to delete " + CountLabel(n) + "?"
  }

  /** The bar's own heading. */
  function SelectedLabel(n: nat): string {
    CountLabel(n) + " selected"
  }

  /** Every message reads "<n> task" for a single selected Id and "<n> tasks" otherwise. */
  lemma CountLabelReadsCount(n: nat)
    ensures CountLabel(n) == Text.IntToString(n) + " task" <==> n == 1
    ensures n != 1 ==> CountLabel(n) == Text.IntToString(n) + " tasks"
  {
    if CountLabel(n) == Text.IntToString(n) + " task" {
      assert |Noun(n)| == 4;
    }
  }

  /**
   * Every record a bulk completion returns carries the requested completion and one
   * of the listed Ids.
   */
  lemma {:induction false} BulkUpdateSetsCompletion(s: seq<Task>, ids: seq<int>, completed: bool, stamp: int)
    ensures forall t :: t in TaskService.BulkUpdateById(s, ids, CompletionPatch(completed), stamp).updated ==>
      t.completed == completed && t.id in ids
  {
    if ids != [] {
      var init, x := ids[..|ids| - 1], ids[|ids| - 1];
      var prev := TaskService.BulkUpdateById(s, init, CompletionPatch(completed), stamp);
      var step := TaskService.UpdateById(prev.store, x, CompletionPatch(completed), stamp);
      BulkUpdateSetsCompletion(s, init, completed, stamp);
      assert ids == init + [x];
      assert TaskService.BulkUpdateById(s, ids, CompletionPatch(completed), stamp).updated
        == prev.updated + if step.task.Some? then [step.task.value] else [];
    }
  }

  /**
   * What the bar hands the list after a bulk completion, given to the All Tasks
   * page's replace-by-Id handler, keeps the page's Ids and order, and the records it
   * hands over are one per selected Id that names a stored task, each carrying the
   * requested completion.
   */
  lemma CompletionReachesPage(page: seq<Task>, s: seq<Task>, selected: seq<int>, completed: bool, stamp: int)
    ensures var updated := TaskService.BulkUpdateById(s, selected, CompletionPatch(completed), stamp).updated;
      && TaskIds(TaskList.ForwardAll(page, updated, Reconcile.ReplaceById)) == TaskIds(page)
      && TaskIds(updated) == Filter(selected, TaskService.PresentIn(s))
      && forall t :: t in updated ==> t.completed == completed
  {
    var updated := TaskService.BulkUpdateById(s, selected, CompletionPatch(completed), stamp).updated;
    TaskList.ForwardReplacementsKeepIds(page, updated);
    TaskService.BulkUpdateReturnsPresent(s, selected, CompletionPatch(completed), stamp);
    BulkUpdateSetsCompletion(s, selected, completed, stamp);
  }

  /**
   * `handleBulkComplete(completed)` over the list's selection: on success the store
   * merges `{ completed }` into every selected task, the returned records go to the
   * list, the selection is cleared and the notice counts the selection (not the
   * records returned); a call that throws changes nothing and shows the error notice.
   */
  method BulkComplete(store: TaskService.TaskStore, list: TaskList.TaskListState, completed: bool, fails: bool, stamp: int)
    returns (forwarded: Option<seq<Task>>, notice: Notice)
    requires store.Valid()
    modifies store, list
    ensures store.Valid()
    ensures fails ==>
      && store.tasks == old(store.tasks) && list.selectedTasks == old(list.selectedTasks)
      && forwarded.None? && notice == ErrorNotice(UpdateError)
    ensures !fails ==>
      && forwarded.Some?
      && TaskService.BulkUpdated(store.tasks, forwarded.value)
           == TaskService.BulkUpdateById(old(store.tasks), old(list.selectedTasks), CompletionPatch(completed), stamp)
      && list.selectedTasks == []
      && notice == CompleteNotice(|old(list.selectedTasks)|, completed)
    ensures list.editingTask == old(list.editingTask)
  {
    var selected := list.selectedTasks;
    if fails {
      return None, ErrorNotice(UpdateError);
    }
    var updated := store.BulkUpdate(selected, CompletionPatch(completed), stamp);
    forwarded := Some(updated);
    list.ClearSelection();
    notice := CompleteNotice(|selected|, completed);
  }

  /**
   * `handleBulkDelete()` over the list's selection: the prompt counts the selection;
   * a declined confirmation makes no store call. On success the store drops every
   * selected task, the list is handed an empty list (so no page removes anything),
   * the selection is cleared and the notice counts the selection; a call that throws
   * changes nothing and shows the error notice.
   */
  method BulkDelete(store: TaskService.TaskStore, list: TaskList.TaskListState, confirmed: bool, fails: bool)
    returns (prompt: string, forwarded: Option<seq<Task>>, notice: Option<Notice>)
    requires store.Valid()
    modifies store, list
    ensures store.Valid()
    ensures prompt == ConfirmPrompt(|old(list.selectedTasks)|)
    ensures !confirmed ==>
      && store.tasks == old(store.tasks) && list.selectedTasks == old(list.selectedTasks)
      && forwarded.None? && notice.None?
    ensures confirmed && fails ==>
      && store.tasks == old(store.tasks) && list.selectedTasks == old(list.selectedTasks)
      && forwarded.None? && notice == Some(ErrorNotice(DeleteError))
    ensures confirmed && !fails ==>
      && store.tasks == TaskService.BulkDeleteById(old(store.tasks), old(list.selectedTasks)).store
      && forwarded == Some([])
      && list.selectedTasks == []
      && notice == Some(DeleteNotice(|old(list.selectedTasks)|))
    ensures list.editingTask == old(list.editingTask)
  {
    var selected := list.selectedTasks;
    prompt := ConfirmPrompt(|selected|);
    if !confirmed {
      return prompt, None, None;
    }
    if fails {
      return prompt, None, Some(ErrorNotice(DeleteError));
    }
    var deleted := store.BulkDelete(selected);
    forwarded := Some([]);
    list.ClearSelection();
    notice := Some(DeleteNotice(|selected|));
  }

  /**
   * After a successful bulk delete the page keeps every task it listed, while the
   * store holds none of the selected Ids: a task with a unique Id that was selected
   * stays on the page although the store no longer has it.
   */
  lemma DeleteLeavesPage(page: seq<Task>, s: seq<Task>, selected: seq<int>, t: Task)
    requires UniqueIds(s) && t in page && t.id in selected
    ensures TaskList.ForwardAll(page, [], Reconcile.ReplaceById) == page
    ensures t in TaskList.ForwardAll(page, [], Reconcile.ReplaceById)
    ensures t.id !in TaskIds(TaskService.BulkDeleteById(s, selected).store)
  {
    TaskService.BulkDeleteRemovesListed(s, selected);
    TaskService.IdsOfUnlisted(s, selected, t.id);
  }
}
