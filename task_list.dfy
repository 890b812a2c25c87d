/**
 * The task list every page renders: which screen it shows, the selection of task
 * Ids for the bulk bar, the task being edited, and how it hands results from the
 * editor and the bulk bar to the page.
 */
module TaskList {
  import opened Wrappers
  import opened Lists
  import opened Records
  import opened Reconcile

  /** `handleSelectionChange(taskId, isSelected)`: append on select, drop every occurrence on deselect. */
  function Select(selected: seq<int>, id: int, isSelected: bool): (r: seq<int>)
    ensures isSelected ==> r == selected + [id]
    ensures !isSelected ==> id !in r && IsSubsequence(r, selected)
    ensures !isSelected ==> forall other :: other != id ==> multiset(r)[other] == multiset(selected)[other]
  {
    if isSelected then selected + [id] else RemoveAll(selected, id)
  }

  /** Deselecting an Id right after selecting it leaves exactly the other Ids, in order. */
  lemma SelectThenDeselect(selected: seq<int>, id: int)
    ensures Select(Select(selected, id, true), id, false) == RemoveAll(selected, id)
    ensures id !in selected ==> Select(Select(selected, id, true), id, false) == selected
  {
    RemoveAllSnoc(selected, id);
    if id !in selected {
      RemoveAllAbsent(selected, id);
    }
  }

  /** `selectedTasks.includes(task.Id)`: the card's checkbox state. */
  predicate IsSelected(selected: seq<int>, t: Task) {
    t.id in selected
  }

  /** `showBulkActions && selectedTasks.length > 0`. */
  predicate ShowsBulkBar(showBulkActions: bool, selected: seq<int>) {
    showBulkActions && |selected| > 0
  }

  /** The screens the early returns choose between. */
  datatype Screen = LoadingScreen | ErrorScreen(message: string) | EmptyScreen | CardsScreen

  /** Loading first, then an error message, then an empty or missing list, else the cards. */
  function ScreenOf(loading: bool, error: string, tasks: Option<seq<Task>>): (r: Screen)
    ensures r == CardsScreen <==> !loading && error == [] && tasks.Some? && tasks.value != []
    ensures r.ErrorScreen? ==> !loading && r.message == error != []
  {
    if loading then LoadingScreen
    else if error != [] then ErrorScreen(error)
    else if tasks.None? || |tasks.value| == 0 then EmptyScreen
    else CardsScreen
  }

  /**
   * `updatedTasks.forEach(task => onTaskUpdated(task))`, with the page's handler
   * written as a function of the page's list: each record is handed on in order.
   */
  function ForwardAll(page: seq<Task>, updated: seq<Task>, handler: (seq<Task>, Task) -> seq<Task>): seq<Task>
    decreases |updated|
  {
    if updated == [] then page
    else ForwardAll(handler(page, updated[0]), updated[1..], handler)
  }

  /**
   * Handing bulk results one by one to a replace-by-Id handler (the All Tasks
   * page's) keeps the page's Ids and their order; an empty result changes nothing.
   */
  lemma {:induction false} ForwardReplacementsKeepIds(page: seq<Task>, updated: seq<Task>)
    ensures TaskIds(ForwardAll(page, updated, ReplaceById)) == TaskIds(page)
    ensures updated == [] ==> ForwardAll(page, updated, ReplaceById) == page
    decreases |updated|
  {
    if updated != [] {
      ReplaceKeepsIds(page, updated[0]);
      ForwardReplacementsKeepIds(ReplaceById(page, updated[0]), updated[1..]);
    }
  }

  /** The list's state. */
  class TaskListState {
    var selectedTasks: seq<int>
    var editingTask: Option<Task>

    constructor()
      ensures selectedTasks == [] && editingTask.None?
    {
      selectedTasks := [];
      editingTask := None;
    }

    method SelectionChange(id: int, isSelected: bool)
      modifies this
      ensures selectedTasks == Select(old(selectedTasks), id, isSelected)
      ensures editingTask == old(editingTask)
    {
      if isSelected {
        selectedTasks := selectedTasks + [id];
      } else {
        selectedTasks := RemoveAll(selectedTasks, id);
      }
    }

    /** `handleClearSelection`. */
    method ClearSelection()
      modifies this
      ensures selectedTasks == [] && editingTask == old(editingTask)
    {
      selectedTasks := [];
    }

    /** `handleTaskEdit`: the editor opens on that task. */
    method TaskEdit(t: Task)
      modifies this
      ensures editingTask == Some(t) && selectedTasks == old(selectedTasks)
    {
      editingTask := Some(t);
    }

    method TaskEditorClose()
      modifies this
      ensures editingTask.None? && selectedTasks == old(selectedTasks)
    {
      editingTask := None;
    }

    /** `handleTaskSaved`: the saved task goes to `onTaskUpdated` and the editor closes. */
    method TaskSaved(saved: Task) returns (forwarded: Task)
      modifies this
      ensures forwarded == saved
      ensures editingTask.None? && selectedTasks == old(selectedTasks)
    {
      forwarded := saved;
      editingTask := None;
    }
  }

  /** `handleBulkTasksUpdated`: the loop handing each record to the page's handler. */
  method BulkTasksUpdated(page: seq<Task>, updated: seq<Task>, handler: (seq<Task>, Task) -> seq<Task>)
    returns (r: seq<Task>)
    ensures r == ForwardAll(page, updated, handler)
  {
    r := page;
    var i := 0;
    while i < |updated|
      invariant 0 <= i <= |updated|
      invariant ForwardAll(r, updated[i..], handler) == ForwardAll(page, updated, handler)
    {
      assert updated[i..][1..] == updated[i + 1..];
      r := handler(r, updated[i]);
      i := i + 1;
    }
  }
}
