/**
 * The "Add a task" control: a collapsed button that expands into a one-line form,
 * whose submit creates an open, medium-priority task without a due date in
 * category "1".
 *
 * A submit is split in two steps like every awaited store call: `BeginSubmit` runs
 * up to the `await` and says which draft is sent (none for a blank title);
 * `FinishSubmit` runs from the `await` on, given how the call ended.
 */
module QuickAddTask {
  import opened Wrappers
  import opened Records
  import Text
  import TaskService
  import TaskEditorModal
  import RecordIds

  /** The fields `create` is given for the typed title. */
  function QuickDraft(title: string): (r: TaskDraft)
    ensures r.title == Text.Trim(title) && !r.completed && r.priority == "medium"
    ensures r.dueDate.None? && r.categoryId == Some("1")
  {
    TaskDraft(Text.Trim(title), false, "medium", None, Some("1"))
  }

  /**
   * A quick add sends exactly what the task editor sends for a new task when only
   * the title was typed into its blank form.
   */
  lemma QuickDraftIsEditorDraft(title: string)
    ensures QuickDraft(title) == TaskEditorModal.DraftOf(TaskEditorModal.BlankForm.(title := title))
  {
  }

  /**
   * The task a quick add stores has an Id no stored task has, is open, without a
   * completion or a due date, in category "1", stamped now, and titled with the typed
   * title without surrounding whitespace, which is never empty once the blank-title
   * guard has passed.
   */
  lemma QuickAddedTask(s: seq<Task>, title: string, stamp: int)
    requires UniqueIds(s) && !Text.AllWhitespace(title)
    ensures var t := TaskService.NewTask(QuickDraft(title), RecordIds.NextId(TaskIds(s)), stamp);
      && t.id !in TaskIds(s)
      && t.title == Text.Trim(title) && t.title != []
      && !t.completed && t.completedAt.None? && t.dueDate.None?
      && t.priority == "medium" && t.categoryId == Some("1") && t.createdAt == stamp
  {
    Text.TrimEmptyIff(title);
    TaskService.CreateKeepsUniqueIds(s, QuickDraft(title), stamp);
  }

  /** The control's state. */
  class QuickAddState {
    var isExpanded: bool
    var title: string
    var loading: bool

    constructor()
      ensures !isExpanded && title == "" && !loading
    {
      isExpanded := false;
      title := "";
      loading := false;
    }

    /** The collapsed button: expands the form. */
    method Expand()
      modifies this
      ensures isExpanded && title == old(title) && loading == old(loading)
    {
      isExpanded := true;
    }

    /** The input's `onChange`. */
    method TitleChange(typed: string)
      modifies this
      ensures title == typed && isExpanded == old(isExpanded) && loading == old(loading)
    {
      title := typed;
    }

    /**
     * `handleSubmit` up to the `await`: a title that is blank or whitespace only sends
     * nothing and changes nothing; otherwise `loading` is raised and the draft sent.
     */
    method BeginSubmit() returns (request: Option<TaskDraft>)
      modifies this
      ensures request.None? <==> Text.AllWhitespace(old(title))
      ensures request.None? ==> loading == old(loading)
      ensures request.Some? ==> request.value == QuickDraft(old(title)) && loading
      ensures title == old(title) && isExpanded == old(isExpanded)
    {
      Text.TrimEmptyIff(title);
      if Text.Trim(title) == [] {
        return None;
      }
      loading := true;
      request := Some(QuickDraft(title));
    }

    /**
     * The rest of `handleSubmit`: on success the title is emptied, the form collapses
     * and the created task goes to `onTaskAdded`; when the call threw, the title and
     * the expanded form are kept; `loading` is lowered either way.
     */
    method FinishSubmit(reply: Outcome<Task>) returns (added: Option<Task>)
      modifies this
      ensures reply.Resolved? ==> title == "" && !isExpanded && added == Some(reply.value)
      ensures reply.Failed? ==> title == old(title) && isExpanded == old(isExpanded) && added.None?
      ensures !loading
    {
      if reply.Resolved? {
        title := "";
        isExpanded := false;
        added := Some(reply.value);
      } else {
        added := None;
      }
      loading := false;
    }

    /** `handleCancel`: the title is emptied and the form collapses. */
    method Cancel()
      modifies this
      ensures title == "" && !isExpanded && loading == old(loading)
    {
      title := "";
      isExpanded := false;
    }
  }
}
