/**
 * The task editor dialog: a form over one task (or a blank one for a new task), the
 * per-field error messages of its validation, the request a save sends, and the
 * guard that keeps the dialog open while a save is in flight.
 *
 * The form's date field holds the due instant; its empty string is `None`, and a
 * `null` category is `None` as well. A save is split in two steps like every awaited
 * store call: `BeginSubmit` runs up to the `await` and says which request is sent
 * (none when validation fails); `FinishSubmit` runs from the `await` on.
 */
module TaskEditorModal {
  import opened Wrappers
  import opened Records
  import Text

  datatype Form = Form(title: string, priority: string, dueDate: Option<int>, categoryId: Option<string>)

  /** The form a new task starts from. */
  const BlankForm := Form("", "medium", None, Some("1"))

  /** The form an existing task opens with. */
  function FormOf(t: Task): Form {
    Form(t.title, t.priority, t.dueDate, t.categoryId)
  }

  /** The form's fields, the keys of the error object. */
  datatype Field = TitleField | PriorityField | DueDateField | CategoryField

  /** `handleInputChange(field, value)`: the field and the value typed into it. */
  datatype Input = TitleInput(title: string) | PriorityInput(priority: string)
    | DueDateInput(dueDate: Option<int>) | CategoryInput(categoryId: Option<string>)

  function FieldOf(v: Input): Field {
    match v
    case TitleInput(_) => TitleField
    case PriorityInput(_) => PriorityField
    case DueDateInput(_) => DueDateField
    case CategoryInput(_) => CategoryField
  }

  /** `{ ...prev, [field]: value }`: the typed field takes the value, every other keeps its own. */
  function WithInput(f: Form, v: Input): (r: Form)
    ensures FieldOf(v) != TitleField ==> r.title == f.title
    ensures FieldOf(v) != PriorityField ==> r.priority == f.priority
    ensures FieldOf(v) != DueDateField ==> r.dueDate == f.dueDate
    ensures FieldOf(v) != CategoryField ==> r.categoryId == f.categoryId
    ensures v.TitleInput? ==> r.title == v.title
    ensures v.PriorityInput? ==> r.priority == v.priority
    ensures v.DueDateInput? ==> r.dueDate == v.dueDate
    ensures v.CategoryInput? ==> r.categoryId == v.categoryId
  {
    match v
    case TitleInput(x) => f.(title := x)
    case PriorityInput(x) => f.(priority := x)
    case DueDateInput(x) => f.(dueDate := x)
    case CategoryInput(x) => f.(categoryId := x)
  }

  /** `if (errors[field]) setErrors(prev => ({ ...prev, [field]: "" }))`. */
  function ClearedError(errors: map<Field, string>, field: Field): (r: map<Field, string>)
    ensures r.Keys == errors.Keys
    ensures field in r ==> r[field] == ""
    ensures forall k :: k in errors && k != field ==> r[k] == errors[k]
  {
    if field in errors && errors[field] != "" then errors[field := ""] else errors
  }

  const TitleRequired := "Title is required"
  const CategoryRequired := "Category is required"

  /** `!formData.categoryId`: no category, or the empty string. */
  predicate NoCategory(f: Form) {
    f.categoryId.None? || f.categoryId.value == ""
  }

  /** The error object `validateForm` builds. */
  function ValidationErrors(f: Form): (r: map<Field, string>)
    ensures TitleField in r <==> Text.Trim(f.title) == []
    ensures CategoryField in r <==> NoCategory(f)
    ensures r.Keys <= {TitleField, CategoryField}
    ensures forall k :: k in r ==> r[k] != ""
  {
    var withTitle: map<Field, string> := if Text.Trim(f.title) == [] then map[TitleField := TitleRequired] else map[];
    if NoCategory(f) then withTitle[CategoryField := CategoryRequired] else withTitle
  }

  /**
   * A form passes exactly when its title holds a character that is not whitespace
   * and a category is chosen; the blank form of a new task never passes as it opens.
   */
  lemma ValidIff(f: Form)
    ensures |ValidationErrors(f)| == 0 <==> !Text.AllWhitespace(f.title) && !NoCategory(f)
    ensures |ValidationErrors(BlankForm)| != 0
  {
    Text.TrimEmptyIff(f.title);
    Text.TrimEmptyIff(BlankForm.title);
    var e := ValidationErrors(f);
    if |e| == 0 {
      assert TitleField !in e && CategoryField !in e;
    } else {
      var k :| k in e;
    }
    assert TitleField in ValidationErrors(BlankForm);
  }

  /** What a save sends: `create` with a new task's fields, or `update` of the edited task's Id. */
  datatype SaveRequest = CreateRequest(draft: TaskDraft) | UpdateRequest(id: int, patch: TaskPatch)

  /** `create({ ...taskData, completed: false })`: the trimmed title and the other fields as typed. */
  function DraftOf(f: Form): (r: TaskDraft)
    ensures r.title == Text.Trim(f.title) && !r.completed
    ensures r.priority == f.priority && r.dueDate == f.dueDate && r.categoryId == f.categoryId
  {
    TaskDraft(Text.Trim(f.title), false, f.priority, f.dueDate, f.categoryId)
  }

  /** `update(task.Id, taskData)`: the four form fields, the title trimmed, and no `completed` key. */
  function PatchOf(f: Form): (r: TaskPatch)
    ensures r.completed.None?
    ensures r.title == Some(Text.Trim(f.title)) && r.priority == Some(f.priority)
    ensures r.dueDate == Some(f.dueDate) && r.categoryId == Some(f.categoryId)
  {
    TaskPatch(Some(Text.Trim(f.title)), None, Some(f.priority), Some(f.dueDate), Some(f.categoryId))
  }

  /** The request for the dialog's task, or for a new one. */
  function RequestFor(task: Option<Task>, f: Form): (r: SaveRequest)
    ensures task.None? <==> r.CreateRequest?
    ensures task.Some? ==> r.id == task.value.id
  {
    match task
    case None => CreateRequest(DraftOf(f))
    case Some(t) => UpdateRequest(t.id, PatchOf(f))
  }

  /**
   * Saving an edit applies to the stored task exactly the form's fields (the title
   * trimmed), and keeps its Id, completion, completion instant and creation instant;
   * saving a form left as it opened changes nothing but whitespace around the title.
   */
  lemma SavedEditIsForm(t: Task, f: Form, stamp: int)
    ensures var u := ApplyPatch(t, PatchOf(f), stamp);
      && FormOf(u) == f.(title := Text.Trim(f.title))
      && u.id == t.id && u.completed == t.completed && u.completedAt == t.completedAt && u.createdAt == t.createdAt
    ensures ApplyPatch(t, PatchOf(FormOf(t)), stamp) == t.(title := Text.Trim(t.title))
  {
  }

  /** The dialog's state. */
  class EditorState {
    var task: Option<Task>
    var form: Form
    var errors: map<Field, string>
    var loading: bool
    var categories: seq<Category>

    constructor()
      ensures task.None? && form == BlankForm && errors == map[] && !loading && categories == []
    {
      task := None;
      form := BlankForm;
      errors := map[];
      loading := false;
      categories := [];
    }

    /**
     * The effect run when the dialog opens: the form is the task's, or blank for a new
     * task; the errors are cleared; the categories are reloaded, and kept when that fails.
     */
    method Open(t: Option<Task>, fetchedCategories: Option<seq<Category>>)
      modifies this
      ensures task == t && errors == map[] && loading == old(loading)
      ensures t.Some? ==> form == FormOf(t.value)
      ensures t.None? ==> form == BlankForm
      ensures categories == fetchedCategories.GetOr(old(categories))
    {
      task := t;
      if fetchedCategories.Some? {
        categories := fetchedCategories.value;
      }
      match t {
        case Some(x) => form := FormOf(x);
        case None => form := BlankForm;
      }
      errors := map[];
    }

    /** `handleInputChange`: only the typed field changes, and only its error is cleared. */
    method InputChange(v: Input)
      modifies this
      ensures form == WithInput(old(form), v)
      ensures errors == ClearedError(old(errors), FieldOf(v))
      ensures task == old(task) && loading == old(loading) && categories == old(categories)
    {
      form := WithInput(form, v);
      if FieldOf(v) in errors && errors[FieldOf(v)] != "" {
        errors := errors[FieldOf(v) := ""];
      }
    }

    /** `validateForm`: the error object is rebuilt; the form passes when it has no key. */
    method ValidateForm() returns (ok: bool)
      modifies this
      ensures errors == ValidationErrors(form)
      ensures ok <==> |errors| == 0
      ensures form == old(form) && task == old(task) && loading == old(loading) && categories == old(categories)
    {
      var newErrors: map<Field, string> := map[];
      if Text.Trim(form.title) == [] {
        newErrors := newErrors[TitleField := TitleRequired];
      }
      if form.categoryId.None? || form.categoryId.value == "" {
        newErrors := newErrors[CategoryField := CategoryRequired];
      }
      errors := newErrors;
      ok := |newErrors| == 0;
    }

    /**
     * `handleSubmit` up to the `await`: a form that fails validation sends nothing and
     * leaves `loading` as it was; otherwise `loading` is raised and the request for
     * the dialog's task is sent.
     */
    method BeginSubmit() returns (request: Option<SaveRequest>)
      modifies this
      ensures errors == ValidationErrors(old(form))
      ensures request.None? <==> |ValidationErrors(old(form))| != 0
      ensures request.Some? ==> request.value == RequestFor(old(task), old(form)) && loading
      ensures request.None? ==> loading == old(loading)
      ensures form == old(form) && task == old(task) && categories == old(categories)
    {
      var ok := ValidateForm();
      if !ok {
        return None;
      }
      loading := true;
      request := Some(RequestFor(task, form));
    }

    /**
     * The rest of `handleSubmit`: whatever the store call resolved with goes to
     * `onTaskSaved` (for an update of an Id the store no longer holds, that is
     * `null`); nothing does when it threw; `loading` is lowered either way.
     */
    method FinishSubmit(reply: Outcome<Option<Task>>) returns (saved: Option<Option<Task>>)
      modifies this
      ensures reply.Failed? ==> saved.None?
      ensures reply.Resolved? ==> saved == Some(reply.value)
      ensures !loading
      ensures form == old(form) && errors == old(errors) && task == old(task) && categories == old(categories)
    {
      loading := false;
      saved := if reply.Resolved? then Some(reply.value) else None;
    }

    /** `handleClose`: the dialog asks to close only when no save is in flight. */
    method Close() returns (closes: bool)
      ensures closes <==> !loading
    {
      closes := !loading;
    }
  }
}
