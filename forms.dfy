/**
 * The submit handlers of the three modal forms. Each one refuses to submit
 * while its main text is blank, hands over the trimmed text (and trimmed
 * notes or description), and turns an empty due date into `null`. The
 * quick capture field is `Text.NonBlank` itself.
 */
module Forms {

  import opened Records
  import opened Text
  import opened Tasks
  import Projects

  /** `value || null` on a string field: the empty string stands for "none". */
  function OrNull(value: string): (r: Option<string>)
    ensures r.None? <==> value == ""
    ensures r.Some? ==> r.value == value
  {
    if value == "" then None else Some(value)
  }

  /** The fields of the add and edit task forms. */
  datatype TaskForm = TaskForm(
    text: string,
    notes: string,
    priority: Priority,
    category: Category,
    projectId: Option<string>,
    dueDate: string)

  /** The shape of every task the forms produce: trimmed non-empty text, trimmed notes, no empty due date. */
  predicate WellFormed(d: TaskDraft)
  {
    d.text != [] && IsTrimmed(d.text) && IsTrimmed(d.notes) && d.dueDate != Some("")
  }

  /**
   * `AddTaskModal`'s submit handler: nothing while the text is blank;
   * otherwise a well-formed draft whose text and notes are the trimmed
   * fields and whose other fields are the form's.
   */
  function SubmitAddTask(f: TaskForm): (r: Option<TaskDraft>)
    ensures r.None? <==> AllSpace(f.text)
    ensures r.Some? ==> WellFormed(r.value)
    ensures r.Some? ==> r.value.text == Trim(f.text) && r.value.notes == Trim(f.notes)
    ensures r.Some? ==> r.value.priority == f.priority && r.value.category == f.category
                        && r.value.projectId == f.projectId && r.value.dueDate == OrNull(f.dueDate)
  {
    match NonBlank(f.text)
    case None => None
    case Some(text) => Some(TaskDraft(text, Trim(f.notes), f.projectId, f.priority, OrNull(f.dueDate), f.category))
  }

  /**
   * `EditTaskModal`'s submit handler: nothing while the text is blank;
   * otherwise a patch of the six editable fields, never touching the id,
   * the completed flag or the creation date.
   */
  function SubmitEdit(f: TaskForm): (r: Option<TaskPatch>)
    ensures r.None? <==> AllSpace(f.text)
    ensures r.Some? ==> r.value.id.None? && r.value.completed.None? && r.value.createdAt.None?
    ensures r.Some? ==> exists d :: SubmitAddTask(f) == Some(d) && r.value == PatchOf(d)
  {
    match SubmitAddTask(f)
    case None => None
    case Some(d) => Some(PatchOf(d))
  }

  /**
   * The object the edit form saves: merged onto any task, it sets the six
   * fields a draft carries and keeps the id, the completed flag and the
   * creation date.
   */
  function PatchOf(d: TaskDraft): (r: TaskPatch)
    ensures r.id.None? && r.completed.None? && r.createdAt.None?
    ensures forall t: Task :: DraftOf(Merge(t, r)) == d && Merge(t, r).id == t.id
                              && Merge(t, r).completed == t.completed && Merge(t, r).createdAt == t.createdAt
  {
    TaskPatch(None, Some(d.text), Some(d.notes), Some(d.projectId), Some(d.priority),
              Some(d.dueDate), Some(d.category), None, None)
  }

  /**
   * The edit form filled in from a task when it opens: `notes || ''`,
   * `dueDate || ''`. Saving turns the due date back into the task's own
   * unless that was the empty string.
   */
  function EditFormOf(t: Task): (r: TaskForm)
    ensures r.text == t.text && r.notes == t.notes && r.priority == t.priority
            && r.category == t.category && r.projectId == t.projectId
    ensures t.dueDate != Some("") ==> OrNull(r.dueDate) == t.dueDate
  {
    TaskForm(t.text, t.notes, t.priority, t.category, t.projectId,
             match t.dueDate case None => "" case Some(d) => d)
  }

  /** The fields of the add project form. */
  datatype ProjectForm = ProjectForm(name: string, description: string, emoji: string, color: string)

  /**
   * `AddProjectModal`'s submit handler: nothing while the name is blank;
   * otherwise a backlog project with the trimmed name and description and
   * the chosen emoji and colour.
   */
  function SubmitAddProject(f: ProjectForm): (r: Option<Projects.ProjectDraft>)
    ensures r.None? <==> AllSpace(f.name)
    ensures r.Some? ==> r.value.status == Backlog && r.value.name != [] && IsTrimmed(r.value.name)
    ensures r.Some? ==> r.value.name == Trim(f.name) && r.value.description == Trim(f.description)
                        && r.value.emoji == f.emoji && r.value.color == f.color
  {
    match NonBlank(f.name)
    case None => None
    case Some(name) => Some(Projects.ProjectDraft(name, Backlog, f.color, f.emoji, Trim(f.description)))
  }

  // ---------------------------------------------------------------------
  // Properties of the forms
  // ---------------------------------------------------------------------

  /**
   * Opening the edit form on a task of the shape the forms produce (see
   * `SubmitAddTask`) and saving it untouched leaves that task exactly as it
   * was.
   */
  lemma EditUnchangedIsNoop(t: Task)
    requires WellFormed(DraftOf(t))
    ensures SubmitEdit(EditFormOf(t)) == Some(PatchOf(DraftOf(t)))
    ensures Merge(t, PatchOf(DraftOf(t))) == t
  {
    var g := EditFormOf(t);
    TrimOfTrimmed(t.text);
    TrimOfTrimmed(t.notes);
    assert NonBlank(g.text) == Some(t.text);
    assert OrNull(g.dueDate) == t.dueDate;
    assert SubmitAddTask(g) == Some(DraftOf(t));
  }

  /**
   * Editing a task just added with a fresh id gives the list that adding the
   * edited draft in the first place would have given.
   */
  lemma EditJustAdded(tasks: seq<Task>, d: TaskDraft, d': TaskDraft, id: string, today: string)
    requires FreshId(tasks, id)
    ensures Update(AddTask(tasks, d, id, today), id, PatchOf(d')) == AddTask(tasks, d', id, today)
  {
    var added := AddTask(tasks, d, id, today);
    var edited := Update(added, id, PatchOf(d'));
    var want := AddTask(tasks, d', id, today);
    forall i | 0 <= i < |want| ensures edited[i] == want[i] {
      if i > 0 {
        assert added[i] == tasks[i - 1] && want[i] == tasks[i - 1];
      }
    }
  }
}
