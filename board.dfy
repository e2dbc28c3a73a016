/**
 * The state of `Home` that the core logic reads and writes, and the user
 * events that change it. Each event is one handler: a submitted form passes
 * its guard first, then the matching list handler replaces the list of tasks or
 * project list. Ids and dates, read from the clock in the source, come with
 * the event.
 */
module Board {

  import opened Records
  import opened Text
  import Tasks
  import Projects
  import opened Pipeline
  import opened Forms

  datatype Board = Board(tasks: seq<Task>, projects: seq<Project>, view: View)

  datatype Event =
    | QuickCapture(raw: string, id: string, today: string)
    | SubmitTask(form: TaskForm, id: string, today: string)
    | ToggleTask(taskId: string)
    | DeleteTask(taskId: string)
    | SaveEdit(taskId: string, form: TaskForm)
    | SubmitProject(projectForm: ProjectForm, id: string)
    | MoveProject(projectId: string, status: Status)
    | ClickProject(projectId: string)
    | ClearProject
    | SetCompletionFilter(completion: CompletionFilter)
    | SetCategoryFilter(category: CategoryFilter)

  /**
   * The state `Home` starts in, over whatever lists were loaded: no project
   * selected, every category, and the open tasks only.
   */
  function Initial(tasks: seq<Task>, projects: seq<Project>): (r: Board)
    ensures r.tasks == tasks && r.projects == projects
    ensures forall t :: t in Visible(r) <==> t in tasks && !t.completed
  {
    Board(tasks, projects, View(ShowActive, None, AnyCategory))
  }

  /**
   * One event: a task event replaces only the list of tasks, a project event only
   * the project list, and a filter or selection event only the view.
   */
  function Step(b: Board, e: Event): (r: Board)
    ensures (e.QuickCapture? || e.SubmitTask? || e.ToggleTask? || e.DeleteTask? || e.SaveEdit?)
            ==> r.projects == b.projects && r.view == b.view
    ensures (e.SubmitProject? || e.MoveProject?) ==> r.tasks == b.tasks && r.view == b.view
    ensures (e.ClickProject? || e.ClearProject? || e.SetCompletionFilter? || e.SetCategoryFilter?)
            ==> r.tasks == b.tasks && r.projects == b.projects
  {
    match e
    case QuickCapture(raw, id, today) =>
      (match NonBlank(raw)
       case None => b
       case Some(text) => b.(tasks := Tasks.QuickAdd(b.tasks, text, b.view.selectedProjectId, id, today)))
    case SubmitTask(form, id, today) =>
      (match SubmitAddTask(form)
       case None => b
       case Some(d) => b.(tasks := Tasks.AddTask(b.tasks, d, id, today)))
    case ToggleTask(taskId) => b.(tasks := Tasks.Toggle(b.tasks, taskId))
    case DeleteTask(taskId) => b.(tasks := Tasks.Delete(b.tasks, taskId))
    case SaveEdit(taskId, form) =>
      (match SubmitEdit(form)
       case None => b
       case Some(p) => b.(tasks := Tasks.Update(b.tasks, taskId, p)))
    case SubmitProject(form, id) =>
      (match SubmitAddProject(form)
       case None => b
       case Some(d) => b.(projects := Projects.AddProject(b.projects, d, id)))
    case MoveProject(projectId, status) => b.(projects := Projects.Move(b.projects, projectId, status))
    case ClickProject(projectId) =>
      b.(view := b.view.(selectedProjectId := Projects.Select(b.view.selectedProjectId, projectId)))
    case ClearProject => b.(view := b.view.(selectedProjectId := None))
    case SetCompletionFilter(c) => b.(view := b.view.(completion := c))
    case SetCategoryFilter(c) => b.(view := b.view.(category := c))
  }

  /** The ids each list relies on being unique. */
  predicate Valid(b: Board)
  {
    Tasks.UniqueIds(b.tasks) && Projects.UniqueIds(b.projects)
  }

  /** The clock gave an id that the list being added to does not hold yet. */
  predicate FreshFor(e: Event, b: Board)
  {
    match e
    case QuickCapture(_, id, _) => Tasks.FreshId(b.tasks, id)
    case SubmitTask(_, id, _) => Tasks.FreshId(b.tasks, id)
    case SubmitProject(_, id) => Projects.FreshId(b.projects, id)
    case _ => true
  }

  /** The list the user sees for a board. */
  function Visible(b: Board): (r: seq<Task>)
    ensures Sorted(r)
    ensures forall t :: t in r <==> t in b.tasks && Passes(t, b.view)
  {
    VisibleTasks(b.tasks, b.view)
  }

  /** Every event keeps ids unique, as long as the ids it brings are fresh. */
  lemma StepKeepsValid(b: Board, e: Event)
    requires Valid(b) && FreshFor(e, b)
    ensures Valid(Step(b, e))
  {
    match e
    case QuickCapture(raw, id, today) =>
      if NonBlank(raw).Some? {
        Tasks.AddKeepsUniqueIds(b.tasks, Tasks.TaskDraft(NonBlank(raw).value, "", b.view.selectedProjectId, Medium, None, Work), id, today);
      }
    case SubmitTask(form, id, today) =>
      if SubmitAddTask(form).Some? {
        Tasks.AddKeepsUniqueIds(b.tasks, SubmitAddTask(form).value, id, today);
      }
    case ToggleTask(taskId) =>
      Tasks.ToggleKeepsIds(b.tasks, taskId);
      UniqueFromIds(b.tasks, Tasks.Toggle(b.tasks, taskId));
    case DeleteTask(taskId) =>
      DeleteKeepsUnique(b.tasks, taskId);
    case SaveEdit(taskId, form) =>
      if SubmitEdit(form).Some? {
        Tasks.UpdateKeepsIds(b.tasks, taskId, SubmitEdit(form).value);
        UniqueFromIds(b.tasks, Tasks.Update(b.tasks, taskId, SubmitEdit(form).value));
      }
    case SubmitProject(form, id) =>
      if SubmitAddProject(form).Some? {
        Projects.AddKeepsUniqueIds(b.projects, SubmitAddProject(form).value, id);
      }
    case MoveProject(projectId, status) =>
      Projects.MoveKeepsUniqueIds(b.projects, projectId, status);
    case ClickProject(_) =>
    case ClearProject =>
    case SetCompletionFilter(_) =>
    case SetCategoryFilter(_) =>
  }

  lemma UniqueFromIds(s: seq<Task>, s': seq<Task>)
    requires Tasks.UniqueIds(s) && Tasks.Ids(s') == Tasks.Ids(s)
    ensures Tasks.UniqueIds(s')
  {
    forall i, j | 0 <= i < j < |s'| ensures s'[i].id != s'[j].id {
      assert Tasks.Ids(s')[i] == Tasks.Ids(s)[i] && Tasks.Ids(s')[j] == Tasks.Ids(s)[j];
    }
  }

  lemma DeleteKeepsUnique(s: seq<Task>, id: string)
    requires Tasks.UniqueIds(s)
    ensures Tasks.UniqueIds(Tasks.Delete(s, id))
  {
    var r := Tasks.Delete(s, id);
    Seqs.FilterIsSubsequence(s, Tasks.HasOtherId(id));
    SubsequenceKeepsUnique(r, s);
  }

  /** A subsequence of a list with unique ids has unique ids. */
  lemma {:induction false} SubsequenceKeepsUnique(a: seq<Task>, s: seq<Task>)
    requires Seqs.IsSubsequence(a, s) && Tasks.UniqueIds(s)
    ensures Tasks.UniqueIds(a)
    decreases s
  {
    if s != [] {
      assert Tasks.UniqueIds(s[1..]) by {
        forall i, j | 0 <= i < j < |s[1..]| ensures s[1..][i].id != s[1..][j].id {
          assert s[1..][i] == s[i + 1] && s[1..][j] == s[j + 1];
        }
      }
      if a != [] && a[0] == s[0] && Seqs.IsSubsequence(a[1..], s[1..]) {
        SubsequenceKeepsUnique(a[1..], s[1..]);
        SubsequenceMembers(a[1..], s[1..]);
        forall i, j | 0 <= i < j < |a| ensures a[i].id != a[j].id {
          assert a[j] == a[1..][j - 1];
          if i == 0 {
            assert a[j] in s[1..];
            var m :| 0 <= m < |s[1..]| && s[1..][m] == a[j];
            assert s[m + 1] == a[j];
          } else {
            assert a[i] == a[1..][i - 1];
          }
        }
      } else {
        SubsequenceKeepsUnique(a, s[1..]);
      }
    }
  }

  /** Every element of a subsequence is an element of the sequence. */
  lemma {:induction false} SubsequenceMembers(a: seq<Task>, s: seq<Task>)
    requires Seqs.IsSubsequence(a, s)
    ensures forall x :: x in a ==> x in s
    decreases s
  {
    if s != [] {
      if a != [] && a[0] == s[0] && Seqs.IsSubsequence(a[1..], s[1..]) {
        SubsequenceMembers(a[1..], s[1..]);
        assert a == [a[0]] + a[1..];
      } else {
        SubsequenceMembers(a, s[1..]);
      }
    }
  }

  /** A blank quick capture or form submission leaves the board as it was. */
  lemma BlankSubmissionIsNoop(b: Board, raw: string, id: string, today: string, f: TaskForm, g: ProjectForm, taskId: string)
    requires AllSpace(raw) && AllSpace(f.text) && AllSpace(g.name)
    ensures Step(b, QuickCapture(raw, id, today)) == b
    ensures Step(b, SubmitTask(f, id, today)) == b
    ensures Step(b, SaveEdit(taskId, f)) == b
    ensures Step(b, SubmitProject(g, id)) == b
  {
    assert NonBlank(raw).None?;
    assert SubmitAddTask(f).None?;
    assert SubmitEdit(f).None?;
    assert SubmitAddProject(g).None?;
  }

  /** Capturing a task with a fresh id and then deleting it gives back the same board. */
  lemma CaptureThenDelete(b: Board, raw: string, id: string, today: string)
    requires Tasks.FreshId(b.tasks, id)
    ensures Step(Step(b, QuickCapture(raw, id, today)), DeleteTask(id)) == b
  {
    var b1 := Step(b, QuickCapture(raw, id, today));
    CaptureStep(b, raw, id, today);
    DeleteStep(b1, id);
    if NonBlank(raw).None? {
      Tasks.DeleteAbsent(b.tasks, id);
    } else {
      Tasks.DeleteUndoesAdd(b.tasks, CaptureDraft(b, NonBlank(raw).value), id, today);
    }
  }

  /** What a quick capture of `text` submits: the defaults of `handleQuickAdd`. */
  function CaptureDraft(b: Board, text: string): Tasks.TaskDraft
  {
    Tasks.TaskDraft(text, "", b.view.selectedProjectId, Medium, None, Work)
  }

  lemma CaptureStep(b: Board, raw: string, id: string, today: string)
    ensures Step(b, QuickCapture(raw, id, today))
            == if NonBlank(raw).None? then b
               else b.(tasks := Tasks.AddTask(b.tasks, CaptureDraft(b, NonBlank(raw).value), id, today))
  {
  }

  lemma DeleteStep(b: Board, id: string)
    ensures Step(b, DeleteTask(id)) == b.(tasks := Tasks.Delete(b.tasks, id))
  {
  }

  /** A captured task belongs to the project being viewed, so it passes the project filter. */
  lemma CaptureMatchesProjectFilter(b: Board, raw: string, id: string, today: string)
    requires !AllSpace(raw)
    ensures var t := Step(b, QuickCapture(raw, id, today)).tasks[0];
            PassesProject(t, b.view.selectedProjectId) && !t.completed && t.text == Trim(raw)
  {
  }
}
