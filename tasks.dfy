/**
 * The handlers of the `Home` component that change its tasks. Each handler replaces the
 * whole list by a new one computed from the previous list: adding prepends,
 * toggling and updating map over the list, deleting filters it.
 */
module Tasks {

  import opened Records
  import opened Seqs

  /** `Omit<Task, 'id' | 'createdAt' | 'completed'>`: what the detailed add form hands over. */
  datatype TaskDraft = TaskDraft(
    text: string,
    notes: string,
    projectId: Option<string>,
    priority: Priority,
    dueDate: Option<string>,
    category: Category)

  /**
   * `Partial<Task>`: a field that is `Some` overwrites that task's field, a
   * field that is `None` is absent from the object and leaves it alone.
   */
  datatype TaskPatch = TaskPatch(
    id: Option<string>,
    text: Option<string>,
    notes: Option<string>,
    projectId: Option<Option<string>>,
    priority: Option<Priority>,
    dueDate: Option<Option<string>>,
    category: Option<Category>,
    completed: Option<bool>,
    createdAt: Option<string>)

  const EmptyPatch := TaskPatch(None, None, None, None, None, None, None, None, None)

  /** No task in the list carries `id`. */
  predicate FreshId(tasks: seq<Task>, id: string)
  {
    forall i :: 0 <= i < |tasks| ==> tasks[i].id != id
  }

  /** No two tasks share an id. The source relies on it but does not enforce it. */
  predicate UniqueIds(tasks: seq<Task>)
  {
    forall i, j :: 0 <= i < j < |tasks| ==> tasks[i].id != tasks[j].id
  }

  function Ids(tasks: seq<Task>): (r: seq<string>)
    ensures |r| == |tasks| && forall i :: 0 <= i < |tasks| ==> r[i] == tasks[i].id
  {
    Map(tasks, (t: Task) => t.id)
  }

  /** The fields a draft carries, read back from a task. */
  function DraftOf(t: Task): TaskDraft
  {
    TaskDraft(t.text, t.notes, t.projectId, t.priority, t.dueDate, t.category)
  }

  /**
   * `handleAddTask`: a new open task made of the draft, the given id and
   * creation date, put in front of the previous list.
   */
  function AddTask(tasks: seq<Task>, d: TaskDraft, id: string, today: string): (r: seq<Task>)
    ensures |r| == |tasks| + 1 && r[1..] == tasks
    ensures DraftOf(r[0]) == d
    ensures r[0].id == id && r[0].createdAt == today && !r[0].completed
  {
    [Task(id, d.text, d.notes, d.projectId, d.priority, d.dueDate, d.category, false, today)] + tasks
  }

  /**
   * `handleQuickAdd`: the same as a detailed add whose draft has empty notes,
   * medium priority, category work, no due date and the currently selected
   * project.
   */
  function QuickAdd(tasks: seq<Task>, text: string, selected: Option<string>, id: string, today: string): (r: seq<Task>)
    ensures r == AddTask(tasks, TaskDraft(text, "", selected, Medium, None, Work), id, today)
  {
    var t := Task(
      id := id, text := text, notes := "", projectId := selected, priority := Medium,
      dueDate := None, category := Work, completed := false, createdAt := today);
    [t] + tasks
  }

  /** The mapping callback of `handleToggleTask`. */
  function FlipIfId(id: string): Task -> Task
  {
    (t: Task) => if t.id == id then t.(completed := !t.completed) else t
  }

  /**
   * `handleToggleTask`: every task with the id has its `completed` flag
   * inverted; every other task, the order and the length are unchanged.
   */
  function Toggle(tasks: seq<Task>, id: string): (r: seq<Task>)
    ensures |r| == |tasks|
    ensures forall i :: 0 <= i < |tasks| && tasks[i].id != id ==> r[i] == tasks[i]
    ensures forall i :: 0 <= i < |tasks| && tasks[i].id == id ==>
              r[i].completed == !tasks[i].completed && r[i].(completed := tasks[i].completed) == tasks[i]
  {
    Map(tasks, FlipIfId(id))
  }

  /**
   * `handleDeleteTask`: the tasks without the id, in their original order,
   * each as often as before.
   */
  function Delete(tasks: seq<Task>, id: string): (r: seq<Task>)
    ensures forall t :: t in r <==> t in tasks && t.id != id
    ensures forall t: Task :: t.id != id ==> multiset(r)[t] == multiset(tasks)[t]
    ensures IsSubsequence(r, tasks)
  {
    FilterIsSubsequence(tasks, HasOtherId(id));
    forall t: Task | t.id != id ensures multiset(Filter(tasks, HasOtherId(id)))[t] == multiset(tasks)[t] {
      FilterMultiplicity(tasks, HasOtherId(id), t);
    }
    Filter(tasks, HasOtherId(id))
  }

  /** The test `t.id !== taskId` that deleting keeps a task by. */
  function HasOtherId(id: string): Task -> bool
  {
    (t: Task) => t.id != id
  }

  /** A field after a spread: the patch's value where the patch has the field, the old value elsewhere. */
  predicate Overrides<T(==)>(patch: Option<T>, merged: T, before: T)
  {
    if patch.Some? then merged == patch.value else merged == before
  }

  /** A field of the spread: the patch's value where it has one. */
  function Pick<T(==)>(patch: Option<T>, before: T): (r: T)
    ensures Overrides(patch, r, before)
  {
    if patch.Some? then patch.value else before
  }

  /** `{ ...t, ...updates }`: a shallow merge, the patch winning where it has a field. */
  function Merge(t: Task, p: TaskPatch): (r: Task)
    ensures Overrides(p.id, r.id, t.id) && Overrides(p.text, r.text, t.text)
            && Overrides(p.notes, r.notes, t.notes) && Overrides(p.projectId, r.projectId, t.projectId)
            && Overrides(p.priority, r.priority, t.priority) && Overrides(p.dueDate, r.dueDate, t.dueDate)
            && Overrides(p.category, r.category, t.category) && Overrides(p.completed, r.completed, t.completed)
            && Overrides(p.createdAt, r.createdAt, t.createdAt)
  {
    Task(
      Pick(p.id, t.id),
      Pick(p.text, t.text),
      Pick(p.notes, t.notes),
      Pick(p.projectId, t.projectId),
      Pick(p.priority, t.priority),
      Pick(p.dueDate, t.dueDate),
      Pick(p.category, t.category),
      Pick(p.completed, t.completed),
      Pick(p.createdAt, t.createdAt))
  }

  /** The mapping callback of `handleUpdateTask`. */
  function MergeIfId(id: string, p: TaskPatch): Task -> Task
  {
    (t: Task) => if t.id == id then Merge(t, p) else t
  }

  /**
   * `handleUpdateTask`: the patch is merged onto every task with the id;
   * every other task, the order and the length are unchanged.
   */
  function Update(tasks: seq<Task>, id: string, p: TaskPatch): (r: seq<Task>)
    ensures |r| == |tasks|
    ensures forall i :: 0 <= i < |tasks| ==> r[i] == if tasks[i].id == id then Merge(tasks[i], p) else tasks[i]
  {
    Map(tasks, MergeIfId(id, p))
  }

  // ---------------------------------------------------------------------
  // Properties of the handlers
  // ---------------------------------------------------------------------

  /** Adding with a fresh id keeps ids unique. */
  lemma AddKeepsUniqueIds(tasks: seq<Task>, d: TaskDraft, id: string, today: string)
    requires UniqueIds(tasks) && FreshId(tasks, id)
    ensures UniqueIds(AddTask(tasks, d, id, today))
  {
    var r := AddTask(tasks, d, id, today);
    forall i, j | 0 <= i < j < |r| ensures r[i].id != r[j].id {
      if i > 0 { assert r[i] == tasks[i - 1]; }
      assert r[j] == tasks[j - 1];
    }
  }

  /** Toggling the same id twice gives the original list back. */
  lemma ToggleTwice(tasks: seq<Task>, id: string)
    ensures Toggle(Toggle(tasks, id), id) == tasks
  {
    var r := Toggle(Toggle(tasks, id), id);
    forall i | 0 <= i < |tasks| ensures r[i] == tasks[i] {
      var once := Toggle(tasks, id);
      assert once[i].id == tasks[i].id;
    }
  }

  /** Toggling an id no task has changes nothing. */
  lemma ToggleAbsent(tasks: seq<Task>, id: string)
    requires FreshId(tasks, id)
    ensures Toggle(tasks, id) == tasks
  {
  }

  /** Toggling and updating never change which ids the list holds, nor where. */
  lemma ToggleKeepsIds(tasks: seq<Task>, id: string)
    ensures Ids(Toggle(tasks, id)) == Ids(tasks)
  {
    var r := Toggle(tasks, id);
    assert forall i :: 0 <= i < |tasks| ==> r[i].id == tasks[i].id;
  }

  /** Deleting an id no task has changes nothing. */
  lemma DeleteAbsent(tasks: seq<Task>, id: string)
    requires FreshId(tasks, id)
    ensures Delete(tasks, id) == tasks
  {
    FilterAll(tasks, HasOtherId(id));
  }

  /** With unique ids, deleting a present id removes exactly that one task. */
  lemma DeleteUnique(tasks: seq<Task>, k: nat)
    requires UniqueIds(tasks) && k < |tasks|
    ensures Delete(tasks, tasks[k].id) == tasks[..k] + tasks[k + 1..]
    ensures |Delete(tasks, tasks[k].id)| == |tasks| - 1
  {
    var id := tasks[k].id;
    var keep := HasOtherId(id);
    var a, b := tasks[..k], tasks[k + 1..];
    SplitAt(tasks, k);
    assert forall i :: 0 <= i < |a| ==> keep(a[i]) by {
      forall i | 0 <= i < |a| ensures keep(a[i]) { assert a[i] == tasks[i]; }
    }
    assert forall i :: 0 <= i < |b| ==> keep(b[i]) by {
      forall i | 0 <= i < |b| ensures keep(b[i]) { assert b[i] == tasks[k + 1 + i]; }
    }
    FilterDropOne(a, tasks[k], b, keep);
  }

  /** Deleting a task just added with a fresh id restores the previous list. */
  lemma DeleteUndoesAdd(tasks: seq<Task>, d: TaskDraft, id: string, today: string)
    requires FreshId(tasks, id)
    ensures Delete(AddTask(tasks, d, id, today), id) == tasks
  {
    var r := AddTask(tasks, d, id, today);
    var keep := HasOtherId(id);
    assert r == [r[0]] + tasks;
    FilterConcat([r[0]], tasks, keep);
    FilterAll(tasks, keep);
    assert Filter([r[0]], keep) == [];
  }

  /** Merging the same patch a second time changes nothing more. */
  lemma MergeIdempotent(t: Task, p: TaskPatch)
    ensures Merge(Merge(t, p), p) == Merge(t, p)
  {
  }

  /** A patch without fields leaves a task as it is. */
  lemma MergeEmpty(t: Task)
    ensures Merge(t, EmptyPatch) == t
  {
  }

  /** A patch without an `id` keeps the ids of the list, hence their uniqueness. */
  lemma UpdateKeepsIds(tasks: seq<Task>, id: string, p: TaskPatch)
    requires p.id.None?
    ensures Ids(Update(tasks, id, p)) == Ids(tasks)
  {
    var r := Update(tasks, id, p);
    assert forall i :: 0 <= i < |tasks| ==> r[i].id == tasks[i].id;
  }

  /** Applying the same id-preserving update twice is the same as applying it once. */
  lemma UpdateIdempotent(tasks: seq<Task>, id: string, p: TaskPatch)
    requires p.id.None?
    ensures Update(Update(tasks, id, p), id, p) == Update(tasks, id, p)
  {
    var once := Update(tasks, id, p);
    var twice := Update(once, id, p);
    forall i | 0 <= i < |tasks| ensures twice[i] == once[i] {
      MergeIdempotent(tasks[i], p);
    }
  }
}
