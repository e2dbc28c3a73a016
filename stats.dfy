/**
 * The three counters in the header of `Home`: open tasks (total minus
 * completed), open high-priority tasks and completed tasks, all over the
 * whole, unfiltered list.
 */
module Stats {

  import opened Records
  import opened Seqs
  import opened Tasks

  const IsCompleted: Task -> bool := (t: Task) => t.completed

  const IsOpen: Task -> bool := (t: Task) => !t.completed

  const IsOpenHigh: Task -> bool := (t: Task) => !t.completed && t.priority == High

  /** `completedTasks`: how many tasks are completed. */
  function CompletedCount(tasks: seq<Task>): (n: nat)
    ensures n <= |tasks|
  {
    |Filter(tasks, IsCompleted)|
  }

  /** `totalTasks - completedTasks`: exactly the number of tasks not completed. */
  function OpenCount(tasks: seq<Task>): (n: nat)
    ensures n + CompletedCount(tasks) == |tasks|
    ensures n == |Filter(tasks, IsOpen)|
  {
    FilterComplement(tasks, IsCompleted, IsOpen);
    |tasks| - CompletedCount(tasks)
  }

  /** `highPriorityTasks`: open high-priority tasks, never more than the open ones. */
  function HighPriorityCount(tasks: seq<Task>): (n: nat)
    ensures n <= OpenCount(tasks)
  {
    FilterMonotone(tasks, IsOpenHigh, IsOpen);
    |Filter(tasks, IsOpenHigh)|
  }

  /** A new task is open: one more open task, completed count unchanged, one more high one iff its priority is high. */
  lemma AddCounts(tasks: seq<Task>, d: TaskDraft, id: string, today: string)
    ensures OpenCount(AddTask(tasks, d, id, today)) == OpenCount(tasks) + 1
    ensures CompletedCount(AddTask(tasks, d, id, today)) == CompletedCount(tasks)
    ensures HighPriorityCount(AddTask(tasks, d, id, today))
            == HighPriorityCount(tasks) + (if d.priority == High then 1 else 0)
  {
    var r := AddTask(tasks, d, id, today);
    assert r == [r[0]] + tasks;
    FilterConcat([r[0]], tasks, IsCompleted);
    FilterConcat([r[0]], tasks, IsOpenHigh);
  }

  /** With unique ids, toggling a present task moves exactly one task between open and completed. */
  lemma ToggleCounts(tasks: seq<Task>, k: nat)
    requires UniqueIds(tasks) && k < |tasks|
    ensures CompletedCount(Toggle(tasks, tasks[k].id)) == CompletedCount(tasks) + (if tasks[k].completed then -1 else 1)
    ensures OpenCount(Toggle(tasks, tasks[k].id)) == OpenCount(tasks) + (if tasks[k].completed then 1 else -1)
  {
    var f := FlipIfId(tasks[k].id);
    forall i | 0 <= i < |tasks| && i != k ensures f(tasks[i]) == tasks[i] {
      if i < k { assert tasks[i].id != tasks[k].id; }
      else { assert tasks[k].id != tasks[i].id; }
    }
    MapOneCount(tasks, f, k, IsCompleted);
  }

  /** With unique ids, deleting a present task lowers its own counter by one and leaves the other alone. */
  lemma DeleteCounts(tasks: seq<Task>, k: nat)
    requires UniqueIds(tasks) && k < |tasks|
    ensures CompletedCount(Delete(tasks, tasks[k].id)) == CompletedCount(tasks) - (if tasks[k].completed then 1 else 0)
    ensures OpenCount(Delete(tasks, tasks[k].id)) == OpenCount(tasks) - (if tasks[k].completed then 0 else 1)
  {
    var x, a, b := tasks[k], tasks[..k], tasks[k + 1..];
    SplitAt(tasks, k);
    DeleteUnique(tasks, k);
    CompletedDropOne(a, x, b);
  }

  lemma CompletedDropOne(a: seq<Task>, x: Task, b: seq<Task>)
    ensures CompletedCount(a + [x] + b) == CompletedCount(a + b) + (if x.completed then 1 else 0)
  {
    FilterCountDropOne(a, x, b, IsCompleted);
  }

  /** An update whose patch leaves `completed` out moves no task between open and completed. */
  lemma UpdateCounts(tasks: seq<Task>, id: string, p: TaskPatch)
    requires p.completed.None?
    ensures CompletedCount(Update(tasks, id, p)) == CompletedCount(tasks)
    ensures OpenCount(Update(tasks, id, p)) == OpenCount(tasks)
  {
    FilterSameCount(Update(tasks, id, p), tasks, IsCompleted);
  }
}
