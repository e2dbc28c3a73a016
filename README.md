# Task manager: a Dafny model of the `Home` page logic

The application is a single-page personal task manager written in React. Its
`Home` component (`src/app/page.tsx`) keeps two lists, tasks and projects.
Every handler replaces a list with a new one computed from the old one:

- quick capture and the detailed add form put a new task at the front;
- toggling flips a task's `completed` flag, and deleting filters that task out;
- editing merges a partial record over a task;
- adding a project appends it, and moving a project changes its kanban status.

The page shows the tasks through a pipeline. It first filters them on
completion, on the selected project and on category. It then sorts a copy by
priority (high, medium, low) with the stable `Array.prototype.sort`. Three
header counters count open tasks, open high-priority tasks and completed
tasks. The kanban board shows one column per status. A card offers moves to
the two other columns. Clicking a card selects that project as the filter of
the list, and clicking it again clears the filter. Every form refuses to submit
while its main text is blank once trimmed.

The model is pure, as the source is: data types, functions over sequences and
lemmas. It has these modules:

| module | models |
|---|---|
| `Seqs` (`seqs.dfy`) | `Array.prototype.filter` and `map`, plus generic lemmas about them |
| `Records` (`records.dfy`) | the `Task` and `Project` records and their enumerations |
| `Text` (`text.dfy`) | `String.prototype.trim` and the non-blank guard |
| `Tasks` (`tasks.dfy`) | the handlers of the task list |
| `Projects` (`projects.dfy`) | the project handlers, kanban columns, move buttons and card selection |
| `Pipeline` (`pipeline.dfy`) | `filteredTasks` and `sortedTasks` |
| `Stats` (`stats.dfy`) | the three header counters |
| `Forms` (`forms.dfy`) | the submit handlers of the add-task, edit-task and add-project modals |
| `Board` (`board.dfy`) | the state of `Home` and one step per user event |

The source draws ids from `Date.now()` and creation dates from `new Date()`.
Here both are parameters of the operations. The source relies on ids being
unique but does not enforce it. The model states uniqueness as the invariant
`Board.Valid`. It proves that every event keeps the invariant, provided the id
a new record receives is fresh.

The project filter is `selectedProjectId && …` (src/app/page.tsx:841), a
truthiness test, so both `null` and `""` switch it off
(`Pipeline.ProjectFilterOn`).

## Model

| member | source | states |
|---|---|---|
| `Text.Trim` | src/app/page.tsx:125-126 | the trimmed text is a contiguous piece of the input with only spaces cut from either end and none left at either end; it is empty iff the input is all spaces |
| `Text.TrimOfTrimmed` | src/app/page.tsx:125-126 | text with no space at either end is left unchanged by trimming |
| `Text.TrimIdempotent` | src/app/page.tsx:125-126 | trimming twice gives the same text as trimming once |
| `Text.NonBlank` | src/app/page.tsx:123-129 | the guard rejects exactly the all-space inputs; otherwise it yields non-empty trimmed text taken from the input |
| `Tasks.AddTask` | src/app/page.tsx:789-797 | the new list is one longer, the old list follows unchanged, and the new head is an open task with the given id and date that carries every field of the submitted data |
| `Tasks.QuickAdd` | src/app/page.tsx:773-786 | a quick capture is a detailed add with empty notes, medium priority, category work, no due date and the selected project |
| `Tasks.Toggle` | src/app/page.tsx:800-804 | same length and order; a task with the id has only its completed flag inverted, every other task is unchanged |
| `Tasks.Delete` | src/app/page.tsx:807-809 | the result is a subsequence of the list holding exactly the tasks without the id, each as many times as before |
| `Tasks.Update` | src/app/page.tsx:812-816 | same length and order; the patch is merged onto every task with the id, every other task is unchanged |
| `Tasks.Merge` | src/app/page.tsx:814 | every field of the merged task is the patch's where the patch has that field and the task's own elsewhere |
| `Tasks.AddKeepsUniqueIds` | src/app/page.tsx:789-797 | adding with a fresh id keeps ids unique |
| `Tasks.ToggleTwice` | src/app/page.tsx:800-804 | toggling the same id twice restores the list |
| `Tasks.ToggleAbsent` | src/app/page.tsx:800-804 | toggling an id no task has changes nothing |
| `Tasks.ToggleKeepsIds` | src/app/page.tsx:800-804 | toggling keeps the sequence of ids |
| `Tasks.DeleteAbsent` | src/app/page.tsx:807-809 | deleting an id no task has changes nothing |
| `Tasks.DeleteUnique` | src/app/page.tsx:807-809 | with unique ids, deleting a present task removes exactly that one position |
| `Tasks.DeleteUndoesAdd` | src/app/page.tsx:789-809 | deleting a task just added with a fresh id restores the previous list |
| `Tasks.MergeIdempotent` | src/app/page.tsx:812-816 | merging the same patch twice equals merging it once |
| `Tasks.MergeEmpty` | src/app/page.tsx:812-816 | a patch with no fields leaves a task unchanged |
| `Tasks.UpdateKeepsIds` | src/app/page.tsx:812-816 | a patch without an id keeps the sequence of ids |
| `Tasks.UpdateIdempotent` | src/app/page.tsx:812-816 | applying the same id-preserving update twice equals applying it once |
| `Projects.AddProject` | src/app/page.tsx:819-825 | the old list is kept as a prefix and the new last project has the given id and every field of the submitted data |
| `Projects.Move` | src/app/page.tsx:828-832 | same length and order; a project with the id gets the new status and keeps all its other fields, every other project is unchanged |
| `Projects.Column` | src/app/page.tsx:268 | a column is a subsequence of the project list holding exactly the projects with that status |
| `Projects.MoveTargets` | src/app/page.tsx:302-325 | a card offers two moves, none of them to its own column |
| `Projects.Select` | src/app/page.tsx:286 | clicking the selected project clears the selection; clicking any other project selects it |
| `Projects.ColumnsPartition` | src/app/page.tsx:268 | the three columns together hold every project exactly as many times as the list does |
| `Projects.ColumnSizes` | src/app/page.tsx:268-279 | the three column header counts add up to the number of projects |
| `Projects.AddKeepsUniqueIds` | src/app/page.tsx:819-825 | adding with a fresh id keeps project ids unique |
| `Projects.AddLandsInColumn` | src/app/page.tsx:819-825 | a new project appears at the end of its own column, and the other columns are unchanged |
| `Projects.MoveKeepsUniqueIds` | src/app/page.tsx:828-832 | moving keeps project ids unique |
| `Projects.MoveColumnSizes` | src/app/page.tsx:828-832 | with unique ids, a move adds one card to the target column unless it is already there, removes one from the source column, and leaves the third column's size alone |
| `Projects.MoveBack` | src/app/page.tsx:828-832 | with unique ids, moving a project back to its old status restores the list |
| `Projects.EveryMoveOffered` | src/app/page.tsx:302-325 | every column other than a card's own is a move target, so the targets are exactly the two other columns |
| `Pipeline.Rank` | src/app/page.tsx:850-853 | ranks are 0 to 2, and rank 0 belongs to high priority only |
| `Pipeline.Shown` | src/app/page.tsx:835-847 | the filter callback's chain of early rejections keeps a task iff it passes the completion, project and category filters together |
| `Pipeline.FilteredTasks` | src/app/page.tsx:835-847 | the filtered list is a subsequence of the tasks holding exactly those that pass the completion, project and category filters, each as many times as in the list |
| `Pipeline.SortByPriority` | src/app/page.tsx:850-853 | the result is a permutation of the input in non-decreasing priority rank |
| `Pipeline.VisibleTasks` | src/app/page.tsx:835-853 | the visible list is a permutation of the filtered list, is in rank order, and shows a task iff it passes every filter |
| `Pipeline.ExcludedFailsAFilter` | src/app/page.tsx:835-847 | a task is hidden only because it fails at least one filter |
| `Pipeline.FilterIdempotent` | src/app/page.tsx:835-847 | filtering the filtered list again changes nothing |
| `Pipeline.SortStable` | src/app/page.tsx:850-853 | for each priority, sorting keeps that priority's tasks in their original relative order |
| `Pipeline.SortIsGrouping` | src/app/page.tsx:850-853 | the sorted list is the high tasks, then the medium ones, then the low ones, each group in input order |
| `Pipeline.SortIdempotent` | src/app/page.tsx:850-853 | sorting a sorted list changes nothing |
| `Pipeline.VisibleStable` | src/app/page.tsx:835-853 | tasks of equal priority appear in the visible list in their list order |
| `Pipeline.ActiveFilterExample` | src/app/page.tsx:835-853 | with the active filter, open high and open low tasks show in that order and the completed task is hidden |
| `Stats.CompletedCount` | src/app/page.tsx:857 | there are never more completed tasks than tasks |
| `Stats.OpenCount` | src/app/page.tsx:856-857 | total minus completed is exactly the number of tasks not completed |
| `Stats.HighPriorityCount` | src/app/page.tsx:858 | open high-priority tasks never outnumber open tasks |
| `Stats.AddCounts` | src/app/page.tsx:856-858 | a new task adds one open task, leaves the completed count unchanged, and adds one high-priority task iff its priority is high |
| `Stats.ToggleCounts` | src/app/page.tsx:856-858 | with unique ids, toggling moves exactly one task between the open and completed counts |
| `Stats.DeleteCounts` | src/app/page.tsx:856-858 | with unique ids, deleting lowers the deleted task's own counter by one and leaves the other alone |
| `Stats.UpdateCounts` | src/app/page.tsx:856-858 | an update that leaves `completed` out changes neither count |
| `Forms.OrNull` | src/app/page.tsx:376 | the due-date conversion on saving the edit form, and the same at line 517 of the add form: the empty string becomes no value; every other string is kept |
| `Forms.SubmitAddTask` | src/app/page.tsx:508-518 | the form submits iff its text is not blank; the result has trimmed non-empty text, trimmed notes and no empty due date, and takes its other fields from the form |
| `Forms.SubmitEdit` | src/app/page.tsx:367-380 | the edit submits iff its text is not blank; the patch sets the same six fields the add form would produce and never touches id, completion or creation date |
| `Forms.PatchOf` | src/app/page.tsx:370-377 | merged onto any task, the saved object sets exactly the six fields of the form's draft and keeps the id, the completed flag and the creation date |
| `Forms.EditFormOf` | src/app/page.tsx:354-363 | the edit form opens with the task's own text, notes, priority, category and project, and its due-date field turns back into the task's due date on saving unless that was the empty string |
| `Forms.SubmitAddProject` | src/app/page.tsx:651-660 | the form submits iff its name is not blank; the result is a backlog project with a trimmed non-empty name, a trimmed description and the chosen emoji and colour |
| `Forms.EditUnchangedIsNoop` | src/app/page.tsx:354-380 | opening the edit form on a task of the shape the forms produce and saving it untouched leaves that task as it was |
| `Forms.EditJustAdded` | src/app/page.tsx:789-816 | editing a task just added with a fresh id gives the same list as adding the edited data in the first place |
| `Board.Step` | src/app/page.tsx:773-832 | a task event changes only the list of tasks, a project event only the project list, and a filter or selection event only the view |
| `Board.Initial` | src/app/page.tsx:765-770 | the page starts on the loaded lists and shows exactly the open tasks |
| `Board.Visible` | src/app/page.tsx:835-853 | the visible list of a board is in rank order and shows exactly the tasks that pass the board's filters |
| `Board.StepKeepsValid` | src/app/page.tsx:773-832 | every event keeps task and project ids unique, provided a new record's id is fresh |
| `Board.DeleteKeepsUnique` | src/app/page.tsx:807-809 | deleting keeps task ids unique |
| `Board.BlankSubmissionIsNoop` | src/app/page.tsx:123-129 | a blank quick capture, add, edit or project submission leaves the whole board unchanged |
| `Board.CaptureThenDelete` | src/app/page.tsx:773-809 | a quick capture with a fresh id followed by deleting that id restores the board |
| `Board.CaptureMatchesProjectFilter` | src/app/page.tsx:773-786 | a captured task is open, holds the trimmed text, and passes the project filter in force when it was captured |

## Left out

- Persistence is not modelled: `useLocalStorage`, `JSON.parse`/`JSON.stringify` and the storage key (src/app/page.tsx:85-114). Its failure paths only log. `src/lib/supabase.ts` is not part of this model.
- Rendering is not modelled: styling, tab switching, the modal open/close flags and the `editingTask` state. None of them changes the lists.
- Ids from `Date.now()` and dates from `new Date().toISOString()` are parameters. A fresh id is a precondition of the lemmas that need it. Two adds within the same millisecond would share an id in the source, and the model does not capture that.
- The category filter is a string in the source, but its drop-down only offers `all` and the four categories. It is modelled as `Pipeline.CategoryFilter`.
- Selecting a project card also switches to the tasks tab; the click that clears the selection does not (src/app/page.tsx:1009-1012). The tab is not modelled.
- Text is a sequence of Unicode scalar values. JavaScript strings are UTF-16, and no trimmed character lies outside the Basic Multilingual Plane, so trimming agrees.
- `Projects.MoveTargets`: its contract only states that the result has two elements and excludes the card's own column. That the targets are exactly the other two columns is `Projects.EveryMoveOffered`.
- `Pipeline.SortByPriority` is an insertion sort. The source calls the engine's sort. The two are related through the properties they share: same multiset, rank order and stability. By `Pipeline.SortIsGrouping`, those properties determine the result uniquely.
