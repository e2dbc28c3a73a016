/**
 * The two records the tracker stores, tasks and projects, with their
 * enumerated fields. JavaScript's `null` for an absent project reference or
 * due date is `None`.
 */
module Records {

  datatype Option<T> = None | Some(value: T)

  datatype Priority = High | Medium | Low

  datatype Category = Work | Admin | Personal | Travel

  /** A project's kanban column. */
  datatype Status = Backlog | Active | Done

  datatype Task = Task(
    id: string,
    text: string,
    notes: string,
    projectId: Option<string>,
    priority: Priority,
    dueDate: Option<string>,
    category: Category,
    completed: bool,
    createdAt: string)

  datatype Project = Project(
    id: string,
    name: string,
    status: Status,
    color: string,
    emoji: string,
    description: string)
}
