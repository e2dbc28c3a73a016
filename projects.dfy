/**
 * The project list handlers of `Home` and the rules of `KanbanColumn`: a
 * column shows the projects whose status is its own, each card offers moves
 * to the other two columns, and clicking a card selects it as the project filter
 * of the list of tasks or, when it is already selected, clears the filter.
 */
module Projects {

  import opened Records
  import opened Seqs

  /** `Omit<Project, 'id'>`: what the add project form hands over. */
  datatype ProjectDraft = ProjectDraft(
    name: string,
    status: Status,
    color: string,
    emoji: string,
    description: string)

  predicate FreshId(projects: seq<Project>, id: string)
  {
    forall i :: 0 <= i < |projects| ==> projects[i].id != id
  }

  predicate UniqueIds(projects: seq<Project>)
  {
    forall i, j :: 0 <= i < j < |projects| ==> projects[i].id != projects[j].id
  }

  function DraftOf(p: Project): ProjectDraft
  {
    ProjectDraft(p.name, p.status, p.color, p.emoji, p.description)
  }

  /** `handleAddProject`: the new project, made of the draft and the id, goes last. */
  function AddProject(projects: seq<Project>, d: ProjectDraft, id: string): (r: seq<Project>)
    ensures |r| == |projects| + 1 && r[..|projects|] == projects
    ensures r[|projects|].id == id && DraftOf(r[|projects|]) == d
  {
    projects + [Project(id, d.name, d.status, d.color, d.emoji, d.description)]
  }

  /** The mapping callback of `handleMoveProject`. */
  function MoveIfId(id: string, status: Status): Project -> Project
  {
    (p: Project) => if p.id == id then p.(status := status) else p
  }

  /**
   * `handleMoveProject`: every project with the id gets the new status and
   * keeps all its other fields; every other project is unchanged.
   */
  function Move(projects: seq<Project>, id: string, status: Status): (r: seq<Project>)
    ensures |r| == |projects|
    ensures forall i :: 0 <= i < |projects| && projects[i].id != id ==> r[i] == projects[i]
    ensures forall i :: 0 <= i < |projects| && projects[i].id == id ==>
              r[i].status == status && r[i].(status := projects[i].status) == projects[i]
  {
    Map(projects, MoveIfId(id, status))
  }

  function HasStatus(status: Status): Project -> bool
  {
    (p: Project) => p.status == status
  }

  /** `projects.filter(p => p.status === status)`: the cards of one kanban column, in list order. */
  function Column(projects: seq<Project>, status: Status): (r: seq<Project>)
    ensures forall p :: p in r <==> p in projects && p.status == status
    ensures IsSubsequence(r, projects)
  {
    FilterIsSubsequence(projects, HasStatus(status));
    Filter(projects, HasStatus(status))
  }

  /** The move buttons of a card: one for each column other than the card's own. */
  function MoveTargets(status: Status): (r: set<Status>)
    ensures status !in r && |r| == 2
  {
    match status
    case Backlog => {Active, Done}
    case Active => {Backlog, Done}
    case Done => {Backlog, Active}
  }

  /**
   * The card's click handler: clicking the selected project clears the
   * selection, clicking any other project selects it.
   */
  function Select(selected: Option<string>, clicked: string): (r: Option<string>)
    ensures r.None? <==> selected == Some(clicked)
    ensures r.Some? ==> r.value == clicked
  {
    if selected == Some(clicked) then None else Some(clicked)
  }

  // ---------------------------------------------------------------------
  // Properties of the kanban board
  // ---------------------------------------------------------------------

  /** Every project sits in exactly one of the three columns, once per occurrence in the list. */
  lemma {:induction false} ColumnsPartition(projects: seq<Project>)
    ensures multiset(Column(projects, Backlog)) + multiset(Column(projects, Active)) + multiset(Column(projects, Done))
            == multiset(projects)
  {
    if projects != [] {
      var p, rest := projects[0], projects[1..];
      ColumnsPartition(rest);
      assert projects == [p] + rest;
      ColumnCons(p, rest, Backlog);
      ColumnCons(p, rest, Active);
      ColumnCons(p, rest, Done);
    }
  }

  /** The three column headers' counts add up to the number of projects. */
  lemma {:induction false} ColumnSizes(projects: seq<Project>)
    ensures |Column(projects, Backlog)| + |Column(projects, Active)| + |Column(projects, Done)| == |projects|
  {
    if projects != [] {
      var p, rest := projects[0], projects[1..];
      ColumnSizes(rest);
      assert projects == [p] + rest;
      ColumnCons(p, rest, Backlog);
      ColumnCons(p, rest, Active);
      ColumnCons(p, rest, Done);
    }
  }

  lemma ColumnCons(p: Project, rest: seq<Project>, status: Status)
    ensures Column([p] + rest, status) == if p.status == status then [p] + Column(rest, status) else Column(rest, status)
  {
    assert ([p] + rest)[1..] == rest;
  }

  /** Adding with a fresh id keeps ids unique. */
  lemma AddKeepsUniqueIds(projects: seq<Project>, d: ProjectDraft, id: string)
    requires UniqueIds(projects) && FreshId(projects, id)
    ensures UniqueIds(AddProject(projects, d, id))
  {
    var r := AddProject(projects, d, id);
    forall i, j | 0 <= i < j < |r| ensures r[i].id != r[j].id {
      assert r[i] == projects[i];
    }
  }

  /** A new project appears at the end of its draft's column; the other columns are unchanged. */
  lemma AddLandsInColumn(projects: seq<Project>, d: ProjectDraft, id: string, status: Status)
    ensures Column(AddProject(projects, d, id), status)
            == Column(projects, status) + (if d.status == status then [AddProject(projects, d, id)[|projects|]] else [])
  {
    var r := AddProject(projects, d, id);
    assert r == projects + [r[|projects|]];
    FilterConcat(projects, [r[|projects|]], HasStatus(status));
    assert Filter([r[|projects|]], HasStatus(status)) == if d.status == status then [r[|projects|]] else [];
  }

  /** Moving never changes which ids the list holds, nor where, so ids stay unique. */
  lemma MoveKeepsUniqueIds(projects: seq<Project>, id: string, status: Status)
    requires UniqueIds(projects)
    ensures UniqueIds(Move(projects, id, status))
  {
    var r := Move(projects, id, status);
    assert forall i :: 0 <= i < |projects| ==> r[i].id == projects[i].id;
  }

  /**
   * Moving the project at `k` (ids unique) into column `status`: that column
   * gains it unless it was there already, the column it came from loses it,
   * and the remaining column keeps its size.
   */
  lemma MoveColumnSizes(projects: seq<Project>, k: nat, status: Status, c: Status)
    requires UniqueIds(projects) && k < |projects|
    ensures |Column(Move(projects, projects[k].id, status), c)|
            == |Column(projects, c)|
               + (if c == status then 1 else 0)
               - (if c == projects[k].status then 1 else 0)
  {
    var id := projects[k].id;
    var f := MoveIfId(id, status);
    forall i | 0 <= i < |projects| && i != k ensures f(projects[i]) == projects[i] {
      if i < k { assert projects[i].id != projects[k].id; }
      else { assert projects[k].id != projects[i].id; }
    }
    MapOneCount(projects, f, k, HasStatus(c));
  }

  /** With unique ids, moving a project back to where it was restores the list. */
  lemma MoveBack(projects: seq<Project>, k: nat, status: Status)
    requires UniqueIds(projects) && k < |projects|
    ensures Move(Move(projects, projects[k].id, status), projects[k].id, projects[k].status) == projects
  {
    var id := projects[k].id;
    var once := Move(projects, id, status);
    var twice := Move(once, id, projects[k].status);
    forall i | 0 <= i < |projects| ensures twice[i] == projects[i] {
      assert once[i].id == projects[i].id;
    }
  }

  /** From every column a card can be moved straight to every other column. */
  lemma EveryMoveOffered(from: Status, to: Status)
    requires from != to
    ensures to in MoveTargets(from)
  {
    match from
    case Backlog => assert to == Active || to == Done;
    case Active => assert to == Backlog || to == Done;
    case Done => assert to == Backlog || to == Active;
  }
}
