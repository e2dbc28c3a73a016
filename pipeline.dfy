/**
 * The visible task list of `Home`: `filteredTasks` keeps the tasks that pass
 * the completion filter, the selected project and the category filter;
 * `sortedTasks` orders a copy of it by priority rank (high 0, medium 1,
 * low 2) with `Array.prototype.sort`, which ECMA-262 requires to be stable
 * (section 22.1.3.27 of the 2019 edition and later editions).
 */
module Pipeline {

  import opened Records
  import opened Seqs

  /** The three buttons above the list: all, open only, completed only. */
  datatype CompletionFilter = ShowAll | ShowActive | ShowCompleted

  /** The category drop-down: "all" or one category. */
  datatype CategoryFilter = AnyCategory | OnlyCategory(category: Category)

  /** The inputs of the pipeline besides the list of tasks. */
  datatype View = View(
    completion: CompletionFilter,
    selectedProjectId: Option<string>,
    category: CategoryFilter)

  predicate PassesCompletion(t: Task, f: CompletionFilter)
  {
    match f
    case ShowAll => true
    case ShowActive => !t.completed
    case ShowCompleted => t.completed
  }

  /** JavaScript truthiness of the selected project id: null and "" both mean no filter. */
  predicate ProjectFilterOn(selected: Option<string>)
  {
    selected.Some? && selected.value != ""
  }

  predicate PassesProject(t: Task, selected: Option<string>)
  {
    ProjectFilterOn(selected) ==> t.projectId == selected
  }

  predicate PassesCategory(t: Task, f: CategoryFilter)
  {
    f.OnlyCategory? ==> t.category == f.category
  }

  /** The three filters together, one condition each. */
  predicate Passes(t: Task, v: View)
  {
    PassesCompletion(t, v.completion) && PassesProject(t, v.selectedProjectId) && PassesCategory(t, v.category)
  }

  /** The filter callback as the source writes it: a chain of early rejections. */
  function Shown(v: View): (r: Task -> bool)
    ensures forall t :: r(t) <==> Passes(t, v)
  {
    (t: Task) =>
      if v.completion == ShowActive && t.completed then false
      else if v.completion == ShowCompleted && !t.completed then false
      else if ProjectFilterOn(v.selectedProjectId) && t.projectId != v.selectedProjectId then false
      else if v.category.OnlyCategory? && t.category != v.category.category then false
      else true
  }

  /**
   * `filteredTasks`: a subsequence of the list of tasks holding exactly the
   * tasks that pass all three filters, each as many times as in the list.
   */
  function FilteredTasks(tasks: seq<Task>, v: View): (r: seq<Task>)
    ensures IsSubsequence(r, tasks)
    ensures forall t :: t in r <==> t in tasks && Passes(t, v)
    ensures forall t :: multiset(r)[t] == if Passes(t, v) then multiset(tasks)[t] else 0
  {
    FilterIsSubsequence(tasks, Shown(v));
    forall t | true ensures multiset(Filter(tasks, Shown(v)))[t] == if Passes(t, v) then multiset(tasks)[t] else 0 {
      FilterMultiplicity(tasks, Shown(v), t);
    }
    Filter(tasks, Shown(v))
  }

  /** `priorityOrder` of the sort comparator. */
  function Rank(p: Priority): (r: nat)
    ensures r <= 2
    ensures r == 0 <==> p == High
  {
    match p
    case High => 0
    case Medium => 1
    case Low => 2
  }

  function TaskRank(t: Task): nat
  {
    Rank(t.priority)
  }

  /** Non-decreasing priority rank: the comparator never returns a positive value for neighbours in order. */
  predicate Sorted(s: seq<Task>)
  {
    forall i, j :: 0 <= i < j < |s| ==> TaskRank(s[i]) <= TaskRank(s[j])
  }

  function HasRank(k: nat): Task -> bool
  {
    (t: Task) => TaskRank(t) == k
  }

  /** The tasks of one rank, in their order. Stability means sorting keeps this for every rank. */
  function OfRank(s: seq<Task>, k: nat): seq<Task>
  {
    Filter(s, HasRank(k))
  }

  /** Puts `t` in front of the first task whose rank is not smaller than its own. */
  function Insert(t: Task, s: seq<Task>): (r: seq<Task>)
    ensures |r| == |s| + 1
    ensures multiset(r) == multiset(s) + multiset{t}
  {
    if s == [] || TaskRank(t) <= TaskRank(s[0]) then [t] + s
    else
      assert s == [s[0]] + s[1..];
      [s[0]] + Insert(t, s[1..])
  }

  lemma SortedCons(a: Task, s: seq<Task>)
    requires Sorted(s)
    requires forall x :: x in s ==> TaskRank(a) <= TaskRank(x)
    ensures Sorted([a] + s)
  {
    var r := [a] + s;
    forall i, j | 0 <= i < j < |r| ensures TaskRank(r[i]) <= TaskRank(r[j]) {
      assert r[j] == s[j - 1];
      if i > 0 { assert r[i] == s[i - 1]; }
    }
  }

  lemma SortedTail(s: seq<Task>)
    requires Sorted(s) && s != []
    ensures Sorted(s[1..])
    ensures forall x :: x in s[1..] ==> TaskRank(s[0]) <= TaskRank(x)
  {
    forall x | x in s[1..] ensures TaskRank(s[0]) <= TaskRank(x) {
      var j :| 0 <= j < |s[1..]| && s[1..][j] == x;
      assert s[j + 1] == x;
    }
  }

  /** Inserting into a sorted list keeps it sorted. */
  lemma {:induction false} InsertSorted(t: Task, s: seq<Task>)
    requires Sorted(s)
    ensures Sorted(Insert(t, s))
  {
    if s == [] || TaskRank(t) <= TaskRank(s[0]) {
      if s != [] { SortedTail(s); }
      SortedCons(t, s);
    } else {
      var rest := Insert(t, s[1..]);
      SortedTail(s);
      InsertSorted(t, s[1..]);
      forall x | x in rest ensures TaskRank(s[0]) <= TaskRank(x) {
        assert x in multiset(rest);
      }
      SortedCons(s[0], rest);
    }
  }

  /**
   * A stable sort by priority rank, by insertion: a permutation of its input
   * whose ranks never decrease.
   */
  function SortByPriority(s: seq<Task>): (r: seq<Task>)
    ensures multiset(r) == multiset(s)
    ensures Sorted(r)
  {
    if s == [] then []
    else
      assert s == [s[0]] + s[1..];
      InsertSorted(s[0], SortByPriority(s[1..]));
      Insert(s[0], SortByPriority(s[1..]))
  }

  /**
   * `sortedTasks`: the filtered tasks, each as often as there, in
   * non-decreasing priority rank; a task is shown iff it passes all three
   * filters.
   */
  function VisibleTasks(tasks: seq<Task>, v: View): (r: seq<Task>)
    ensures multiset(r) == multiset(FilteredTasks(tasks, v))
    ensures Sorted(r)
    ensures forall t :: t in r <==> t in tasks && Passes(t, v)
  {
    var r := SortByPriority(FilteredTasks(tasks, v));
    assert forall t :: t in r <==> t in multiset(FilteredTasks(tasks, v));
    r
  }

  // ---------------------------------------------------------------------
  // Properties of the pipeline
  // ---------------------------------------------------------------------

  /** A task is missing from the filtered list only because it fails one of the filters. */
  lemma ExcludedFailsAFilter(tasks: seq<Task>, v: View, t: Task)
    requires t in tasks && t !in FilteredTasks(tasks, v)
    ensures !PassesCompletion(t, v.completion) || !PassesProject(t, v.selectedProjectId) || !PassesCategory(t, v.category)
  {
  }

  /** Filtering an already filtered list again changes nothing. */
  lemma FilterIdempotent(tasks: seq<Task>, v: View)
    ensures FilteredTasks(FilteredTasks(tasks, v), v) == FilteredTasks(tasks, v)
  {
    var f := FilteredTasks(tasks, v);
    FilterAll(f, Shown(v));
  }

  lemma {:induction false} InsertStable(t: Task, s: seq<Task>, k: nat)
    ensures OfRank(Insert(t, s), k) == (if TaskRank(t) == k then [t] else []) + OfRank(s, k)
  {
    var r := Insert(t, s);
    if s == [] || TaskRank(t) <= TaskRank(s[0]) {
      assert r == [t] + s;
      FilterConcat([t], s, HasRank(k));
    } else {
      var rest := Insert(t, s[1..]);
      InsertStable(t, s[1..], k);
      assert r == [s[0]] + rest;
      assert s == [s[0]] + s[1..];
      FilterConcat([s[0]], rest, HasRank(k));
      FilterConcat([s[0]], s[1..], HasRank(k));
      FilterConcat([t], s[1..], HasRank(k));
    }
  }

  /** Stability: for every rank, the tasks of that rank keep their relative order. */
  lemma {:induction false} SortStable(s: seq<Task>, k: nat)
    ensures OfRank(SortByPriority(s), k) == OfRank(s, k)
  {
    if s != [] {
      SortStable(s[1..], k);
      InsertStable(s[0], SortByPriority(s[1..]), k);
    }
  }

  lemma OfRankCons(a: Task, rest: seq<Task>, k: nat)
    ensures OfRank([a] + rest, k) == (if TaskRank(a) == k then [a] else []) + OfRank(rest, k)
  {
    FilterConcat([a], rest, HasRank(k));
  }

  lemma OfRankBelow(a: Task, rest: seq<Task>, k: nat)
    requires forall x :: x in rest ==> TaskRank(a) <= TaskRank(x)
    requires k < TaskRank(a)
    ensures OfRank(rest, k) == []
  {
    FilterNone(rest, HasRank(k));
  }

  /** Putting a task no worse than every other in front of a grouped list keeps it grouped. */
  lemma GroupedCons(a: Task, rest: seq<Task>)
    requires forall x :: x in rest ==> TaskRank(a) <= TaskRank(x)
    requires rest == OfRank(rest, 0) + OfRank(rest, 1) + OfRank(rest, 2)
    ensures [a] + rest == OfRank([a] + rest, 0) + OfRank([a] + rest, 1) + OfRank([a] + rest, 2)
  {
    var r0, r1, r2 := OfRank(rest, 0), OfRank(rest, 1), OfRank(rest, 2);
    OfRankCons(a, rest, 0);
    OfRankCons(a, rest, 1);
    OfRankCons(a, rest, 2);
    ConsRegroup(a, r0, r1, r2);
    if TaskRank(a) >= 1 { OfRankBelow(a, rest, 0); }
    if TaskRank(a) >= 2 { OfRankBelow(a, rest, 1); }
  }

  /** A list in rank order is its high tasks, then its medium tasks, then its low tasks. */
  lemma {:induction false} SortedIsGrouped(u: seq<Task>)
    requires Sorted(u)
    ensures u == OfRank(u, 0) + OfRank(u, 1) + OfRank(u, 2)
  {
    if u != [] {
      SortedTail(u);
      SortedIsGrouped(u[1..]);
      GroupedCons(u[0], u[1..]);
      assert u == [u[0]] + u[1..];
    }
  }

  /**
   * The reference definition of a stable sort on three ranks: the sorted
   * list is the high tasks, then the medium ones, then the low ones, each
   * group in input order.
   */
  lemma SortIsGrouping(s: seq<Task>)
    ensures SortByPriority(s) == OfRank(s, 0) + OfRank(s, 1) + OfRank(s, 2)
  {
    SortedIsGrouped(SortByPriority(s));
    SortStable(s, 0);
    SortStable(s, 1);
    SortStable(s, 2);
  }

  /** Sorting a sorted list changes nothing. */
  lemma SortIdempotent(s: seq<Task>)
    ensures SortByPriority(SortByPriority(s)) == SortByPriority(s)
  {
    var r := SortByPriority(s);
    SortIsGrouping(r);
    SortStable(s, 0);
    SortStable(s, 1);
    SortStable(s, 2);
    SortIsGrouping(s);
  }

  /** Equal-priority tasks appear in the visible list in their list order. */
  lemma VisibleStable(tasks: seq<Task>, v: View, k: nat)
    ensures OfRank(VisibleTasks(tasks, v), k) == OfRank(FilteredTasks(tasks, v), k)
  {
    SortStable(FilteredTasks(tasks, v), k);
  }

  /** A task example: three tasks, the active filter, no project, every category. */
  function Sample(id: string, p: Priority, completed: bool): Task
  {
    Task(id, "Test", "", None, p, None, Work, completed, "2026-02-06")
  }

  /**
   * The open high task comes first, the open low one second, and the
   * completed high one is hidden by the active filter.
   */
  lemma ActiveFilterExample()
    ensures VisibleTasks([Sample("1", High, false), Sample("2", Low, false), Sample("3", High, true)],
                         View(ShowActive, None, AnyCategory))
         == [Sample("1", High, false), Sample("2", Low, false)]
  {
    var a, b, c := Sample("1", High, false), Sample("2", Low, false), Sample("3", High, true);
    var v := View(ShowActive, None, AnyCategory);
    assert Shown(v)(a) && Shown(v)(b) && !Shown(v)(c);
    assert Filter([c], Shown(v)) == [];
    assert [b, c][1..] == [c];
    assert Filter([b, c], Shown(v)) == [b];
    assert [a, b, c][1..] == [b, c];
    assert FilteredTasks([a, b, c], v) == [a, b];
    assert [a, b][1..] == [b];
    assert SortByPriority([b]) == [b];
  }
}
