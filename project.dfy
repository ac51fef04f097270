/**
 * The project entity of src/project.js: an ordered list of task ids with its
 * own view, sort and filter settings, the query that resolves, filters and
 * sorts its tasks, and its snapshot form.
 */
module ProjectModel {
  import opened Wrappers
  import opened JsArray
  import opened JsMap
  import opened StableSort
  import opened TodoModel

  // ---------------------------------------------------------------------------
  // Filters, sort settings and the environment of a query
  // ---------------------------------------------------------------------------

  /** The filter object: completion, priority, due-date bucket and tags. */
  datatype Filters = Filters(completed: string, priority: string, dueDate: string, tags: seq<string>)

  /** Every filter at "all", and no tag filter. */
  const DefaultFilters := Filters("all", "all", "all", [])

  /** The own keys of the filter object. */
  const FilterKeys: set<string> := {"completed", "priority", "dueDate", "tags"}

  /** A value written by `updateFilter`: a choice for the first three keys, a tag list for "tags". */
  datatype FilterValue = Choice(choice: string) | TagList(tags: seq<string>)

  const MsPerDay := 86400000

  /**
   * What a query reads besides the workspace: the current time `now` and its
   * weekday (0 is Sunday), the local calendar day of a timestamp, the task's
   * derived overdue flag, and the locale collation of titles as a key whose
   * order is `localeCompare`'s.
   */
  datatype Env = Env(
    now: int,
    weekday: int,
    dayOf: int -> int,
    isOverdue: Task -> bool,
    collate: string -> real)

  /** `endOfWeek`: now moved forward by (7 - weekday) days. */
  function EndOfWeek(env: Env): int {
    env.now + (7 - env.weekday) * MsPerDay
  }

  // ---------------------------------------------------------------------------
  // getFilteredTodos: resolve, filter, sort
  // ---------------------------------------------------------------------------

  /** Some id of `ids` resolves to `t` through `getTodo`. */
  ghost predicate Resolves(ids: seq<string>, todos: OrderedMap<Task>, t: Task) {
    exists j :: 0 <= j < |ids| && todos.Get(ids[j]) == Some(t)
  }

  /** `ids.map(id => getTodo(id)).filter(t => t !== undefined)`. */
  function Resolve(ids: seq<string>, todos: OrderedMap<Task>): (r: seq<Task>)
    ensures |r| <= |ids|
    ensures forall t :: t in r <==> Resolves(ids, todos, t)
  {
    if ids == [] then []
    else
      var init, last := ids[..|ids| - 1], ids[|ids| - 1];
      var rest := Resolve(init, todos);
      var r := rest + match todos.Get(last) case Some(t) => [t] case None => [];
      assert forall t :: Resolves(ids, todos, t) <==> Resolves(init, todos, t) || todos.Get(last) == Some(t) by {
        forall t ensures Resolves(ids, todos, t) <==> Resolves(init, todos, t) || todos.Get(last) == Some(t) {
          if Resolves(ids, todos, t) {
            var j :| 0 <= j < |ids| && todos.Get(ids[j]) == Some(t);
            if j < |init| { assert init[j] == ids[j]; }
          }
          if Resolves(init, todos, t) {
            var j :| 0 <= j < |init| && todos.Get(init[j]) == Some(t);
            assert ids[j] == init[j];
          }
        }
      }
      r
  }

  /** The completion filter keeps `t`. */
  predicate CompletionAdmits(mode: string, t: Task) {
    (mode == "active" ==> !t.completed) && (mode == "completed" ==> t.completed)
  }

  /** The priority filter keeps `t`. */
  predicate PriorityAdmits(priority: string, t: Task) {
    priority == "all" || t.priority == priority
  }

  /** The due-date filter keeps `t`; a value other than the three buckets filters nothing. */
  predicate DueDateAdmits(bucket: string, env: Env, t: Task) {
    && (bucket == "today" ==> env.dayOf(t.dueDate) == env.dayOf(env.now))
    && (bucket == "week" ==> env.now <= t.dueDate <= EndOfWeek(env))
    && (bucket == "overdue" ==> env.isOverdue(t))
  }

  /** `t` carries at least one of `tags`. */
  predicate SharesTag(tags: seq<string>, t: Task) {
    exists i :: 0 <= i < |tags| && tags[i] in t.tags
  }

  /** The tag filter keeps `t`: it is empty, or `t` carries one of its tags. */
  predicate TagsAdmit(tags: seq<string>, t: Task) {
    |tags| == 0 || SharesTag(tags, t)
  }

  /** All four filters keep `t`. */
  predicate Admits(f: Filters, env: Env, t: Task) {
    CompletionAdmits(f.completed, t) && PriorityAdmits(f.priority, t) &&
    DueDateAdmits(f.dueDate, env, t) && TagsAdmit(f.tags, t)
  }

  /** The callbacks handed to `filter` by each step. */
  function IsOpen(): Task -> bool { (t: Task) => !t.completed }
  function IsCompleted(): Task -> bool { (t: Task) => t.completed }
  function HasPriority(priority: string): Task -> bool { (t: Task) => t.priority == priority }
  function DueToday(env: Env): Task -> bool { (t: Task) => env.dayOf(t.dueDate) == env.dayOf(env.now) }
  function DueThisWeek(env: Env): Task -> bool { (t: Task) => env.now <= t.dueDate <= EndOfWeek(env) }
  function Overdue(env: Env): Task -> bool { (t: Task) => env.isOverdue(t) }
  function HasAnyTag(tags: seq<string>): Task -> bool { (t: Task) => SharesTag(tags, t) }

  /** The completion step of the pipeline. */
  function FilterByCompletion(ts: seq<Task>, mode: string): seq<Task> {
    if mode == "active" then Select(ts, IsOpen())
    else if mode == "completed" then Select(ts, IsCompleted())
    else ts
  }

  /** The priority step of the pipeline. */
  function FilterByPriority(ts: seq<Task>, priority: string): seq<Task> {
    if priority != "all" then Select(ts, HasPriority(priority)) else ts
  }

  /** The due-date step of the pipeline: a `switch` with no default case. */
  function FilterByDueDate(ts: seq<Task>, bucket: string, env: Env): seq<Task> {
    if bucket == "all" then ts
    else if bucket == "today" then Select(ts, DueToday(env))
    else if bucket == "week" then Select(ts, DueThisWeek(env))
    else if bucket == "overdue" then Select(ts, Overdue(env))
    else ts
  }

  /** The tag step of the pipeline. */
  function FilterByTags(ts: seq<Task>, tags: seq<string>): seq<Task> {
    if |tags| > 0 then Select(ts, HasAnyTag(tags)) else ts
  }

  /** The four filters, applied in the source's order. */
  function ApplyFilters(ts: seq<Task>, f: Filters, env: Env): seq<Task> {
    FilterByTags(FilterByDueDate(FilterByPriority(FilterByCompletion(ts, f.completed), f.priority), f.dueDate, env), f.tags)
  }

  /** What each filter keeps, as a callback, and what all four keep together. */
  function CompletionKeeps(mode: string): Task -> bool { (t: Task) => CompletionAdmits(mode, t) }
  function PriorityKeeps(priority: string): Task -> bool { (t: Task) => PriorityAdmits(priority, t) }
  function DueDateKeeps(bucket: string, env: Env): Task -> bool { (t: Task) => DueDateAdmits(bucket, env, t) }
  function TagsKeep(tags: seq<string>): Task -> bool { (t: Task) => TagsAdmit(tags, t) }
  function Admitted(f: Filters, env: Env): Task -> bool { (t: Task) => Admits(f, env, t) }

  /** What the first `n` filters keep together. */
  function FirstFiltersKeep(f: Filters, env: Env, n: nat): Task -> bool {
    (t: Task) => CompletionAdmits(f.completed, t) && (n >= 2 ==> PriorityAdmits(f.priority, t)) &&
                 (n >= 3 ==> DueDateAdmits(f.dueDate, env, t))
  }

  /** Each step is one `filter` by what that filter keeps, a step that filters nothing included. */
  lemma CompletionIsSelect(ts: seq<Task>, mode: string)
    ensures FilterByCompletion(ts, mode) == Select(ts, CompletionKeeps(mode))
  {
    if mode == "active" {
      SelectAgree(ts, IsOpen(), CompletionKeeps(mode));
    } else if mode == "completed" {
      SelectAgree(ts, IsCompleted(), CompletionKeeps(mode));
    } else {
      SelectKeepsAll(ts, CompletionKeeps(mode));
    }
  }

  lemma PriorityIsSelect(ts: seq<Task>, priority: string)
    ensures FilterByPriority(ts, priority) == Select(ts, PriorityKeeps(priority))
  {
    if priority != "all" {
      SelectAgree(ts, HasPriority(priority), PriorityKeeps(priority));
    } else {
      SelectKeepsAll(ts, PriorityKeeps(priority));
    }
  }

  lemma DueDateIsSelect(ts: seq<Task>, bucket: string, env: Env)
    ensures FilterByDueDate(ts, bucket, env) == Select(ts, DueDateKeeps(bucket, env))
  {
    if bucket == "today" {
      SelectAgree(ts, DueToday(env), DueDateKeeps(bucket, env));
    } else if bucket == "week" {
      SelectAgree(ts, DueThisWeek(env), DueDateKeeps(bucket, env));
    } else if bucket == "overdue" {
      SelectAgree(ts, Overdue(env), DueDateKeeps(bucket, env));
    } else {
      SelectKeepsAll(ts, DueDateKeeps(bucket, env));
    }
  }

  lemma TagsIsSelect(ts: seq<Task>, tags: seq<string>)
    ensures FilterByTags(ts, tags) == Select(ts, TagsKeep(tags))
  {
    if |tags| > 0 {
      SelectAgree(ts, HasAnyTag(tags), TagsKeep(tags));
    } else {
      SelectKeepsAll(ts, TagsKeep(tags));
    }
  }

  /**
   * The staged filters are one `filter` by what all four keep: the result
   * holds each admitted task as often as the input does, in the input's order.
   */
  lemma ApplyFiltersIsSelect(ts: seq<Task>, f: Filters, env: Env)
    ensures ApplyFilters(ts, f, env) == Select(ts, Admitted(f, env))
  {
    var a := FilterByCompletion(ts, f.completed);
    CompletionIsSelect(ts, f.completed);
    var b := FilterByPriority(a, f.priority);
    PriorityIsSelect(a, f.priority);
    SelectSelect(ts, CompletionKeeps(f.completed), PriorityKeeps(f.priority), FirstFiltersKeep(f, env, 2));
    var c := FilterByDueDate(b, f.dueDate, env);
    DueDateIsSelect(b, f.dueDate, env);
    SelectSelect(ts, FirstFiltersKeep(f, env, 2), DueDateKeeps(f.dueDate, env), FirstFiltersKeep(f, env, 3));
    TagsIsSelect(c, f.tags);
    SelectSelect(ts, FirstFiltersKeep(f, env, 3), TagsKeep(f.tags), Admitted(f, env));
  }

  lemma CompletionStep(ts: seq<Task>, mode: string, t: Task)
    ensures t in FilterByCompletion(ts, mode) <==> t in ts && CompletionAdmits(mode, t)
  {
    if mode == "active" { SelectMembership(ts, IsOpen(), t); }
    if mode == "completed" { SelectMembership(ts, IsCompleted(), t); }
  }

  lemma PriorityStep(ts: seq<Task>, priority: string, t: Task)
    ensures t in FilterByPriority(ts, priority) <==> t in ts && PriorityAdmits(priority, t)
  {
    if priority != "all" { SelectMembership(ts, HasPriority(priority), t); }
  }

  lemma DueDateStep(ts: seq<Task>, bucket: string, env: Env, t: Task)
    ensures t in FilterByDueDate(ts, bucket, env) <==> t in ts && DueDateAdmits(bucket, env, t)
  {
    if bucket == "today" { SelectMembership(ts, DueToday(env), t); }
    if bucket == "week" { SelectMembership(ts, DueThisWeek(env), t); }
    if bucket == "overdue" { SelectMembership(ts, Overdue(env), t); }
  }

  lemma TagsStep(ts: seq<Task>, tags: seq<string>, t: Task)
    ensures t in FilterByTags(ts, tags) <==> t in ts && TagsAdmit(tags, t)
  {
    if |tags| > 0 { SelectMembership(ts, HasAnyTag(tags), t); }
  }

  /** The staged filters keep exactly the tasks that every filter admits. */
  lemma ApplyFiltersMembership(ts: seq<Task>, f: Filters, env: Env, t: Task)
    ensures t in ApplyFilters(ts, f, env) <==> t in ts && Admits(f, env, t)
  {
    var a := FilterByCompletion(ts, f.completed);
    CompletionStep(ts, f.completed, t);
    var b := FilterByPriority(a, f.priority);
    PriorityStep(a, f.priority, t);
    var c := FilterByDueDate(b, f.dueDate, env);
    DueDateStep(b, f.dueDate, env, t);
    TagsStep(c, f.tags, t);
  }

  /** `{ critical: 4, high: 3, medium: 2, low: 1 }[p] || 0`. */
  function PriorityRank(p: string): (r: int)
    ensures 0 <= r <= 4
    ensures r == 0 <==> p !in {"critical", "high", "medium", "low"}
  {
    if p == "critical" then 4
    else if p == "high" then 3
    else if p == "medium" then 2
    else if p == "low" then 1
    else 0
  }

  /** The ranks order the four priorities critical, high, medium, low, and only "critical" has the top rank. */
  lemma PriorityRanking()
    ensures PriorityRank("critical") > PriorityRank("high") > PriorityRank("medium") > PriorityRank("low") > 0
    ensures forall p :: PriorityRank(p) == PriorityRank("critical") ==> p == "critical"
  {
  }

  /** The comparator body before the direction flag; an unknown `sortBy` falls back to the due date. */
  function BaseComparison(a: Task, b: Task, sortBy: string, collate: string -> real): real {
    if sortBy == "priority" then (PriorityRank(b.priority) - PriorityRank(a.priority)) as real
    else if sortBy == "createdAt" then (b.createdAt - a.createdAt) as real
    else if sortBy == "title" then collate(a.title) - collate(b.title)
    else (a.dueDate - b.dueDate) as real
  }

  /** The comparator handed to `sort`: negated unless the direction is exactly "asc". */
  function Comparison(a: Task, b: Task, sortBy: string, direction: string, collate: string -> real): real {
    var c := BaseComparison(a, b, sortBy, collate);
    if direction == "asc" then c else -c
  }

  /** The key the comparator compares. */
  function SortKey(t: Task, sortBy: string, direction: string, collate: string -> real): real {
    var k :=
      if sortBy == "priority" then -(PriorityRank(t.priority) as real)
      else if sortBy == "createdAt" then -(t.createdAt as real)
      else if sortBy == "title" then collate(t.title)
      else t.dueDate as real;
    if direction == "asc" then k else -k
  }

  function KeyOf(sortBy: string, direction: string, collate: string -> real): Task -> real {
    (t: Task) => SortKey(t, sortBy, direction, collate)
  }

  /** The comparator is the difference of the keys, so it is a consistent comparator. */
  lemma ComparisonIsKeyDifference(a: Task, b: Task, sortBy: string, direction: string, collate: string -> real)
    ensures Comparison(a, b, sortBy, direction, collate)
         == SortKey(a, sortBy, direction, collate) - SortKey(b, sortBy, direction, collate)
  {
  }

  /**
   * `sortTodos`: `[...todos].sort(comparator)`. The result is a permutation of
   * the input, ordered by the comparator, and tasks the comparator ties keep
   * their input order.
   */
  function SortTasks(ts: seq<Task>, sortBy: string, direction: string, collate: string -> real): (r: seq<Task>)
    ensures |r| == |ts|
    ensures multiset(r) == multiset(ts)
    ensures forall i, j :: 0 <= i < j < |r| ==> Comparison(r[i], r[j], sortBy, direction, collate) <= 0.0
    ensures forall v :: WithKey(r, KeyOf(sortBy, direction, collate), v) == WithKey(ts, KeyOf(sortBy, direction, collate), v)
  {
    var r := Sort(ts, KeyOf(sortBy, direction, collate));
    assert forall i, j :: 0 <= i < j < |r| ==> Comparison(r[i], r[j], sortBy, direction, collate) <= 0.0 by {
      forall i, j | 0 <= i < j < |r| ensures Comparison(r[i], r[j], sortBy, direction, collate) <= 0.0 {
        ComparisonIsKeyDifference(r[i], r[j], sortBy, direction, collate);
      }
    }
    r
  }

  /** Sorting by priority: "asc" puts the higher rank first, any other direction the lower rank first. */
  lemma {:induction false} PrioritySortOrder(ts: seq<Task>, direction: string, collate: string -> real, i: nat, j: nat)
    requires i < j < |ts|
    ensures var r := SortTasks(ts, "priority", direction, collate);
            if direction == "asc" then PriorityRank(r[i].priority) >= PriorityRank(r[j].priority)
            else PriorityRank(r[i].priority) <= PriorityRank(r[j].priority)
  {
    var r := SortTasks(ts, "priority", direction, collate);
    assert Comparison(r[i], r[j], "priority", direction, collate) <= 0.0;
  }

  /** Sorting by priority with "asc" lists the critical tasks first; any other direction lists them last. */
  lemma CriticalTasksOrder(ts: seq<Task>, direction: string, collate: string -> real, i: nat, j: nat)
    requires i < j < |ts|
    ensures var r := SortTasks(ts, "priority", direction, collate);
            if direction == "asc" then r[j].priority == "critical" ==> r[i].priority == "critical"
            else r[i].priority == "critical" ==> r[j].priority == "critical"
  {
    PrioritySortOrder(ts, direction, collate, i, j);
    PriorityRanking();
  }

  /** Sorting by creation time: "asc" puts the newest first, any other direction the oldest first. */
  lemma {:induction false} CreatedAtSortOrder(ts: seq<Task>, direction: string, collate: string -> real, i: nat, j: nat)
    requires i < j < |ts|
    ensures var r := SortTasks(ts, "createdAt", direction, collate);
            if direction == "asc" then r[i].createdAt >= r[j].createdAt else r[i].createdAt <= r[j].createdAt
  {
    var r := SortTasks(ts, "createdAt", direction, collate);
    assert Comparison(r[i], r[j], "createdAt", direction, collate) <= 0.0;
  }

  /** Sorting by due date (or by an unknown key): "asc" puts the soonest first. */
  lemma {:induction false} DueDateSortOrder(ts: seq<Task>, sortBy: string, direction: string, collate: string -> real, i: nat, j: nat)
    requires sortBy !in {"priority", "createdAt", "title"}
    requires i < j < |ts|
    ensures var r := SortTasks(ts, sortBy, direction, collate);
            if direction == "asc" then r[i].dueDate <= r[j].dueDate else r[i].dueDate >= r[j].dueDate
  {
    var r := SortTasks(ts, sortBy, direction, collate);
    assert Comparison(r[i], r[j], sortBy, direction, collate) <= 0.0;
  }

  /** `getFilteredTodos`: resolve the ids, filter, then sort. */
  function FilteredTasks(ids: seq<string>, f: Filters, sortBy: string, direction: string,
                         todos: OrderedMap<Task>, env: Env): seq<Task>
  {
    SortTasks(ApplyFilters(Resolve(ids, todos), f, env), sortBy, direction, env.collate)
  }

  /** The query sorts the resolved tasks that every filter admits, kept as often and in the order the ids give them. */
  lemma FilteredTasksIsSortedSelection(ids: seq<string>, f: Filters, sortBy: string, direction: string,
                                       todos: OrderedMap<Task>, env: Env)
    ensures FilteredTasks(ids, f, sortBy, direction, todos, env)
         == SortTasks(Select(Resolve(ids, todos), Admitted(f, env)), sortBy, direction, env.collate)
  {
    ApplyFiltersIsSelect(Resolve(ids, todos), f, env);
  }

  /**
   * A task is in the query's result exactly when one of the project's ids
   * resolves to it and every filter admits it.
   */
  lemma FilteredTasksMembership(ids: seq<string>, f: Filters, sortBy: string, direction: string,
                                todos: OrderedMap<Task>, env: Env, t: Task)
    ensures t in FilteredTasks(ids, f, sortBy, direction, todos, env) <==> Resolves(ids, todos, t) && Admits(f, env, t)
  {
    var filtered := ApplyFilters(Resolve(ids, todos), f, env);
    ApplyFiltersMembership(Resolve(ids, todos), f, env, t);
    var r := SortTasks(filtered, sortBy, direction, env.collate);
    assert t in r <==> t in multiset(r);
  }

  /** `getCompletedCount`: the ids whose task exists and is completed. */
  function CompletedCount(ids: seq<string>, todos: OrderedMap<Task>): nat {
    CountWhere(ids, (id: string) => todos.Get(id).Some? && todos.Get(id).value.completed)
  }

  /** Counting completed ids is counting the completed tasks among the resolved ones, so it never exceeds the id count. */
  lemma {:induction false} CompletedCountOfResolved(ids: seq<string>, todos: OrderedMap<Task>)
    ensures CompletedCount(ids, todos) == CountWhere(Resolve(ids, todos), IsCompleted())
    ensures CompletedCount(ids, todos) <= |ids|
  {
    if ids != [] {
      var init := ids[..|ids| - 1];
      CompletedCountOfResolved(init, todos);
      var rest := Resolve(init, todos);
      var r := Resolve(ids, todos);
      match todos.Get(ids[|ids| - 1])
      case Some(t) =>
        assert r == rest + [t];
        assert r[..|r| - 1] == rest;
      case None =>
        assert r == rest;
    }
  }

  // ---------------------------------------------------------------------------
  // Snapshots (toJSON / fromJSON)
  // ---------------------------------------------------------------------------

  /** Every field of a project. */
  datatype ProjectState = ProjectState(
    id: string,
    name: string,
    description: string,
    color: string,
    createdAt: int,
    todoIds: seq<string>,
    isDefault: bool,
    view: string,
    sortBy: string,
    sortDirection: string,
    filters: Filters)

  /** A parsed project snapshot; a field may be absent. */
  datatype ProjectSnapshot = ProjectSnapshot(
    id: string,
    name: string,
    description: Option<string>,
    color: Option<string>,
    createdAt: int,
    todoIds: Option<seq<string>>,
    isDefault: Option<bool>,
    view: Option<string>,
    sortBy: Option<string>,
    sortDirection: Option<string>,
    filters: Option<Filters>)

  const DefaultColor := "#3B82F6"

  /** The state of `new Project(name, description, color)` given the id and the creation time. */
  function NewProjectState(id: string, name: string, description: string, color: string, now: int): ProjectState {
    ProjectState(id, name, description, color, now, [], false, "list", "dueDate", "asc", DefaultFilters)
  }

  /** `s || d` on a string: the empty string is falsy as well as an absent one. */
  function StringOr(s: Option<string>, d: string): string {
    if s.Some? && s.value != "" then s.value else d
  }

  /** `toJSON`. */
  function ToSnapshot(p: ProjectState): ProjectSnapshot {
    ProjectSnapshot(p.id, p.name, Some(p.description), Some(p.color), p.createdAt, Some(p.todoIds),
                    Some(p.isDefault), Some(p.view), Some(p.sortBy), Some(p.sortDirection), Some(p.filters))
  }

  /**
   * `fromJSON`: the constructor's defaults for an absent description or
   * colour, then `|| default` for the fields assigned afterwards.
   */
  function FromSnapshot(s: ProjectSnapshot): ProjectState {
    ProjectState(s.id, s.name, s.description.GetOr(""), s.color.GetOr(DefaultColor), s.createdAt,
                 s.todoIds.GetOr([]), s.isDefault.GetOr(false), StringOr(s.view, "list"),
                 StringOr(s.sortBy, "dueDate"), StringOr(s.sortDirection, "asc"),
                 s.filters.GetOr(DefaultFilters))
  }

  /**
   * `fromJSON(toJSON(p))` gives back every field, except that an empty view,
   * sort key or direction comes back as its default.
   */
  lemma SnapshotRoundTrip(p: ProjectState)
    ensures FromSnapshot(ToSnapshot(p)) == p.(view := if p.view == "" then "list" else p.view,
                                              sortBy := if p.sortBy == "" then "dueDate" else p.sortBy,
                                              sortDirection := if p.sortDirection == "" then "asc" else p.sortDirection)
    ensures p.view != "" && p.sortBy != "" && p.sortDirection != "" ==> FromSnapshot(ToSnapshot(p)) == p
  {
  }

  /** A snapshot with only id, name and creation time decodes to a freshly constructed project. */
  lemma MinimalSnapshotIsNewProject(id: string, name: string, createdAt: int)
    ensures FromSnapshot(ProjectSnapshot(id, name, None, None, createdAt, None, None, None, None, None, None))
         == NewProjectState(id, name, "", DefaultColor, createdAt)
  {
  }

  /** The id list after `addTodo(id)`: `id` is appended unless it is already there. */
  function AddedTo(ids: seq<string>, id: string): (r: seq<string>)
    ensures id in r && |r| <= |ids| + 1
    ensures NoDuplicates(ids) ==> NoDuplicates(r)
  {
    if id in ids then ids else ids + [id]
  }

  // ---------------------------------------------------------------------------
  // The Project class
  // ---------------------------------------------------------------------------

  class Project {
    const id: string
    var name: string
    var description: string
    var color: string
    const createdAt: int
    var todoIds: seq<string>
    var isDefault: bool
    var view: string
    var sortBy: string
    var sortDirection: string
    var filters: Filters

    /** Every field of the project, as a value. */
    function State(): ProjectState
      reads this`name, this`description, this`color, this`todoIds, this`isDefault
      reads this`view, this`sortBy, this`sortDirection, this`filters
    {
      ProjectState(id, name, description, color, createdAt, todoIds, isDefault, view, sortBy, sortDirection, filters)
    }

    /** `new Project(name, description, color)`, with the generated id and the clock passed in. */
    constructor (id: string, name: string, description: string, color: string, now: int)
      ensures State() == NewProjectState(id, name, description, color, now)
    {
      this.id := id;
      this.name := name;
      this.description := description;
      this.color := color;
      this.createdAt := now;
      this.todoIds := [];
      this.isDefault := false;
      this.view := "list";
      this.sortBy := "dueDate";
      this.sortDirection := "asc";
      this.filters := DefaultFilters;
    }

    /** `Project.fromJSON(json)`. */
    constructor FromJson(s: ProjectSnapshot)
      ensures State() == FromSnapshot(s)
    {
      var p := FromSnapshot(s);
      this.id := p.id;
      this.name := p.name;
      this.description := p.description;
      this.color := p.color;
      this.createdAt := p.createdAt;
      this.todoIds := p.todoIds;
      this.isDefault := p.isDefault;
      this.view := p.view;
      this.sortBy := p.sortBy;
      this.sortDirection := p.sortDirection;
      this.filters := p.filters;
    }

    /** `toJSON`: decoding it gives back the project (an empty view or sort setting comes back as its default). */
    function ToJson(): (s: ProjectSnapshot)
      reads this
      ensures view != "" && sortBy != "" && sortDirection != "" ==> FromSnapshot(s) == State()
      ensures FromSnapshot(s).todoIds == todoIds && FromSnapshot(s).filters == filters
    {
      SnapshotRoundTrip(State());
      ToSnapshot(State())
    }

    /** Appends `todoId` unless it is already listed; the list never gains a duplicate. */
    method AddTodo(todoId: string) returns (added: bool)
      modifies this`todoIds
      ensures added <==> todoId !in old(todoIds)
      ensures todoIds == AddedTo(old(todoIds), todoId)
      ensures added ==> todoIds == old(todoIds) + [todoId]
      ensures todoId in todoIds
      ensures NoDuplicates(old(todoIds)) ==> NoDuplicates(todoIds)
    {
      if todoId !in todoIds {
        todoIds := todoIds + [todoId];
        return true;
      }
      return false;
    }

    /** Removes the first occurrence of `todoId`, keeping the other ids in order. */
    method RemoveTodo(todoId: string) returns (removed: bool)
      modifies this`todoIds
      ensures removed <==> todoId in old(todoIds)
      ensures todoIds == RemoveFirst(old(todoIds), todoId)
      ensures NoDuplicates(old(todoIds)) ==> todoId !in todoIds && NoDuplicates(todoIds)
    {
      var index := IndexOf(todoIds, todoId);
      if index > -1 {
        todoIds := todoIds[..index] + todoIds[index + 1..];
        if NoDuplicates(old(todoIds)) { RemoveFirstFromDistinct(old(todoIds), todoId); }
        return true;
      }
      return false;
    }

    /** `getTodoCount`: the number of listed ids, which bounds the completed count. */
    function TodoCount(todos: OrderedMap<Task>): (n: nat)
      reads this
      ensures n == |todoIds|
      ensures CompletedCount(todoIds, todos) <= n
    {
      CompletedCountOfResolved(todoIds, todos);
      |todoIds|
    }

    /** `getCompletedCount(todoManager)`. */
    function GetCompletedCount(todos: OrderedMap<Task>): (n: nat)
      reads this
      ensures n == CountWhere(Resolve(todoIds, todos), IsCompleted())
    {
      CompletedCountOfResolved(todoIds, todos);
      CompletedCount(todoIds, todos)
    }

    /** `getFilteredTodos(todoManager)`, with the clock and collation passed in `env`. */
    function GetFilteredTodos(todos: OrderedMap<Task>, env: Env): (r: seq<Task>)
      reads this
      ensures forall t :: t in r <==> Resolves(todoIds, todos, t) && Admits(filters, env, t)
      ensures forall i, j :: 0 <= i < j < |r| ==> Comparison(r[i], r[j], sortBy, sortDirection, env.collate) <= 0.0
      ensures var kept := Select(Resolve(todoIds, todos), Admitted(filters, env));
              && |r| == |kept| && multiset(r) == multiset(kept)
              && forall v :: WithKey(r, KeyOf(sortBy, sortDirection, env.collate), v)
                          == WithKey(kept, KeyOf(sortBy, sortDirection, env.collate), v)
    {
      FilteredTasksIsSortedSelection(todoIds, filters, sortBy, sortDirection, todos, env);
      var r := FilteredTasks(todoIds, filters, sortBy, sortDirection, todos, env);
      assert forall t :: t in r <==> Resolves(todoIds, todos, t) && Admits(filters, env, t) by {
        forall t ensures t in r <==> Resolves(todoIds, todos, t) && Admits(filters, env, t) {
          FilteredTasksMembership(todoIds, filters, sortBy, sortDirection, todos, env, t);
        }
      }
      r
    }

    /** `sortTodos(todos)` with this project's sort key and direction. */
    function SortTodos(ts: seq<Task>, collate: string -> real): (r: seq<Task>)
      reads this
      ensures |r| == |ts| && multiset(r) == multiset(ts)
      ensures forall i, j :: 0 <= i < j < |r| ==> Comparison(r[i], r[j], sortBy, sortDirection, collate) <= 0.0
      ensures forall v :: WithKey(r, KeyOf(sortBy, sortDirection, collate), v) == WithKey(ts, KeyOf(sortBy, sortDirection, collate), v)
    {
      SortTasks(ts, sortBy, sortDirection, collate)
    }

    /** Writes one filter when `key` is a key of the filter object. */
    method UpdateFilter(key: string, value: FilterValue) returns (ok: bool)
      requires key == "tags" ==> value.TagList?
      requires key in {"completed", "priority", "dueDate"} ==> value.Choice?
      modifies this`filters
      ensures ok <==> key in FilterKeys
      ensures !ok ==> filters == old(filters)
      ensures key == "completed" ==> filters == old(filters).(completed := value.choice)
      ensures key == "priority" ==> filters == old(filters).(priority := value.choice)
      ensures key == "dueDate" ==> filters == old(filters).(dueDate := value.choice)
      ensures key == "tags" ==> filters == old(filters).(tags := value.tags)
    {
      if key in FilterKeys {
        if key == "completed" {
          filters := filters.(completed := value.choice);
        } else if key == "priority" {
          filters := filters.(priority := value.choice);
        } else if key == "dueDate" {
          filters := filters.(dueDate := value.choice);
        } else {
          filters := filters.(tags := value.tags);
        }
        return true;
      }
      return false;
    }

    /** Assigns the sort key and direction as given. */
    method UpdateSort(sortBy: string, direction: string)
      modifies this`sortBy, this`sortDirection
      ensures this.sortBy == sortBy && this.sortDirection == direction
    {
      this.sortBy := sortBy;
      this.sortDirection := direction;
    }
  }
}
