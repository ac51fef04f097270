/**
 * The workspace of src/appManager.js: the insertion-ordered list of projects,
 * the map from task id to task, and the id of the current project, together
 * with the rules that tie them together (the first project is the default and
 * current one, the default project cannot be deleted, deleting a project
 * deletes its tasks, deleting a task detaches it from every project) and the
 * queries over all tasks.
 *
 * Storage is not modelled: `saveToStorage` does nothing, and a stored or
 * imported document arrives already parsed, as a `Document`. Fresh ids and the
 * clock are parameters.
 */
module Workspace {
  import opened Wrappers
  import opened JsArray
  import opened JsMap
  import opened JsString
  import opened TodoModel
  import opened ProjectModel

  // ---------------------------------------------------------------------------
  // Lookups over the project list
  // ---------------------------------------------------------------------------

  /** `projects.findIndex(p => p.id === id)`: the first project with that id, or -1. */
  function IndexOfProject(ps: seq<Project>, id: string): (r: int)
    ensures -1 <= r < |ps|
    ensures r == -1 <==> forall i :: 0 <= i < |ps| ==> ps[i].id != id
    ensures 0 <= r ==> ps[r].id == id && forall j :: 0 <= j < r ==> ps[j].id != id
  {
    if ps == [] then -1
    else if ps[0].id == id then 0
    else
      var r := IndexOfProject(ps[1..], id);
      if r == -1 then -1 else r + 1
  }

  /** `projects.findIndex(p => p.isDefault)`: the first default project, or -1. */
  function FirstDefault(ps: seq<Project>): (r: int)
    reads ps`isDefault
    ensures -1 <= r < |ps|
    ensures r == -1 <==> forall i :: 0 <= i < |ps| ==> !ps[i].isDefault
    ensures 0 <= r ==> ps[r].isDefault && forall j :: 0 <= j < r ==> !ps[j].isDefault
  {
    if ps == [] then -1
    else if ps[0].isDefault then 0
    else
      var r := FirstDefault(ps[1..]);
      if r == -1 then -1 else r + 1
  }

  /** `projects.find(p => p.isDefault) || projects[0]`, as a position. */
  function FallbackIndex(ps: seq<Project>): (r: nat)
    reads ps`isDefault
    requires |ps| > 0
    ensures r < |ps|
    ensures (exists i :: 0 <= i < |ps| && ps[i].isDefault) ==>
              ps[r].isDefault && forall j :: 0 <= j < r ==> !ps[j].isDefault
    ensures (forall i :: 0 <= i < |ps| ==> !ps[i].isDefault) ==> r == 0
  {
    var d := FirstDefault(ps);
    if d >= 0 then d else 0
  }

  /** Appending a project leaves an existing default where it was. */
  lemma {:induction false} AppendKeepsFirstDefault(ps: seq<Project>, p: Project)
    ensures FirstDefault(ps) >= 0 ==> FirstDefault(ps + [p]) == FirstDefault(ps)
  {
    if ps != [] {
      assert (ps + [p])[1..] == ps[1..] + [p];
      AppendKeepsFirstDefault(ps[1..], p);
    }
  }

  /** Appending a project leaves an existing id where it was. */
  lemma {:induction false} AppendKeepsIndex(ps: seq<Project>, p: Project, id: string)
    ensures IndexOfProject(ps, id) >= 0 ==> IndexOfProject(ps + [p], id) == IndexOfProject(ps, id)
  {
    if ps != [] {
      assert (ps + [p])[1..] == ps[1..] + [p];
      AppendKeepsIndex(ps[1..], p, id);
    }
  }

  /** Taking the project at `i` out of a list of distinct objects keeps every other one. */
  lemma SpliceKeeps(ps: seq<Project>, i: nat, j: nat)
    requires i < |ps| && j < |ps| && j != i
    ensures var r := ps[..i] + ps[i + 1..]; |r| == |ps| - 1 && r[if j < i then j else j - 1] == ps[j]
  {
  }

  /** Taking a project that is not the default out of the list keeps a default project in it. */
  lemma SpliceKeepsDefault(ps: seq<Project>, i: nat)
    requires i < |ps| && !ps[i].isDefault && FirstDefault(ps) >= 0
    ensures FirstDefault(ps[..i] + ps[i + 1..]) >= 0
  {
    var d := FirstDefault(ps);
    SpliceKeeps(ps, i, d);
  }

  /** Taking out a project with another id keeps the project with `id` in the list. */
  lemma SpliceKeepsId(ps: seq<Project>, i: nat, id: string)
    requires i < |ps| && ps[i].id != id && IndexOfProject(ps, id) >= 0
    ensures IndexOfProject(ps[..i] + ps[i + 1..], id) >= 0
  {
    var c := IndexOfProject(ps, id);
    SpliceKeeps(ps, i, c);
  }

  /** `s || d` on an optional string: absent and empty are both falsy. */
  predicate Truthy(s: Option<string>) {
    s.Some? && s.value != ""
  }

  // ---------------------------------------------------------------------------
  // Documents: what is stored, exported and imported
  // ---------------------------------------------------------------------------

  /**
   * A parsed document. `projects` and `todos` are absent when the document
   * has no such field; the task records are their own serial form.
   */
  datatype Document = Document(
    projects: Option<seq<ProjectSnapshot>>,
    todos: Option<seq<Task>>,
    currentProjectId: Option<string>)

  /** Some task of `ts` has id `k`. */
  predicate HasTaskWithId(ts: seq<Task>, k: string) {
    exists i :: 0 <= i < |ts| && ts[i].id == k
  }

  /**
   * A cleared `Map` into which each task of `ts` is set under its own id, in
   * order: a later task with the same id replaces an earlier one in place.
   */
  function MapOf(ts: seq<Task>): (r: OrderedMap<Task>)
    ensures r.Valid()
    ensures forall k :: k in r.entries <==> HasTaskWithId(ts, k)
    ensures forall k :: k in r.entries ==> r.entries[k].id == k && r.entries[k] in ts
  {
    if ts == [] then Empty()
    else
      var init, t := ts[..|ts| - 1], ts[|ts| - 1];
      assert ts == init + [t];
      var r := MapOf(init).Set(t.id, t);
      assert forall k :: HasTaskWithId(ts, k) <==> HasTaskWithId(init, k) || k == t.id by {
        forall k ensures HasTaskWithId(ts, k) <==> HasTaskWithId(init, k) || k == t.id {
          if HasTaskWithId(init, k) {
            var i :| 0 <= i < |init| && init[i].id == k;
            assert ts[i] == init[i];
          }
          if HasTaskWithId(ts, k) {
            var i :| 0 <= i < |ts| && ts[i].id == k;
            if i < |init| { assert init[i] == ts[i]; }
          }
          if k == t.id { assert ts[|ts| - 1].id == k; }
        }
      }
      r
  }

  /** `MapOf` of the values of the first keys of a map, in key order, holds those keys with their values. */
  lemma {:induction false} MapOfPrefix(m: OrderedMap<Task>, ts: seq<Task>)
    requires m.Valid() && |ts| <= |m.keys|
    requires forall k :: k in m.entries ==> m.entries[k].id == k
    requires forall i :: 0 <= i < |ts| ==> ts[i] == m.entries[m.keys[i]]
    ensures MapOf(ts).keys == m.keys[..|ts|]
    ensures forall k :: k in MapOf(ts).entries ==> MapOf(ts).entries[k] == m.entries[k]
  {
    if ts != [] {
      var n := |ts|;
      var init := ts[..n - 1];
      MapOfPrefix(m, init);
      var r0 := MapOf(init);
      var k := m.keys[n - 1];
      assert ts[n - 1].id == k;
      assert k !in r0.entries by {
        assert k !in m.keys[..n - 1];
      }
      assert MapOf(ts) == r0.Set(k, ts[n - 1]);
      PrefixGrows(m.keys, n - 1);
    }
  }

  /** Setting every value of a map into a cleared map, in order, rebuilds the map, key order included. */
  lemma MapOfValues(m: OrderedMap<Task>)
    requires m.Valid()
    requires forall k :: k in m.entries ==> m.entries[k].id == k
    ensures MapOf(m.Values()) == m
  {
    var vs := m.Values();
    MapOfPrefix(m, vs);
    WholePrefix(m.keys, |m.keys|);
    SameKeysSameValues(MapOf(vs), m);
  }

  /** The project `new Project("Inbox", "Your default project for all todos", "#3B82F6")` marked default. */
  function InboxState(id: string, now: int): (s: ProjectState)
    ensures s.isDefault && s.id == id && s.todoIds == [] && s.createdAt == now
  {
    NewProjectState(id, "Inbox", "Your default project for all todos", DefaultColor, now).(isDefault := true)
  }

  /** The fields `updateProject` is given; an `isDefault` among them is discarded. */
  datatype ProjectUpdate = ProjectUpdate(
    name: Option<string>,
    description: Option<string>,
    color: Option<string>,
    isDefault: Option<bool>)

  /** `Object.assign(project, updates)` after `delete updates.isDefault`. */
  function ApplyProjectUpdate(p: ProjectState, u: ProjectUpdate): (r: ProjectState)
    ensures r.isDefault == p.isDefault && r.id == p.id && r.todoIds == p.todoIds
    ensures r.name == u.name.GetOr(p.name)
    ensures r.description == u.description.GetOr(p.description)
    ensures r.color == u.color.GetOr(p.color)
    ensures r.(name := p.name, description := p.description, color := p.color) == p
  {
    p.(name := u.name.GetOr(p.name), description := u.description.GetOr(p.description), color := u.color.GetOr(p.color))
  }

  // ---------------------------------------------------------------------------
  // Query helpers
  // ---------------------------------------------------------------------------

  /** Some tag of the list contains `term` once lower-cased (`tags.some(...)`). */
  predicate SomeTagIncludes(tags: seq<string>, term: string) {
    exists i :: 0 <= i < |tags| && Includes(ToLowerCase(tags[i]), term)
  }

  /** The test `searchTodos` applies with the lower-cased query `term`. */
  predicate Matches(term: string, t: Task) {
    || Includes(ToLowerCase(t.title), term)
    || Includes(ToLowerCase(t.description), term)
    || Includes(ToLowerCase(t.notes), term)
    || SomeTagIncludes(t.tags, term)
  }

  function SearchHit(term: string): Task -> bool { (t: Task) => Matches(term, t) }

  function CarriesTag(tag: string): Task -> bool { (t: Task) => tag in t.tags }

  /** The tags of the tasks, one list after the other. */
  function AllTags(ts: seq<Task>): seq<string> {
    if ts == [] then [] else AllTags(ts[..|ts| - 1]) + ts[|ts| - 1].tags
  }

  /** A tag occurs in the concatenated lists exactly when some task carries it. */
  lemma {:induction false} AllTagsMembership(ts: seq<Task>, tag: string)
    ensures tag in AllTags(ts) <==> exists i :: 0 <= i < |ts| && tag in ts[i].tags
  {
    if ts != [] {
      var init := ts[..|ts| - 1];
      AllTagsMembership(init, tag);
      if exists i :: 0 <= i < |init| && tag in init[i].tags {
        var i :| 0 <= i < |init| && tag in init[i].tags;
        assert ts[i] == init[i];
      }
      if exists i :: 0 <= i < |ts| && tag in ts[i].tags {
        var i :| 0 <= i < |ts| && tag in ts[i].tags;
        if i < |init| { assert init[i] == ts[i]; }
      }
    }
  }

  /** A `Set` receiving `x` after the values of `s`. */
  lemma DistinctAppend(s: seq<string>, x: string)
    ensures Distinct(s + [x]) == if x in Distinct(s) then Distinct(s) else Distinct(s) + [x]
  {
    assert (s + [x])[..|s|] == s;
  }

  /** `items.forEach(x => set.add(x))` on an insertion-ordered set `present` holding the distinct values of `seen`. */
  method AddEach(present: seq<string>, items: seq<string>, ghost seen: seq<string>) returns (r: seq<string>)
    requires present == Distinct(seen)
    ensures r == Distinct(seen + items)
  {
    r := present;
    assert seen + items[..0] == seen;
    for j := 0 to |items|
      invariant r == Distinct(seen + items[..j])
    {
      DistinctAppend(seen + items[..j], items[j]);
      PrefixStep(seen, items, j);
      if items[j] !in r {
        r := r + [items[j]];
      }
    }
    assert items[..|items|] == items;
  }

  /** A counter of `priorityCounts`: a number, or NaN once `undefined` has been incremented. */
  datatype Tally = Count(n: nat) | NotANumber

  const KnownPriorities: set<string> := {"low", "medium", "high", "critical"}

  /** `{ low: 0, medium: 0, high: 0, critical: 0 }`. */
  const InitialTally: map<string, Tally> := map["low" := Count(0), "medium" := Count(0), "high" := Count(0), "critical" := Count(0)]

  /** `priorityCounts[p]++`: a missing counter is `undefined`, and `undefined + 1` is NaN. */
  function Bump(m: map<string, Tally>, p: string): map<string, Tally> {
    m[p := if p in m && m[p].Count? then Count(m[p].n + 1) else NotANumber]
  }

  /** The counters after every task of `ts` bumped its priority. */
  function PriorityTally(ts: seq<Task>): map<string, Tally> {
    if ts == [] then InitialTally else Bump(PriorityTally(ts[..|ts| - 1]), ts[|ts| - 1].priority)
  }

  /**
   * The four known priorities count their tasks; any other priority that
   * occurs gets a NaN counter; nothing else appears.
   */
  lemma {:induction false} PriorityTallyCounts(ts: seq<Task>, p: string)
    ensures p in KnownPriorities ==> p in PriorityTally(ts) && PriorityTally(ts)[p] == Count(CountWhere(ts, HasPriority(p)))
    ensures p !in KnownPriorities ==> (p in PriorityTally(ts) <==> exists i :: 0 <= i < |ts| && ts[i].priority == p)
    ensures p !in KnownPriorities && p in PriorityTally(ts) ==> PriorityTally(ts)[p] == NotANumber
  {
    if ts != [] {
      var init := ts[..|ts| - 1];
      PriorityTallyCounts(init, p);
      if exists i :: 0 <= i < |init| && init[i].priority == p {
        var i :| 0 <= i < |init| && init[i].priority == p;
        assert ts[i] == init[i];
      }
      if exists i :: 0 <= i < |ts| && ts[i].priority == p {
        var i :| 0 <= i < |ts| && ts[i].priority == p;
        if i < |init| { assert init[i] == ts[i]; }
      }
    }
  }

  /** Every task is either completed or open. */
  lemma {:induction false} CompletedPlusOpen(ts: seq<Task>)
    ensures CountWhere(ts, IsCompleted()) + CountWhere(ts, IsOpen()) == |ts|
  {
    if ts != [] {
      CompletedPlusOpen(ts[..|ts| - 1]);
    }
  }

  /** `total > 0 ? (completed / total) * 100 : 0`: a percentage whenever the completed tasks are among the total. */
  function CompletionRate(completed: nat, total: nat): (r: real)
    ensures total == 0 ==> r == 0.0
    ensures completed <= total ==> 0.0 <= r <= 100.0
    ensures 0 < total && completed == total ==> r == 100.0
  {
    if total > 0 then
      (completed as real / total as real) * 100.0
    else 0.0
  }

  /** The object `getStats` returns. */
  datatype Stats = Stats(
    totalTodos: nat,
    completedTodos: nat,
    overdueTodos: nat,
    activeTodos: int,
    completionRate: real,
    priorityCounts: map<string, Tally>,
    totalProjects: nat)

  /** The projects of `ps` hold, in order, the states that `fromJSON` gives the snapshots of `snaps`. */
  ghost predicate Decoded(ps: seq<Project>, snaps: seq<ProjectSnapshot>)
    reads ps`name, ps`description, ps`color, ps`todoIds, ps`isDefault, ps`view, ps`sortBy, ps`sortDirection, ps`filters
  {
    |ps| == |snaps| && forall i :: 0 <= i < |ps| ==> ps[i].State() == FromSnapshot(snaps[i])
  }

  /** `snaps.map(p => Project.fromJSON(p))`: one fresh object per snapshot. */
  method ProjectsFromJson(snaps: seq<ProjectSnapshot>) returns (ps: seq<Project>)
    ensures Decoded(ps, snaps) && NoDuplicates(ps)
    ensures forall i :: 0 <= i < |ps| ==> fresh(ps[i])
  {
    ps := [];
    for i := 0 to |snaps|
      invariant |ps| == i && NoDuplicates(ps)
      invariant forall j :: 0 <= j < i ==> fresh(ps[j]) && ps[j].State() == FromSnapshot(snaps[j])
    {
      var p := new Project.FromJson(snaps[i]);
      ps := ps + [p];
    }
  }

  /** `todos.clear()` followed by `todos.set(todo.id, todo)` for each task, in order. */
  method TodosFromJson(ts: seq<Task>) returns (m: OrderedMap<Task>)
    ensures m == MapOf(ts)
  {
    m := Empty();
    for i := 0 to |ts|
      invariant m == MapOf(ts[..i])
    {
      assert ts[..i + 1][..i] == ts[..i];
      m := m.Set(ts[i].id, ts[i]);
    }
    assert ts[..|ts|] == ts;
  }

  // ---------------------------------------------------------------------------
  // The AppManager class
  // ---------------------------------------------------------------------------

  class AppManager {
    var projects: seq<Project>
    var todos: OrderedMap<Task>
    var currentProjectId: Option<string>

    /**
     * The list holds each project object once, the map is a well-formed
     * insertion-ordered map, and every task is stored under its own id.
     */
    ghost predicate Valid()
      reads this`projects, this`todos
    {
      && NoDuplicates(projects)
      && todos.Valid()
      && forall k :: k in todos.entries ==> todos.entries[k].id == k
    }

    /** No project lists a task id twice. */
    predicate ListsDistinct()
      reads this`projects, projects`todoIds
    {
      forall j :: 0 <= j < |projects| ==> NoDuplicates(projects[j].todoIds)
    }

    /** Some project is the default one. */
    predicate HasDefault()
      reads this`projects, projects`isDefault
    {
      FirstDefault(projects) >= 0
    }

    /** `currentProjectId` names a project of the list. */
    predicate CurrentExists()
      reads this`projects, this`currentProjectId
    {
      currentProjectId.Some? && IndexOfProject(projects, currentProjectId.value) >= 0
    }

    /** The cross-entity invariant: a default project exists and the current one exists. */
    predicate Healthy()
      reads this`projects, this`currentProjectId, projects`isDefault
    {
      HasDefault() && CurrentExists()
    }

    /** `getProject(id)`. */
    function GetProject(id: string): (r: Option<Project>)
      reads this`projects
      ensures r.Some? <==> exists i :: 0 <= i < |projects| && projects[i].id == id
      ensures r.Some? ==> r.value in projects && r.value.id == id
      ensures r.Some? ==> exists i :: 0 <= i < |projects| && projects[i] == r.value &&
                            forall j :: 0 <= j < i ==> projects[j].id != id
    {
      var i := IndexOfProject(projects, id);
      if i >= 0 then Some(projects[i]) else None
    }

    /** `getCurrentProject()`: absent when there is no current id or it names no project. */
    function GetCurrentProject(): (r: Option<Project>)
      reads this`projects, this`currentProjectId
      ensures r.Some? <==> CurrentExists()
      ensures r.Some? ==> r.value in projects && Some(r.value.id) == currentProjectId
      ensures r.Some? ==> exists i :: 0 <= i < |projects| && projects[i] == r.value &&
                            forall j :: 0 <= j < i ==> Some(projects[j].id) != currentProjectId
    {
      if currentProjectId.Some? then GetProject(currentProjectId.value) else None
    }

    /** `getTodo(id)`. */
    function GetTodo(id: string): (r: Option<Task>)
      reads this`projects, this`todos
      requires Valid()
      ensures r.Some? <==> id in todos.entries
      ensures r.Some? ==> r.value.id == id && r.value == todos.entries[id]
    {
      todos.Get(id)
    }

    /** The project that `createTodo` files a task under: the named one when `projectId` is truthy, else the current one. */
    function TargetIndex(projectId: Option<string>): (r: int)
      reads this`projects, this`currentProjectId
      ensures -1 <= r < |projects|
      ensures var key := if Truthy(projectId) then projectId else currentProjectId;
              && (r >= 0 <==> key.Some? && exists i :: 0 <= i < |projects| && projects[i].id == key.value)
              && (r >= 0 ==> projects[r].id == key.value && forall j :: 0 <= j < r ==> projects[j].id != key.value)
    {
      if Truthy(projectId) then IndexOfProject(projects, projectId.value)
      else if currentProjectId.Some? then IndexOfProject(projects, currentProjectId.value)
      else -1
    }

    /**
     * `new AppManager()`: load the stored document (`None` when there is none
     * or it does not parse), then create the Inbox under `freshId` if no
     * project was loaded.
     */
    constructor (stored: Option<Document>, freshId: string, now: int)
      ensures Valid() && |projects| > 0
      ensures todos == if stored.Some? && stored.value.todos.Some? then MapOf(stored.value.todos.value) else Empty()
      ensures stored.Some? && stored.value.projects.Some? && |stored.value.projects.value| > 0 ==>
                Decoded(projects, stored.value.projects.value)
      ensures !(stored.Some? && stored.value.projects.Some? && |stored.value.projects.value| > 0) ==>
                |projects| == 1 && projects[0].State() == InboxState(freshId, now) &&
                currentProjectId == Some(freshId) && Healthy()
    {
      projects := [];
      todos := Empty();
      currentProjectId := None;
      new;
      LoadFromStorage(stored);
      if |projects| == 0 {
        var inbox := CreateDefaultProject(freshId, now);
      }
    }

    /**
     * `createProject(name, description, color)` with the generated id passed
     * in; an absent description or colour takes the parameter default. The
     * first project of an empty list becomes the default and current one.
     */
    method CreateProject(id: string, name: string, description: Option<string>, color: Option<string>, now: int)
      returns (p: Project)
      requires Valid()
      modifies this
      ensures Valid() && fresh(p)
      ensures projects == old(projects) + [p]
      ensures p.State() == NewProjectState(id, name, description.GetOr(""), color.GetOr(DefaultColor), now)
                             .(isDefault := |old(projects)| == 0)
      ensures currentProjectId == if |old(projects)| == 0 then Some(id) else old(currentProjectId)
      ensures todos == old(todos)
      ensures old(Healthy()) || |old(projects)| == 0 ==> Healthy()
    {
      p := new Project(id, name, description.GetOr(""), color.GetOr(DefaultColor), now);
      if |projects| == 0 {
        p.isDefault := true;
        currentProjectId := Some(id);
      }
      projects := projects + [p];
      if |old(projects)| > 0 {
        AppendKeepsFirstDefault(old(projects), p);
        if currentProjectId.Some? {
          AppendKeepsIndex(old(projects), p, currentProjectId.value);
        }
      }
    }

    /** `createDefaultProject()`: appends the Inbox, marked default, and makes it current. */
    method CreateDefaultProject(id: string, now: int) returns (inbox: Project)
      requires Valid()
      modifies this
      ensures Valid() && fresh(inbox)
      ensures projects == old(projects) + [inbox]
      ensures inbox.State() == InboxState(id, now)
      ensures currentProjectId == Some(id) && todos == old(todos)
      ensures Healthy()
    {
      inbox := new Project(id, "Inbox", "Your default project for all todos", DefaultColor, now);
      inbox.isDefault := true;
      projects := projects + [inbox];
      currentProjectId := Some(inbox.id);
      assert projects[|projects| - 1] == inbox;
    }

    /** `setCurrentProject(id)`: succeeds exactly when a project has that id. */
    method SetCurrentProject(id: string) returns (ok: bool)
      modifies this`currentProjectId
      ensures ok <==> IndexOfProject(projects, id) >= 0
      ensures currentProjectId == if ok then Some(id) else old(currentProjectId)
      ensures ok || old(CurrentExists()) ==> CurrentExists()
    {
      if IndexOfProject(projects, id) >= 0 {
        currentProjectId := Some(id);
        return true;
      }
      return false;
    }

    /** `updateProject(id, updates)`: merges name, description and colour; the default flag never changes. */
    method UpdateProject(id: string, u: ProjectUpdate) returns (ok: bool)
      requires Valid()
      modifies projects
      ensures ok <==> IndexOfProject(projects, id) >= 0
      ensures ok ==> var i := IndexOfProject(projects, id);
                     projects[i].State() == ApplyProjectUpdate(old(projects[i].State()), u)
      ensures forall j :: 0 <= j < |projects| && (!ok || j != IndexOfProject(projects, id)) ==>
                projects[j].State() == old(projects[j].State())
    {
      var i := IndexOfProject(projects, id);
      if i >= 0 {
        var p := projects[i];
        p.name := u.name.GetOr(p.name);
        p.description := u.description.GetOr(p.description);
        p.color := u.color.GetOr(p.color);
        return true;
      }
      return false;
    }

    /**
     * `deleteTodo(id)`: every project drops the first occurrence of `id` from
     * its list, the map drops the entry, and the answer is always true.
     */
    method DeleteTodo(todoId: string) returns (ok: bool)
      requires Valid()
      modifies this`todos, projects`todoIds
      ensures Valid() && ok
      ensures todos == old(todos).Delete(todoId)
      ensures todoId !in todos.entries
      ensures forall j :: 0 <= j < |projects| ==> projects[j].todoIds == RemoveFirst(old(projects[j].todoIds), todoId)
      ensures forall j :: 0 <= j < |projects| && NoDuplicates(old(projects[j].todoIds)) ==> todoId !in projects[j].todoIds
      ensures old(ListsDistinct()) ==> ListsDistinct()
    {
      RemoveFromEveryProject(todoId);
      todos := todos.Delete(todoId);
      forall j | 0 <= j < |projects| && NoDuplicates(old(projects[j].todoIds))
        ensures todoId !in projects[j].todoIds && NoDuplicates(projects[j].todoIds)
      {
        RemoveFirstFromDistinct(old(projects[j].todoIds), todoId);
      }
      return true;
    }

    /** `projects.forEach(project => project.removeTodo(id))`: only the id lists change. */
    method RemoveFromEveryProject(todoId: string)
      requires NoDuplicates(projects)
      modifies projects`todoIds
      ensures forall j :: 0 <= j < |projects| ==> projects[j].todoIds == RemoveFirst(old(projects[j].todoIds), todoId)
    {
      for i := 0 to |projects|
        invariant forall j :: 0 <= j < i ==> projects[j].todoIds == RemoveFirst(old(projects[j].todoIds), todoId)
        invariant forall j :: i <= j < |projects| ==> projects[j].todoIds == old(projects[j].todoIds)
      {
        var p := projects[i];
        assert forall j :: 0 <= j < |projects| && j != i ==> projects[j] != p;
        var removed := p.RemoveTodo(todoId);
      }
    }

    /**
     * Takes the project at `i` (whose id is `projectId`) out of the list and,
     * when it was current, makes the first default project current.
     */
    method DetachProject(i: nat, projectId: string)
      requires Valid() && i < |projects| && projects[i].id == projectId && !projects[i].isDefault
      requires currentProjectId == Some(projectId) ==> HasDefault()
      modifies this`projects, this`currentProjectId
      ensures Valid()
      ensures projects == old(projects[..i] + projects[i + 1..])
      ensures old(currentProjectId) == Some(projectId) ==>
                FirstDefault(projects) >= 0 && currentProjectId == Some(projects[FirstDefault(projects)].id)
      ensures old(currentProjectId) != Some(projectId) ==> currentProjectId == old(currentProjectId)
      ensures old(Healthy()) ==> Healthy()
      ensures old(ListsDistinct()) ==> ListsDistinct()
    {
      var rest := projects[..i] + projects[i + 1..];
      RemoveAtKeepsDistinct(projects, i);
      if FirstDefault(projects) >= 0 {
        SpliceKeepsDefault(projects, i);
      }
      if currentProjectId == Some(projectId) {
        var nd := FirstDefault(rest);
        currentProjectId := Some(rest[nd].id);
      } else if currentProjectId.Some? && IndexOfProject(projects, currentProjectId.value) >= 0 {
        SpliceKeepsId(projects, i, currentProjectId.value);
      }
      projects := rest;
      if old(ListsDistinct()) {
        SpliceKeepsListsDistinctNow(i);
      }
    }

    /** Taking project `i` out of the list leaves the other id lists, and so their duplicate-freedom, as they were. */
    twostate lemma SpliceKeepsListsDistinctNow(i: nat)
      requires i < |old(projects)| && projects == old(projects[..i] + projects[i + 1..])
      requires forall j :: 0 <= j < |old(projects)| ==> old(projects)[j].todoIds == old(projects[j].todoIds)
      requires old(ListsDistinct())
      ensures ListsDistinct()
    {
      forall k | 0 <= k < |projects| ensures NoDuplicates(projects[k].todoIds) {
        var j := if k < i then k else k + 1;
        SpliceKeeps(old(projects), i, j);
        assert old(NoDuplicates(projects[j].todoIds));
        assert projects[k].todoIds == old(projects)[j].todoIds;
      }
    }

    /**
     * `deleteProject(id)`, as written: the cascade runs `forEach` over the
     * project's own id list while `deleteTodo` splices it, so the visited ids
     * are those of `ForEachRemovingVisited`. The project then leaves the list.
     */
    method DeleteProject(projectId: string) returns (deleted: bool)
      requires Valid()
      requires var i := IndexOfProject(projects, projectId);
               i >= 0 && !projects[i].isDefault && currentProjectId == Some(projectId) ==> HasDefault()
      modifies this, projects`todoIds
      ensures Valid()
      ensures var i := old(IndexOfProject(projects, projectId));
              deleted <==> i >= 0 && !old(projects[i].isDefault)
      ensures !deleted ==>
                projects == old(projects) && todos == old(todos) && currentProjectId == old(currentProjectId) &&
                forall j :: 0 <= j < |projects| ==> projects[j].todoIds == old(projects[j].todoIds)
      ensures deleted ==>
                var i := old(IndexOfProject(projects, projectId));
                var cascade := old(ForEachRemovingVisited(projects[i].todoIds, 0));
                && projects == old(projects[..i] + projects[i + 1..])
                && todos == old(DeleteEach(todos, cascade))
                && (forall j :: 0 <= j < |old(projects)| ==>
                      old(projects)[j].todoIds == RemoveEach(old(projects[j].todoIds), cascade))
                && (old(currentProjectId) == Some(projectId) ==>
                      FirstDefault(projects) >= 0 && currentProjectId == Some(projects[FirstDefault(projects)].id))
                && (old(currentProjectId) != Some(projectId) ==> currentProjectId == old(currentProjectId))
      ensures old(Healthy()) ==> Healthy()
      ensures old(ListsDistinct()) ==> ListsDistinct()
    {
      var i := IndexOfProject(projects, projectId);
      if i < 0 || projects[i].isDefault {
        return false;
      }
      ghost var d := FirstDefault(projects);
      CascadeAsWritten(i);
      if d >= 0 {
        assert projects[d].isDefault;
      }
      DetachProject(i, projectId);
      return true;
    }

    /**
     * `project.todoIds.forEach(id => this.deleteTodo(id))` on the live list of
     * `projects[i]`: `forEach` fixes its range up front, and each
     * `deleteTodo` splices the visited id out from under it.
     */
    method CascadeAsWritten(i: nat)
      requires Valid() && i < |projects|
      modifies this`todos, projects`todoIds
      ensures Valid()
      ensures todos == DeleteEach(old(todos), old(ForEachRemovingVisited(projects[i].todoIds, 0)))
      ensures forall j :: 0 <= j < |projects| ==>
                projects[j].todoIds == RemoveEach(old(projects[j].todoIds), old(ForEachRemovingVisited(projects[i].todoIds, 0)))
      ensures old(ListsDistinct()) ==> ListsDistinct()
    {
      var project := projects[i];
      ghost var cascade := ForEachRemovingVisited(project.todoIds, 0);
      ghost var todos0 := todos;
      ghost var ps := projects;
      ghost var lists := seq(|ps|, j requires 0 <= j < |ps| reads ps => ps[j].todoIds);
      ghost var visited: seq<string> := [];
      var len := |project.todoIds|;
      var k := 0;
      while k < len
        invariant 0 <= k <= len && |project.todoIds| <= len
        invariant Valid()
        invariant cascade == visited + ForEachRemovingVisited(project.todoIds, k)
        invariant todos == DeleteEach(todos0, visited)
        invariant forall j :: 0 <= j < |projects| ==> projects[j].todoIds == RemoveEach(lists[j], visited)
      {
        visited := CascadeVisit(i, k, visited, todos0, lists);
        k := k + 1;
      }
      assert ForEachRemovingVisited(project.todoIds, k) == [];
      assert visited + [] == visited;
      forall j | 0 <= j < |projects| && NoDuplicates(lists[j]) ensures NoDuplicates(projects[j].todoIds) {
        RemoveEachKeepsDistinct(lists[j], visited);
      }
    }

    /**
     * One call of the `forEach` callback in `deleteProject`: the value at
     * index `k` of the project's id list is deleted, and joins `visited`.
     */
    method CascadeVisit(i: nat, k: nat, ghost visited: seq<string>, ghost todos0: OrderedMap<Task>,
                        ghost lists: seq<seq<string>>) returns (ghost visited': seq<string>)
      requires Valid() && todos0.Valid() && i < |projects| && |lists| == |projects|
      requires todos == DeleteEach(todos0, visited)
      requires forall j :: 0 <= j < |projects| ==> projects[j].todoIds == RemoveEach(lists[j], visited)
      modifies this`todos, projects`todoIds
      ensures Valid()
      ensures visited + ForEachRemovingVisited(old(projects[i].todoIds), k) == visited' + ForEachRemovingVisited(projects[i].todoIds, k + 1)
      ensures todos == DeleteEach(todos0, visited')
      ensures forall j :: 0 <= j < |projects| ==> projects[j].todoIds == RemoveEach(lists[j], visited')
    {
      if k >= |projects[i].todoIds| {
        return visited;
      }
      var id := projects[i].todoIds[k];
      ghost var ids := projects[i].todoIds;
      ForEachRemovingStep(visited, ids, k);
      var ok := DeleteTodo(id);
      assert projects[i].todoIds == RemoveFirst(ids, id);
      DeleteEachSnoc(todos0, visited, id);
      forall j | 0 <= j < |projects| ensures projects[j].todoIds == RemoveEach(lists[j], visited + [id]) {
        RemoveEachSnoc(lists[j], visited, id);
      }
      visited' := visited + [id];
    }

    /**
     * `deleteProject(id)` with the cascade run over a copy of the id list, so
     * that every task the project lists is deleted.
     */
    method DeleteProjectFully(projectId: string) returns (deleted: bool)
      requires Valid()
      requires var i := IndexOfProject(projects, projectId);
               i >= 0 && !projects[i].isDefault && currentProjectId == Some(projectId) ==> HasDefault()
      modifies this, projects`todoIds
      ensures Valid()
      ensures var i := old(IndexOfProject(projects, projectId));
              deleted <==> i >= 0 && !old(projects[i].isDefault)
      ensures !deleted ==>
                projects == old(projects) && todos == old(todos) && currentProjectId == old(currentProjectId) &&
                forall j :: 0 <= j < |projects| ==> projects[j].todoIds == old(projects[j].todoIds)
      ensures deleted ==>
                var i := old(IndexOfProject(projects, projectId));
                var ids := old(projects[i].todoIds);
                && projects == old(projects[..i] + projects[i + 1..])
                && todos == old(DeleteEach(todos, ids))
                && (forall id :: id in ids ==> id !in todos.entries)
                && (forall j :: 0 <= j < |old(projects)| ==> old(projects)[j].todoIds == RemoveEach(old(projects[j].todoIds), ids))
                && (old(currentProjectId) == Some(projectId) ==>
                      FirstDefault(projects) >= 0 && currentProjectId == Some(projects[FirstDefault(projects)].id))
                && (old(currentProjectId) != Some(projectId) ==> currentProjectId == old(currentProjectId))
      ensures old(Healthy()) ==> Healthy()
      ensures old(ListsDistinct()) ==> ListsDistinct()
    {
      var i := IndexOfProject(projects, projectId);
      if i < 0 || projects[i].isDefault {
        return false;
      }
      ghost var d := FirstDefault(projects);
      DeleteEveryTodo(projects[i].todoIds);
      if d >= 0 {
        assert projects[d].isDefault;
      }
      DetachProject(i, projectId);
      return true;
    }

    /** `deleteTodo(id)` for each id of `ids`, in order. */
    method DeleteEveryTodo(ids: seq<string>)
      requires Valid()
      modifies this`todos, projects`todoIds
      ensures Valid()
      ensures todos == DeleteEach(old(todos), ids)
      ensures forall j :: 0 <= j < |projects| ==> projects[j].todoIds == RemoveEach(old(projects[j].todoIds), ids)
      ensures old(ListsDistinct()) ==> ListsDistinct()
    {
      for k := 0 to |ids|
        invariant Valid()
        invariant todos == DeleteEach(old(todos), ids[..k])
        invariant forall j :: 0 <= j < |projects| ==> projects[j].todoIds == RemoveEach(old(projects[j].todoIds), ids[..k])
        invariant old(ListsDistinct()) ==> ListsDistinct()
      {
        var ok := DeleteTodo(ids[k]);
        PrefixGrows(ids, k);
        DeleteEachSnoc(old(todos), ids[..k], ids[k]);
        forall j | 0 <= j < |projects| ensures projects[j].todoIds == RemoveEach(old(projects[j].todoIds), ids[..k + 1]) {
          RemoveEachSnoc(old(projects[j].todoIds), ids[..k], ids[k]);
        }
      }
      WholePrefix(ids, |ids|);
    }

    /**
     * `createTodo(...)` with the generated id and the clock passed in: the
     * task enters the map, and its id joins the named project (or the current
     * one when `projectId` is falsy) if that project exists.
     */
    method CreateTodo(id: string, title: string, description: string, dueDate: int, priority: string,
                      projectId: Option<string>, now: int) returns (t: Task)
      requires Valid()
      modifies this`todos, projects`todoIds
      ensures Valid()
      ensures t == Task(id, title, description, dueDate, priority, now, false, "", [])
      ensures todos == old(todos).Set(id, t)
      ensures var target := old(TargetIndex(projectId));
              target >= 0 ==> projects[target].todoIds == AddedTo(old(projects[target].todoIds), id)
      ensures var target := old(TargetIndex(projectId));
              forall j :: 0 <= j < |projects| && j != target ==> projects[j].todoIds == old(projects[j].todoIds)
      ensures old(ListsDistinct()) ==> ListsDistinct()
    {
      var target := TargetIndex(projectId);
      var todo := new Todo(title, description, dueDate, priority, None, now);
      t := TaskOf(id, todo);
      AttachTodo(target, id);
      todos := todos.Set(id, t);
    }

    /** `project.addTodo(id)` on the project at `target`, when there is one; the other projects keep their lists. */
    method AttachTodo(target: int, id: string)
      requires NoDuplicates(projects) && target < |projects|
      modifies projects`todoIds
      ensures target >= 0 ==> projects[target].todoIds == AddedTo(old(projects[target].todoIds), id)
      ensures forall j :: 0 <= j < |projects| && j != target ==> projects[j].todoIds == old(projects[j].todoIds)
    {
      if target >= 0 {
        var p := projects[target];
        assert forall j :: 0 <= j < |projects| && j != target ==> projects[j] != p;
        var added := p.AddTodo(id);
      }
    }

    /** `updateTodo(id, updates)`: merges the given fields into an existing task; its place in the map stays. */
    method UpdateTodo(todoId: string, u: TaskUpdate) returns (ok: bool)
      requires Valid()
      modifies this`todos
      ensures Valid()
      ensures ok <==> todoId in old(todos.entries)
      ensures ok ==> todos == old(todos).Set(todoId, ApplyUpdate(old(todos.entries[todoId]), u))
      ensures !ok ==> todos == old(todos)
      ensures todos.keys == old(todos.keys)
    {
      var t := GetTodo(todoId);
      if t.Some? {
        todos := todos.Set(todoId, ApplyUpdate(t.value, u));
        return true;
      }
      return false;
    }

    /**
     * `moveTodo(id, from, to)`: only when both projects and the task exist,
     * the id leaves the source project and joins the destination.
     */
    method MoveTodo(todoId: string, fromId: string, toId: string) returns (ok: bool)
      requires Valid()
      modifies projects`todoIds
      ensures ok <==> IndexOfProject(projects, fromId) >= 0 && IndexOfProject(projects, toId) >= 0 && todoId in todos.entries
      ensures !ok ==> forall j :: 0 <= j < |projects| ==> projects[j].todoIds == old(projects[j].todoIds)
      ensures ok ==> Moved(IndexOfProject(projects, fromId), IndexOfProject(projects, toId), todoId)
      ensures ok && fromId != toId ==>
                var f := IndexOfProject(projects, fromId);
                NoDuplicates(old(projects[f].todoIds)) ==> todoId !in projects[f].todoIds
      ensures old(ListsDistinct()) ==> ListsDistinct()
    {
      var f := IndexOfProject(projects, fromId);
      var t := IndexOfProject(projects, toId);
      var todo := GetTodo(todoId);
      if f >= 0 && t >= 0 && todo.Some? {
        MoveBetween(f, t, todoId);
        return true;
      }
      return false;
    }

    /**
     * The id lists after `todoId` moved from the project at `f` to the one at
     * `t`: it is removed from the first and added to the second, which is the
     * same project when `f == t`; every other list is as before.
     */
    twostate predicate Moved(f: nat, t: nat, todoId: string)
      reads this`projects, projects`todoIds
    {
      && f < |projects| && t < |projects| && projects == old(projects)
      && todoId in projects[t].todoIds
      && (f == t ==> projects[f].todoIds == AddedTo(RemoveFirst(old(projects[f].todoIds), todoId), todoId))
      && (f != t ==> projects[f].todoIds == RemoveFirst(old(projects[f].todoIds), todoId))
      && (f != t ==> projects[t].todoIds == AddedTo(old(projects[t].todoIds), todoId))
      && forall j :: 0 <= j < |projects| && j != f && j != t ==> projects[j].todoIds == old(projects[j].todoIds)
    }

    /** `fromProject.removeTodo(id); toProject.addTodo(id)`. */
    method MoveBetween(f: nat, t: nat, todoId: string)
      requires NoDuplicates(projects) && f < |projects| && t < |projects|
      modifies {projects[f], projects[t]}`todoIds
      ensures Moved(f, t, todoId)
      ensures f != t && NoDuplicates(old(projects[f].todoIds)) ==> todoId !in projects[f].todoIds
      ensures old(ListsDistinct()) ==> ListsDistinct()
    {
      var removed := projects[f].RemoveTodo(todoId);
      var added := projects[t].AddTodo(todoId);
    }

    /**
     * `searchTodos(query)`: the tasks, in map order, whose title, description,
     * notes or some tag contains the lower-cased query once lower-cased.
     */
    method SearchTodos(query: string) returns (results: seq<Task>)
      requires Valid()
      ensures results == Select(todos.Values(), SearchHit(ToLowerCase(query)))
      ensures forall t :: t in results <==> t in todos.Values() && Matches(ToLowerCase(query), t)
      ensures query == "" ==> results == todos.Values()
    {
      var values := todos.Values();
      var term := ToLowerCase(query);
      results := [];
      for i := 0 to |values|
        invariant results == Select(values[..i], SearchHit(term))
      {
        assert values[..i + 1][..i] == values[..i];
        if Matches(term, values[i]) {
          results := results + [values[i]];
        }
      }
      assert values[..|values|] == values;
      forall t ensures t in results <==> t in values && Matches(term, t) {
        SelectMembership(values, SearchHit(term), t);
      }
      if query == "" {
        forall i | 0 <= i < |values| ensures SearchHit(term)(values[i]) {
          IncludesEmpty(ToLowerCase(values[i].title));
        }
        SelectKeepsAll(values, SearchHit(term));
      }
    }

    /**
     * `getAllTags()`: each tag carried by some task, once, in the order in
     * which it is first met walking the map.
     */
    method GetAllTags() returns (tags: seq<string>)
      requires Valid()
      ensures tags == Distinct(AllTags(todos.Values()))
      ensures NoDuplicates(tags)
      ensures forall tag :: tag in tags <==> exists i :: 0 <= i < |todos.Values()| && tag in todos.Values()[i].tags
    {
      var values := todos.Values();
      tags := [];
      for i := 0 to |values|
        invariant tags == Distinct(AllTags(values[..i]))
      {
        assert values[..i + 1][..i] == values[..i];
        tags := AddEach(tags, values[i].tags, AllTags(values[..i]));
      }
      assert values[..|values|] == values;
      forall tag ensures tag in tags <==> exists i :: 0 <= i < |values| && tag in values[i].tags {
        AllTagsMembership(values, tag);
      }
    }

    /** `getTodosByTag(tag)`: the tasks carrying `tag`, in map order. */
    method GetTodosByTag(tag: string) returns (found: seq<Task>)
      requires Valid()
      ensures found == Select(todos.Values(), CarriesTag(tag))
      ensures forall t :: t in found <==> t in todos.Values() && tag in t.tags
    {
      var values := todos.Values();
      found := [];
      for i := 0 to |values|
        invariant found == Select(values[..i], CarriesTag(tag))
      {
        assert values[..i + 1][..i] == values[..i];
        if tag in values[i].tags {
          found := found + [values[i]];
        }
      }
      assert values[..|values|] == values;
      forall t ensures t in found <==> t in values && tag in t.tags {
        SelectMembership(values, CarriesTag(tag), t);
      }
    }

    /**
     * `getStats()`, with the derived overdue flag passed in: the counters
     * add up, the rate is a percentage (0 for an empty map), and the priority
     * counters count the four known priorities.
     */
    method GetStats(isOverdue: Task -> bool) returns (s: Stats)
      requires Valid()
      ensures s.totalTodos == todos.Size()
      ensures s.completedTodos == CountWhere(todos.Values(), IsCompleted())
      ensures s.overdueTodos == CountWhere(todos.Values(), isOverdue)
      ensures s.completedTodos + s.activeTodos == s.totalTodos
      ensures s.activeTodos == CountWhere(todos.Values(), IsOpen())
      ensures s.completionRate == CompletionRate(s.completedTodos, s.totalTodos) && 0.0 <= s.completionRate <= 100.0
      ensures s.priorityCounts == PriorityTally(todos.Values())
      ensures forall p :: p in KnownPriorities ==> p in s.priorityCounts && s.priorityCounts[p] == Count(CountWhere(todos.Values(), HasPriority(p)))
      ensures s.totalProjects == |projects|
    {
      var values := todos.Values();
      var total, completed, overdue := 0, 0, 0;
      var counts := InitialTally;
      for i := 0 to |values|
        invariant total == i
        invariant completed == CountWhere(values[..i], IsCompleted())
        invariant overdue == CountWhere(values[..i], isOverdue)
        invariant counts == PriorityTally(values[..i])
      {
        assert values[..i + 1][..i] == values[..i];
        total := total + 1;
        if values[i].completed {
          completed := completed + 1;
        }
        if isOverdue(values[i]) {
          overdue := overdue + 1;
        }
        counts := Bump(counts, values[i].priority);
      }
      assert values[..|values|] == values;
      CompletedPlusOpen(values);
      var rate := CompletionRate(completed, total);
      forall p | p in KnownPriorities
        ensures p in counts && counts[p] == Count(CountWhere(values, HasPriority(p)))
      {
        PriorityTallyCounts(values, p);
      }
      s := Stats(total, completed, overdue, total - completed, rate, counts, |projects|);
    }

    /**
     * `loadFromStorage()` on the parsed document (`None` when nothing is
     * stored or it does not parse): each present field replaces the state,
     * a truthy stored current id is taken, and a falsy current id falls back
     * to the first default project, or the first project.
     */
    method LoadFromStorage(stored: Option<Document>)
      requires Valid()
      modifies this
      ensures Valid()
      ensures stored.None? ==> projects == old(projects) && todos == old(todos) && currentProjectId == old(currentProjectId)
      ensures stored.Some? && stored.value.projects.Some? ==> Decoded(projects, stored.value.projects.value)
      ensures stored.Some? && stored.value.projects.None? ==> projects == old(projects)
      ensures todos == if stored.Some? && stored.value.todos.Some? then MapOf(stored.value.todos.value) else old(todos)
      ensures stored.Some? && Truthy(stored.value.currentProjectId) ==> currentProjectId == stored.value.currentProjectId
      ensures stored.Some? && !Truthy(stored.value.currentProjectId) && Truthy(old(currentProjectId)) ==>
                currentProjectId == old(currentProjectId)
      ensures stored.Some? && !Truthy(stored.value.currentProjectId) && !Truthy(old(currentProjectId)) ==>
                currentProjectId == if |projects| > 0 then Some(projects[FallbackIndex(projects)].id) else old(currentProjectId)
    {
      if stored.None? {
        return;
      }
      LoadProjects(stored.value.projects);
      LoadTodos(stored.value.todos);
      ResumeCurrent(stored.value.currentProjectId);
    }

    /** The `projects` field of a stored document, when present, replaces the list. */
    method LoadProjects(snaps: Option<seq<ProjectSnapshot>>)
      requires NoDuplicates(projects)
      modifies this`projects
      ensures NoDuplicates(projects)
      ensures snaps.Some? ==> Decoded(projects, snaps.value)
      ensures snaps.None? ==> projects == old(projects)
    {
      if snaps.Some? {
        projects := ProjectsFromJson(snaps.value);
      }
    }

    /** The `todos` field of a stored document, when present, replaces the map. */
    method LoadTodos(ts: Option<seq<Task>>)
      modifies this`todos
      ensures todos == if ts.Some? then MapOf(ts.value) else old(todos)
    {
      if ts.Some? {
        todos := TodosFromJson(ts.value);
      }
    }

    /**
     * A truthy stored current id is taken; a current id that is still falsy
     * falls back to the first default project, or the first project.
     */
    method ResumeCurrent(stored: Option<string>)
      modifies this`currentProjectId
      ensures Truthy(stored) ==> currentProjectId == stored
      ensures !Truthy(stored) && Truthy(old(currentProjectId)) ==> currentProjectId == old(currentProjectId)
      ensures !Truthy(stored) && !Truthy(old(currentProjectId)) ==>
                currentProjectId == if |projects| > 0 then Some(projects[FallbackIndex(projects)].id) else old(currentProjectId)
    {
      if Truthy(stored) {
        currentProjectId := stored;
      }
      if !Truthy(currentProjectId) && |projects| > 0 {
        var d := FallbackIndex(projects);
        currentProjectId := Some(projects[d].id);
      }
    }

    /** `clearStorage()`: the workspace is emptied and holds only a new Inbox. */
    method ClearStorage(freshId: string, now: int)
      requires Valid()
      modifies this
      ensures Valid() && Healthy()
      ensures |projects| == 1 && fresh(projects[0]) && projects[0].State() == InboxState(freshId, now)
      ensures todos == Empty() && currentProjectId == Some(freshId)
    {
      projects := [];
      todos := Empty();
      var inbox := CreateDefaultProject(freshId, now);
    }

    /** `exportData()` before serialisation: every project's snapshot and every task, in order. */
    function ExportData(): (d: Document)
      reads this, projects
      requires Valid()
      ensures d.projects.Some? && d.todos.Some? && d.currentProjectId.None?
      ensures |d.projects.value| == |projects|
      ensures forall i :: 0 <= i < |projects| ==> d.projects.value[i] == projects[i].ToJson()
      ensures MapOf(d.todos.value) == todos
    {
      MapOfValues(todos);
      var ps := projects;
      Document(Some(seq(|ps|, i reads ps requires 0 <= i < |ps| => ps[i].ToJson())), Some(todos.Values()), None)
    }

    /**
     * `importData(json)` as written, on the parsed document (`None` when it
     * does not parse). With both fields present the state is cleared and
     * refilled before the current project is chosen; when the document has no
     * project that choice throws, and the answer is false with the projects
     * gone and the tasks replaced.
     */
    method ImportData(data: Option<Document>) returns (ok: bool)
      requires Valid()
      modifies this`projects, this`todos, this`currentProjectId
      ensures Valid()
      ensures ok <==> Importable(data)
      ensures !Complete(data) ==> projects == old(projects) && todos == old(todos) && currentProjectId == old(currentProjectId)
      ensures Complete(data) ==> Decoded(projects, data.value.projects.value) && todos == MapOf(data.value.todos.value)
      ensures ok ==> currentProjectId == Some(projects[FallbackIndex(projects)].id) && CurrentExists()
      ensures !ok ==> currentProjectId == old(currentProjectId)
    {
      if !Complete(data) {
        return false;
      }
      if |data.value.projects.value| == 0 {
        // Both lists are replaced before the empty project list is noticed.
        LoadProjects(data.value.projects);
        LoadTodos(data.value.todos);
        return false;
      }
      ReplaceAll(data.value.projects.value, data.value.todos.value);
      return true;
    }

    /** `importData` that checks the document before touching the state: a refused import changes nothing. */
    method ImportDataAtomic(data: Option<Document>) returns (ok: bool)
      requires Valid()
      modifies this`projects, this`todos, this`currentProjectId
      ensures Valid()
      ensures ok <==> Importable(data)
      ensures !ok ==> projects == old(projects) && todos == old(todos) && currentProjectId == old(currentProjectId)
      ensures ok ==> Decoded(projects, data.value.projects.value) && todos == MapOf(data.value.todos.value)
      ensures ok ==> currentProjectId == Some(projects[FallbackIndex(projects)].id) && CurrentExists()
    {
      if !Importable(data) {
        return false;
      }
      ReplaceAll(data.value.projects.value, data.value.todos.value);
      return true;
    }

    /** The tasks of a document replace the map, then its projects replace the list. */
    method ReplaceAll(snaps: seq<ProjectSnapshot>, ts: seq<Task>)
      requires Valid() && |snaps| > 0
      modifies this`projects, this`todos, this`currentProjectId
      ensures Valid()
      ensures Decoded(projects, snaps) && todos == MapOf(ts)
      ensures currentProjectId == Some(projects[FallbackIndex(projects)].id) && CurrentExists()
    {
      LoadTodos(Some(ts));
      ReplaceProjects(snaps);
    }

    /** The projects of a document replace the list, and its default project becomes the current one. */
    method ReplaceProjects(snaps: seq<ProjectSnapshot>)
      requires |snaps| > 0
      modifies this`projects, this`currentProjectId
      ensures NoDuplicates(projects) && Decoded(projects, snaps)
      ensures currentProjectId == Some(projects[FallbackIndex(projects)].id) && CurrentExists()
    {
      var ps := ProjectsFromJson(snaps);
      projects := ps;
      ElectDefault();
    }

    /** `projects.find(p => p.isDefault) || projects[0]` becomes the current project. */
    method ElectDefault()
      requires |projects| > 0
      modifies this`currentProjectId
      ensures currentProjectId == Some(projects[FallbackIndex(projects)].id) && CurrentExists()
    {
      var d := FallbackIndex(projects);
      currentProjectId := Some(projects[d].id);
    }
  }

  /** The document parsed and has both a `projects` and a `todos` field. */
  predicate Complete(data: Option<Document>) {
    data.Some? && data.value.projects.Some? && data.value.todos.Some?
  }

  /** The document is complete and names at least one project. */
  predicate Importable(data: Option<Document>) {
    Complete(data) && |data.value.projects.value| > 0
  }

  /**
   * The cascade of `deleteProject` leaves every task at an odd position of a
   * duplicate-free id list exactly as present in the map as it was.
   */
  lemma CascadeSparesOddPositions(ids: seq<string>, todos: OrderedMap<Task>, i: nat)
    requires todos.Valid() && NoDuplicates(ids) && i < |ids| && i % 2 == 1
    ensures ids[i] in DeleteEach(todos, ForEachRemovingVisited(ids, 0)).entries <==> ids[i] in todos.entries
  {
    OddPositionNotVisited(ids, i);
  }

  /** A project listing "a" then "b": the cascade deletes "a" and never visits "b". */
  lemma CascadeSkipsSecondTask()
    ensures ForEachRemovingVisited(["a", "b"], 0) == ["a"]
  {
    assert RemoveFirst(["a", "b"], "a") == ["b"];
  }

  /** The cascade of `deleteProject` removes every task at an even position of a duplicate-free id list. */
  lemma CascadeRemovesEvenPositions(ids: seq<string>, todos: OrderedMap<Task>, i: nat)
    requires todos.Valid() && NoDuplicates(ids) && i < |ids| && i % 2 == 0
    ensures ids[i] !in DeleteEach(todos, ForEachRemovingVisited(ids, 0)).entries
  {
    var visited := ForEachRemovingVisited(ids, 0);
    ForEachRemovingVisitsEvenPositions(ids);
    var h := i / 2;
    assert 2 * h == i;
    assert visited[h] == ids[2 * h];
  }
}
