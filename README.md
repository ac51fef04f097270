# doit-app workspace core, in Dafny

This project models the core of a single-user todo manager, in three parts:

- `src/todo.js`: the task object. It is created with a title, description, due date, priority and checklist, and its completion flag can be toggled.
- `src/project.js`: the project. It holds an ordered list of task ids, view, sort and filter settings, the filtered and sorted query over its tasks, and its JSON snapshot.
- `src/appManager.js`: the workspace. It holds the ordered list of projects, an insertion-ordered `Map` from task id to task, and the current project. It enforces the cross-entity rules:
  - the first project is the default and current one;
  - the default project cannot be deleted;
  - deleting a project is meant to delete its tasks (the code deletes only some of them; see "## Findings");
  - deleting a task detaches it from every project.

  It also answers search, tag and statistics queries, and loads, imports and exports documents.

The files are:

- `wrappers.dfy`: `Option`, standing for `undefined`/`null` against a value.
- `js_array.dfy`, `js_map.dfy`, `js_string.dfy`: the JavaScript built-ins the core relies on.
  - `indexOf`, `splice`, `filter` and a `Set` fed in order.
  - `forEach` over an array that its callback shrinks (section 23.1.3.15 of ECMA-262).
  - `Map` with insertion order.
  - `toLowerCase` and `includes`.
- `stable_sort.dfy`: `Array.prototype.sort`. It is stable (section 23.1.3.30 of ECMA-262), specified by key and proved sorted, a permutation, and stable.
- `todo.dfy`: the `Todo` class, and the `Task` record the workspace stores.
- `project.dfy`: the `Project` class, the query pipeline and the snapshot.
- `app_manager.dfy`: the `AppManager` class.

Classes keep the source's mutable objects: `Todo`, `Project` and `AppManager` are Dafny classes whose methods update their fields in place. Projects are shared objects held in a `seq<Project>`. The project's query pipeline (resolve, filter, sort) is a set of functions, with lemmas relating each stage to a plain filter over the tasks. The workspace queries `searchTodos`, `getAllTags`, `getTodosByTag` and `getStats` keep their loops: they are methods, each proved equal to a reference function.

Some things are passed in or left out:

- The clock, generated ids, the locale collation and the derived overdue flag are parameters.
- Storage is not modelled: `saveToStorage` does nothing.
- A stored or imported document arrives already parsed, as a `Document` value.

## Model

| member | source | states |
|---|---|---|
| TodoModel.Todo.constructor | src/todo.js:3-11 | every field takes its argument; a missing checklist is the empty list; a new todo is not done; creation time is the clock |
| TodoModel.Todo.ToggleCompletion | src/todo.js:13-15 | the completion flag is negated and no other field may change |
| TodoModel.ToggleCompletionTwice | src/todo.js:13-15 | toggling twice restores the completion flag and leaves every other field as it was |
| TodoModel.ApplyUpdate | src/appManager.js:117-125 | `Object.assign`: each supplied field replaces the task's own, and id, creation time and completion stay |
| ProjectModel.Resolve | src/project.js:50-52 | resolving ids keeps exactly the tasks some id maps to, and never yields more tasks than ids |
| ProjectModel.CompletionStep | src/project.js:54-58 | the completion step keeps a task iff it was there and is open for "active", done for "completed", anything for other values |
| ProjectModel.PriorityStep | src/project.js:60-62 | the priority step keeps a task iff it was there and "all" is set or its priority equals the filter |
| ProjectModel.DueDateStep | src/project.js:64-84 | the due-date step keeps a task iff it was there and it is due today, due between now and the end of the week, or overdue, per bucket; other values filter nothing |
| ProjectModel.TagsStep | src/project.js:86-91 | the tag step keeps a task iff it was there and the tag filter is empty or the task carries one of its tags |
| ProjectModel.ApplyFiltersMembership | src/project.js:54-91 | the staged filters keep exactly the input tasks that all four filters admit |
| ProjectModel.CompletionIsSelect | src/project.js:54-58 | the completion step is one filter over the tasks by the completion test, keeping everything for other values |
| ProjectModel.PriorityIsSelect | src/project.js:60-62 | the priority step is one filter over the tasks by the priority test, keeping everything for "all" |
| ProjectModel.DueDateIsSelect | src/project.js:64-84 | the due-date step is one filter over the tasks by the due-date test, keeping everything for "all" and unknown buckets |
| ProjectModel.TagsIsSelect | src/project.js:86-90 | the tag step is one filter over the tasks by the tag test, keeping everything for an empty tag filter |
| ProjectModel.ApplyFiltersIsSelect | src/project.js:50-90 | the four staged filters together equal a single `filter` by "every filter admits the task": same tasks, same multiplicities, same order |
| ProjectModel.PriorityRank | src/project.js:104-106 | the rank is between 0 and 4 and is 0 exactly for a priority outside critical/high/medium/low |
| ProjectModel.PriorityRanking | src/project.js:104-106 | critical outranks high, high outranks medium, medium outranks low, low outranks every unknown priority, and only critical has the top rank |
| ProjectModel.ComparisonIsKeyDifference | src/project.js:96-119 | the comparator equals the difference of a per-task key, so it is a consistent comparator for every sort key and direction |
| ProjectModel.SortTasks | src/project.js:95-120 | the sorted tasks are a permutation of the input with the same length, ordered by the comparator, and tasks the comparator ties keep their input order |
| ProjectModel.PrioritySortOrder | src/project.js:103-118 | sorting by priority with "asc" puts higher ranks first; any other direction puts lower ranks first |
| ProjectModel.CriticalTasksOrder | src/project.js:103-118 | sorting by priority with "asc" puts every critical task before every other task; any other direction puts them after |
| ProjectModel.CreatedAtSortOrder | src/project.js:108-118 | sorting by creation time with "asc" puts the newest first; any other direction puts the oldest first |
| ProjectModel.DueDateSortOrder | src/project.js:99-118 | sorting by due date or an unknown key with "asc" puts the soonest first; any other direction puts the latest first |
| ProjectModel.FilteredTasksIsSortedSelection | src/project.js:49-93 | the query result is the stable sort of the single filter of the resolved tasks by "every filter admits the task" |
| ProjectModel.FilteredTasksMembership | src/project.js:49-93 | a task is in the query result iff one of the project's ids resolves to it and every filter admits it |
| ProjectModel.CompletedCountOfResolved | src/project.js:42-47 | the completed count equals the number of completed tasks among the resolved ones, and never exceeds the id count |
| ProjectModel.SnapshotRoundTrip | src/project.js:135-167 | decoding a snapshot gives back every field, except that an empty view, sort key or direction comes back as its default |
| ProjectModel.MinimalSnapshotIsNewProject | src/project.js:151-167 | a snapshot with only id, name and creation time decodes to a freshly constructed project |
| ProjectModel.AddedTo | src/project.js:21-27 | after adding, the id is listed, the list grows by at most one, and a duplicate-free list stays duplicate-free |
| ProjectModel.Project.constructor | src/project.js:2-19 | a new project has the given fields, no tasks, is not default, list view, due-date ascending sort, every filter at "all" and no tag filter |
| ProjectModel.Project.FromJson | src/project.js:151-167 | the decoded project's state is the snapshot with the constructor's defaults for absent fields and a default for every falsy later field |
| ProjectModel.Project.ToJson | src/project.js:135-149 | decoding the snapshot gives back the project when view and sort settings are non-empty; ids and filters always come back |
| ProjectModel.Project.AddTodo | src/project.js:21-27 | returns true iff the id was absent; then it is appended, otherwise the list is unchanged; no duplicate is ever introduced |
| ProjectModel.Project.RemoveTodo | src/project.js:29-36 | returns true iff the id was listed; its first occurrence goes, the other ids keep their order, and a duplicate-free list no longer holds it |
| ProjectModel.Project.TodoCount | src/project.js:38-40 | the count is the number of listed ids and bounds the completed count |
| ProjectModel.Project.GetCompletedCount | src/project.js:42-47 | the count is the number of completed tasks among the resolved ids |
| ProjectModel.Project.GetFilteredTodos | src/project.js:49-93 | the result holds exactly the resolved tasks that every filter admits, each as often as it resolves, ordered by the project's comparator, and tasks the comparator ties keep their order in the id list |
| ProjectModel.Project.SortTodos | src/project.js:95-120 | the result is a permutation of the input (same length, same multiset) ordered by the project's sort key and direction, and tasks the comparator ties keep their input order |
| ProjectModel.Project.UpdateFilter | src/project.js:122-128 | succeeds iff the key is one of the four filter keys, writes exactly that filter, and leaves the filters alone otherwise |
| ProjectModel.Project.UpdateSort | src/project.js:130-133 | the sort key and direction become the given ones |
| JsArray.IndexOf | src/project.js:30 | the result is -1 iff the value is absent, else the position of its first occurrence |
| JsArray.RemoveFirst | src/project.js:29-36 | an absent value leaves the list alone; a present one shortens it by one |
| JsArray.RemoveFirstDropsFirstOccurrence | src/project.js:30-32 | removing cuts out exactly the first occurrence, keeping what is before and after it |
| JsArray.RemoveFirstFromDistinct | src/project.js:29-36 | on a duplicate-free list the removed value is gone and the list stays duplicate-free |
| JsArray.RemoveFirstCounts | src/project.js:29-36 | removing takes exactly one occurrence of the value out of the multiset, when there is one |
| JsArray.RemoveFirstKeepsOthers | src/project.js:29-36 | every other value keeps its membership |
| JsArray.Select | src/project.js:55 | the filtered array holds only kept values of the input, and every kept input value |
| JsArray.SelectMembership | src/project.js:55 | a value is in the filtered array iff it is in the input and the callback keeps it |
| JsArray.SelectAgree | src/project.js:54-90 | two callbacks that agree on every element filter the array alike |
| JsArray.SelectSelect | src/project.js:54-90 | filtering by one callback and then by another equals one filter by their conjunction |
| JsArray.SelectKeepsAll | src/appManager.js:151-167 | a callback that keeps every value returns the array unchanged |
| JsArray.Distinct | src/appManager.js:169-175 | the values of the `Set` are duplicate-free and are exactly the values fed in |
| JsArray.DistinctKeepsFirstSeenOrder | src/appManager.js:169-175 | the `Set`'s values come in the order of their first occurrence |
| JsArray.ForEachRemovingVisitsEvenPositions | src/appManager.js:79-81 | a `forEach` whose callback removes the visited value from a duplicate-free array visits exactly the values at even positions |
| JsArray.OddPositionNotVisited | src/appManager.js:79-81 | such a `forEach` never visits a value at an odd position |
| JsMap.OrderedMap.Set | src/appManager.js:100 | `set` stores the value under the key and appends the key only when it is new |
| JsMap.OrderedMap.Delete | src/appManager.js:132 | `delete` drops the entry and its key, keeping the order of the others |
| JsMap.OrderedMap.Values | src/appManager.js:155 | the values come in key insertion order |
| JsMap.OrderedMap.Size | src/appManager.js:194 | the size is the number of entries |
| JsArray.RemoveEachKeepsDistinct | src/appManager.js:127-135 | removing the first occurrence of each of a list of ids keeps a duplicate-free list duplicate-free |
| JsMap.DeleteEach | src/appManager.js:79-81 | after deleting a list of keys, exactly the other keys remain, with their values |
| JsString.ToLowerCase | src/appManager.js:153 | lower-casing keeps the length and maps each character through the ASCII lower-casing |
| JsString.Includes | src/appManager.js:157 | `includes` holds iff the substring occurs at some position |
| JsString.IncludesEmpty | src/appManager.js:151-167 | every string includes the empty string |
| StableSort.Sort | src/project.js:96 | the result is sorted by key, a permutation of the input, and keeps the input order among equal keys |
| StableSort.InsertIsStable | src/project.js:96 | inserting into a sorted list puts the new value after every value with its key |
| Workspace.IndexOfProject | src/appManager.js:83 | the result is -1 iff no project has the id, else the first position with it |
| Workspace.FirstDefault | src/appManager.js:88 | the result is -1 iff no project is default, else the first default position |
| Workspace.FallbackIndex | src/appManager.js:254-255 | when some project is default, the position is a default project with no default before it; when none is, it is the first project |
| Workspace.MapOf | src/appManager.js:241-247 | setting tasks by id into a cleared map gives exactly their ids, each holding a task of the list with that id |
| Workspace.MapOfValues | src/appManager.js:271-278 | re-importing a map's exported values rebuilds the same map, key order included |
| Workspace.InboxState | src/appManager.js:31-42 | the Inbox is default, has the given id and creation time, and lists no task |
| Workspace.ApplyProjectUpdate | src/appManager.js:61-73 | name, description and colour take the supplied values; everything else, the default flag included, stays |
| Workspace.AllTagsMembership | src/appManager.js:169-175 | a tag occurs in the concatenated lists iff some task carries it |
| Workspace.AddEach | src/appManager.js:172 | adding a list to the `Set` gives the distinct values of everything fed in so far |
| Workspace.PriorityTallyCounts | src/appManager.js:191-201 | the four known priorities count their tasks; another priority has a counter iff some task has it, and that counter is NaN |
| Workspace.CompletedPlusOpen | src/appManager.js:208 | completed plus open tasks make all tasks |
| Workspace.CompletionRate | src/appManager.js:209 | the rate is 0 with no tasks, a percentage between 0 and 100 otherwise, and 100 when all are complete |
| Workspace.ProjectsFromJson | src/appManager.js:238 | each snapshot becomes a distinct fresh project with the decoded state, in order |
| Workspace.TodosFromJson | src/appManager.js:242-246 | the loop builds the same map as setting each task by id into a cleared map |
| Workspace.AppManager.GetProject | src/appManager.js:44-46 | present iff some project has the id, and then it is the first listed project with that id, as `find` returns |
| Workspace.AppManager.GetCurrentProject | src/appManager.js:48-50 | present iff the current id names a listed project, and then it is the first listed project with that id |
| Workspace.AppManager.GetTodo | src/appManager.js:113-115 | present iff the id is a key of the map, and then it is the stored task |
| Workspace.AppManager.TargetIndex | src/appManager.js:102-104 | `createTodo` files under the project named by the given id when it is truthy, else by the current id: a position exists iff some project has that id, and it is the first project with it |
| Workspace.AppManager.constructor | src/appManager.js:7-16 | loads the stored document; with no stored project, the Inbox alone is created and made current |
| Workspace.AppManager.CreateProject | src/appManager.js:18-29 | the new project is appended with the default description and colour; the first project becomes default and current; a healthy workspace stays healthy |
| Workspace.AppManager.CreateDefaultProject | src/appManager.js:31-42 | the Inbox is appended as default and made current |
| Workspace.AppManager.SetCurrentProject | src/appManager.js:52-59 | succeeds iff a project has the id, and only then changes the current id |
| Workspace.AppManager.UpdateProject | src/appManager.js:61-73 | succeeds iff the project exists; only that project changes, by the merged fields, and its default flag is kept |
| Workspace.AppManager.DeleteTodo | src/appManager.js:127-135 | always true; the map drops the id, every project drops its first occurrence of it, and lists free of duplicates stay so |
| Workspace.AppManager.RemoveFromEveryProject | src/appManager.js:128-130 | every project's list drops the first occurrence of the id |
| Workspace.AppManager.DetachProject | src/appManager.js:83-90 | the project leaves the list; if it was current, the first default project becomes current; a healthy workspace stays healthy; lists free of duplicates stay so |
| Workspace.AppManager.SpliceKeepsListsDistinctNow | src/appManager.js:85 | taking a project out of the list leaves the other id lists, so their duplicate-freedom, as they were |
| Workspace.AppManager.DeleteProject | src/appManager.js:75-96 | refuses a missing or default project; otherwise deletes the tasks the live-list cascade visits and removes the project, moving the current id to the default; lists free of duplicates stay so |
| Workspace.AppManager.CascadeAsWritten | src/appManager.js:79-81 | the cascade deletes exactly the ids that `forEach` visits over the shrinking list, from the map and from every project, and lists free of duplicates stay so |
| Workspace.AppManager.DeleteProjectFully | src/appManager.js:75-96 | as `DeleteProject`, but every task the project listed is deleted from the map and from every project; lists free of duplicates stay so |
| Workspace.AppManager.CreateTodo | src/appManager.js:98-111 | the new task enters the map under its id, open with no notes or tags, and only the target project, if any, gains its id; lists free of duplicates stay so |
| Workspace.AppManager.UpdateTodo | src/appManager.js:117-125 | succeeds iff the task exists; then its merged record replaces it in place and the key order stays |
| Workspace.AppManager.MoveTodo | src/appManager.js:137-149 | succeeds iff both projects and the task exist; then the id leaves the source and joins the destination, no other list changes, and lists free of duplicates stay so |
| Workspace.AppManager.MoveBetween | src/appManager.js:143-144 | removal from the source then addition to the destination, also when they are the same project; lists free of duplicates stay so |
| Workspace.AppManager.SearchTodos | src/appManager.js:151-167 | returns, in map order, exactly the tasks whose title, description, notes or a tag contains the lower-cased query; the empty query returns every task |
| Workspace.AppManager.GetAllTags | src/appManager.js:169-175 | each tag carried by some task, once, in first-seen order, and nothing else |
| Workspace.AppManager.GetTodosByTag | src/appManager.js:177-185 | exactly the tasks carrying the tag, in map order |
| Workspace.AppManager.GetStats | src/appManager.js:187-213 | the totals count the map, completed plus active is total, the rate is a percentage, and the known priorities count their tasks |
| Workspace.AppManager.LoadFromStorage | src/appManager.js:230-262 | each present field replaces its state, a truthy stored current id is taken, and a falsy one falls back to the default or first project |
| Workspace.AppManager.LoadProjects | src/appManager.js:237-239 | a present project list replaces the projects with the decoded snapshots |
| Workspace.AppManager.LoadTodos | src/appManager.js:241-247 | a present task list replaces the map with those tasks set by id |
| Workspace.AppManager.ResumeCurrent | src/appManager.js:249-257 | a truthy stored id is taken; a still-falsy current id falls back to the default or first project |
| Workspace.AppManager.ClearStorage | src/appManager.js:264-269 | the workspace ends with no tasks and only a fresh Inbox, which is current |
| Workspace.AppManager.ExportData | src/appManager.js:271-278 | the document holds every project's snapshot in order, and tasks from which the map is rebuilt exactly |
| Workspace.AppManager.ImportData | src/appManager.js:280-306 | true iff the document has both fields and a project; a document without both fields changes nothing; with both, projects and tasks are replaced even when the answer is false |
| Workspace.AppManager.ImportDataAtomic | src/appManager.js:280-306 | true iff the document has both fields and a project; a refused import changes nothing; an accepted one replaces everything and makes the default project current |
| Workspace.AppManager.ReplaceAll | src/appManager.js:285-297 | the tasks and projects of the document replace the state, and the default or first project becomes current |
| Workspace.AppManager.ElectDefault | src/appManager.js:295-297 | the default project, or else the first, becomes current |
| Workspace.CascadeSparesOddPositions | src/appManager.js:79-81 | with a duplicate-free list, a task at an odd position survives the cascade exactly when it was present |
| Workspace.CascadeSkipsSecondTask | src/appManager.js:79-81 | a project listing "a" then "b" has only "a" visited by the cascade |
| Workspace.CascadeRemovesEvenPositions | src/appManager.js:79-81 | with a duplicate-free list, every task at an even position is deleted by the cascade |

## Left out

- Persistence: `localStorage`, `JSON.stringify`/`JSON.parse`, `console.error`, and the `lastSaved` and `exportedAt` time stamps are not modelled. `saveToStorage` (src/appManager.js:216-228) does nothing here. A stored or imported document is given already parsed, as `Document`, and `None` stands for nothing stored or text that does not parse.
- Ill-typed documents are not modelled. A document whose fields have the wrong type makes the source throw part-way; here each field is either absent or well-typed. For the same reason, removing the stored item when loading fails is not modelled.
- Fields and methods the task object does not have: src/todo.js defines no `id`, `completed`, `notes`, `tags`, `isOverdue`, `toJSON` or `fromJSON`. src/appManager.js uses them at lines 100, 158-160, 172, 195-201, 220, 244 and 291. The stored task is the `Task` record, its snapshot is the record itself, and `isOverdue` is a parameter. Priority validation, a completion time, checklist operations and time tracking are not in src/todo.js and are not modelled. A checklist entry is an opaque type, since src/todo.js only stores the list it is given.
- Workspace.AppManager.constructor: the stored current id after loading is stated only through `LoadFromStorage`, not in the constructor's own contract.
- Workspace.AppManager.DeleteProject: requires a default project whenever the deleted project is current. The source then reads `.id` of `undefined` at src/appManager.js:89 and throws. `DeleteProjectFully` has the same requirement.
- Workspace.AppManager.DeleteTodo: guarantees that the id is absent from a project's list only when that list held no duplicates. `removeTodo` drops one occurrence.
- ProjectModel.Project.UpdateFilter: requires a tag list for "tags" and a string choice for the other keys. The source stores whatever value it is given. For a key inherited by the filter object, such as `"toString"` or `"constructor"`, the source's `in` test succeeds, so it writes an own property of that name and returns true; the model returns false and leaves the filters alone.
- Workspace.AppManager.UpdateProject and Workspace.AppManager.UpdateTodo: the update object carries only the fields the user interface sends (name, description and colour; title, description, due date, priority, notes and tags). `Object.assign` of arbitrary other keys is not modelled.
- Generated ids and the clock are parameters. Freshness of ids is not required, so `createTodo` with an existing id overwrites that task in place, as `Map.set` does.
- Dates are integer timestamps. Time zones, daylight-saving shifts and invalid dates are not modelled. "Due today" compares the calendar days given by the `dayOf` parameter.
- `localeCompare` is a parameter giving each title a real-valued collation key.
- JsString.ToLowerCase: lower-cases ASCII letters only; other characters are kept as they are.
- `completionRate` is an exact real, not a binary floating-point number.
- `priorityCounts` for a priority named like an `Object.prototype` member (`"__proto__"`, `"toString"`) is not modelled. Every other unknown priority gets a NaN counter.
- ProjectModel.PriorityRank: a priority named like an `Object.prototype` member (`"toString"`, `"constructor"`, `"__proto__"`) finds an inherited, truthy value in `priorityOrder` (src/project.js:104-106), so `|| 0` keeps it and the subtraction gives NaN; the sort order of such tasks is then left to the engine. Here these priorities rank 0, like any other unknown priority.
- Sort by priority follows the code: the comparator subtracts the ranks in reverse, so direction "asc" puts the highest rank first (src/project.js:105-106, 118). The reading in which ascending means lowest priority first is not followed.
- Aliasing between tasks is not modelled: the map holds values, so a task returned by `createTodo` or a query is a copy, not the object in the map.
- src/index.js, src/page.js and src/dateUtils.js are the user interface and date formatting. They are not part of this model.

## Findings

| source | as written | input that shows it | evidently intended | confidence | as-written member | corrected member |
|---|---|---|---|---|---|---|
| src/appManager.js:79-135 | `deleteProject` runs `forEach` over the project's own `todoIds` while `deleteTodo` splices that same array, so every second task is skipped and survives with no project | a non-default project whose `todoIds` is `["a", "b"]`: only "a" is deleted, and "b" stays in the map | every task the project lists is deleted | high (not executed) | Workspace.AppManager.DeleteProject, Workspace.CascadeSkipsSecondTask, Workspace.CascadeSparesOddPositions | Workspace.AppManager.DeleteProjectFully |
| src/appManager.js:284-297 | `importData` clears and refills projects and tasks before choosing the current project. With an empty `projects` array it then throws at line 297 and returns false, leaving the workspace with no project | a document `{ "projects": [], "todos": [] }` | a refused import leaves the workspace as it was | high (not executed) | Workspace.AppManager.ImportData | Workspace.AppManager.ImportDataAtomic |
