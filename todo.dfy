/**
 * The task entity of src/todo.js, and the task record that the rest of the
 * workspace reads.
 *
 * The `Todo` class of src/todo.js stores title, description, due date,
 * priority, a checklist, an `isDone` flag and a creation time. The workspace
 * reads further fields (`id`, `completed`, `notes`, `tags`) that this file
 * does not define; `Task` is the record with those fields that the workspace
 * stores and queries.
 */
module TodoModel {
  import opened Wrappers

  /** A checklist entry: the task object stores the entries it is given and never looks inside them. */
  type ChecklistItem(==)

  /** The object built by `new Todo(...)`; dates are integer timestamps. */
  class Todo {
    var title: string
    var description: string
    var dueDate: int
    var priority: string
    var checklist: seq<ChecklistItem>
    var isDone: bool
    var createdAt: int

    /**
     * `new Todo(title, description, dueDate, priority, checklist)` at time `now`;
     * a checklist that is not supplied defaults to the empty list.
     */
    constructor (title: string, description: string, dueDate: int, priority: string,
                 checklist: Option<seq<ChecklistItem>>, now: int)
      ensures this.title == title && this.description == description
      ensures this.dueDate == dueDate && this.priority == priority
      ensures this.checklist == if checklist.Some? then checklist.value else []
      ensures !isDone
      ensures createdAt == now
    {
      this.title := title;
      this.description := description;
      this.dueDate := dueDate;
      this.priority := priority;
      this.checklist := checklist.GetOr([]);
      this.isDone := false;
      this.createdAt := now;
    }

    /** Flips the completion flag and nothing else. */
    method ToggleCompletion()
      modifies this`isDone
      ensures isDone == !old(isDone)
    {
      isDone := !isDone;
    }
  }

  /** Toggling twice gives back the original completion flag, the other fields untouched. */
  method ToggleCompletionTwice(t: Todo)
    modifies t
    ensures t.isDone == old(t.isDone)
    ensures t.title == old(t.title) && t.description == old(t.description)
    ensures t.dueDate == old(t.dueDate) && t.priority == old(t.priority)
    ensures t.checklist == old(t.checklist) && t.createdAt == old(t.createdAt)
  {
    t.ToggleCompletion();
    t.ToggleCompletion();
  }

  /** The task record the workspace keeps in its map, under `id`. */
  datatype Task = Task(
    id: string,
    title: string,
    description: string,
    dueDate: int,
    priority: string,
    createdAt: int,
    completed: bool,
    notes: string,
    tags: seq<string>)

  /**
   * The record for a freshly constructed `Todo` registered under `id`: its
   * completion is the object's `isDone`, and it starts with no notes and no tags.
   */
  function TaskOf(id: string, t: Todo): Task
    reads t
  {
    Task(id, t.title, t.description, t.dueDate, t.priority, t.createdAt, t.isDone, "", [])
  }

  /** The fields of a task that `updateTodo` is given by its callers; absent ones are left alone. */
  datatype TaskUpdate = TaskUpdate(
    title: Option<string>,
    description: Option<string>,
    dueDate: Option<int>,
    priority: Option<string>,
    notes: Option<string>,
    tags: Option<seq<string>>)

  /** `Object.assign(todo, updates)`: each supplied field replaces the task's own. */
  function ApplyUpdate(t: Task, u: TaskUpdate): (r: Task)
    ensures r.id == t.id && r.createdAt == t.createdAt && r.completed == t.completed
    ensures r.title == u.title.GetOr(t.title) && r.description == u.description.GetOr(t.description)
    ensures r.dueDate == u.dueDate.GetOr(t.dueDate) && r.priority == u.priority.GetOr(t.priority)
    ensures r.notes == u.notes.GetOr(t.notes) && r.tags == u.tags.GetOr(t.tags)
  {
    t.(title := u.title.GetOr(t.title),
       description := u.description.GetOr(t.description),
       dueDate := u.dueDate.GetOr(t.dueDate),
       priority := u.priority.GetOr(t.priority),
       notes := u.notes.GetOr(t.notes),
       tags := u.tags.GetOr(t.tags))
  }
}
