/** The module-level task list and the handlers that change it in place. */
module Store {
  import opened Wrappers
  import opened Tasks
  import opened Listing
  import opened Handlers

  class TaskStore {
    /** The process-wide list of tasks, in insertion order. */
    var tasks: seq<Task>

    /** Identifiers are unique: every create draws a fresh one and nothing else adds tasks. */
    ghost predicate Valid()
      reads this
    {
      UniqueIds(tasks)
    }

    /** The store starts empty. */
    constructor ()
      ensures Valid() && tasks == []
    {
      tasks := [];
    }

    /** GET /api/tasks. */
    method GetTasks() returns (r: seq<Task>)
      ensures r == SortTasks(tasks)
    {
      r := SortTasks(tasks);
    }

    /** POST /api/tasks; `freshId` and `now` stand for the generated identifier and the clock. */
    method CreateTask(title: Option<string>, priority: Option<string>, freshId: string, now: int)
      returns (r: Response)
      requires Valid() && !HasId(tasks, freshId)
      modifies this
      ensures Valid()
      ensures Outcome(tasks, r) == Handlers.CreateTask(old(tasks), title, priority, freshId, now)
    {
      CreateKeepsIdsUnique(tasks, title, priority, freshId, now);
      if !TitleGiven(title) {
        return BadRequest(TitleRequired);
      }
      var level := ParsePriority(priority.GetOr(DefaultPriority));
      if level.None? {
        return BadRequest(PriorityMustBeKnown);
      }
      var task := Task(freshId, title.value, level.value, false, now);
      tasks := tasks + [task];
      r := Created(task);
    }

    /** PUT /api/tasks/<id>: writes the fields one after another into the task found. */
    method UpdateTask(id: string, patch: Patch) returns (r: Response)
      requires Valid()
      modifies this
      ensures Valid()
      ensures Outcome(tasks, r) == Handlers.UpdateTask(old(tasks), id, patch)
    {
      UpdateKeepsIds(tasks, id, patch);
      var found := GetTaskById(tasks, id);
      if found.None? {
        return NotFound(TaskNotFound);
      }
      var i := found.value;
      if patch.title.Some? {
        tasks := tasks[i := tasks[i].(title := patch.title.value)];
      }
      if patch.priority.Some? {
        var level := ParsePriority(patch.priority.value);
        if level.None? {
          return BadRequest(PriorityMustBeKnown);
        }
        tasks := tasks[i := tasks[i].(priority := level.value)];
      }
      if patch.completed.Some? {
        tasks := tasks[i := tasks[i].(completed := patch.completed.value)];
      }
      r := Ok(tasks[i]);
    }

    /** DELETE /api/tasks/<id>. */
    method DeleteTask(id: string) returns (r: Response)
      requires Valid()
      modifies this
      ensures Valid()
      ensures Outcome(tasks, r) == Handlers.DeleteTask(old(tasks), id)
    {
      DeleteRemovesId(tasks, id);
      var found := GetTaskById(tasks, id);
      if found.None? {
        return NotFound(TaskNotFound);
      }
      tasks := RemoveFirst(tasks, tasks[found.value]);
      r := Deleted(TaskDeleted);
    }

    /** PUT /api/tasks/<id>/toggle. */
    method ToggleTaskStatus(id: string) returns (r: Response)
      requires Valid()
      modifies this
      ensures Valid()
      ensures Outcome(tasks, r) == ToggleTask(old(tasks), id)
    {
      ToggleKeepsIds(tasks, id);
      var found := GetTaskById(tasks, id);
      if found.None? {
        return NotFound(TaskNotFound);
      }
      var i := found.value;
      tasks := tasks[i := tasks[i].(completed := !tasks[i].completed)];
      r := Ok(tasks[i]);
    }
  }
}
