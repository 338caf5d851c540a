/** What each request handler of the store does, as a function from the store and the request
    to the new store and the response. The class in module Store performs the same steps in
    place and is proved to agree with these functions. */
module Handlers {
  import opened Wrappers
  import opened Tasks
  import opened Listing

  const TitleRequired: string := "Title is required"
  const PriorityMustBeKnown: string := "Priority must be one of: low, medium, high"
  const TaskNotFound: string := "Task not found"
  const TaskDeleted: string := "Task deleted successfully"

  /** A handler's reply: the created task (201), the task (200), the deletion message (200),
      an invalid-input error (400) or a missing-task error (404). */
  datatype Response =
    | Created(task: Task)
    | Ok(task: Task)
    | Deleted(message: string)
    | BadRequest(error: string)
    | NotFound(error: string)

  /** The fields an update request carries; an absent field is left alone. */
  datatype Patch = Patch(title: Option<string>, priority: Option<string>, completed: Option<bool>)

  /** The store after a request, with the reply to it. */
  datatype Outcome = Outcome(tasks: seq<Task>, response: Response)

  /** A title the create handler accepts: present and not empty. */
  predicate TitleGiven(title: Option<string>)
  {
    title.Some? && title.value != ""
  }

  /** POST /api/tasks with the given title and priority; `id` and `now` stand for the fresh
      identifier and the clock reading the handler draws. */
  function CreateTask(tasks: seq<Task>, title: Option<string>, priority: Option<string>,
                      id: string, now: int): (o: Outcome)
    ensures !TitleGiven(title) ==> o == Outcome(tasks, BadRequest(TitleRequired))
    ensures TitleGiven(title) && priority.GetOr(DefaultPriority) !in PriorityLevels ==>
              o == Outcome(tasks, BadRequest(PriorityMustBeKnown))
    ensures o.response.Created? <==> TitleGiven(title) && priority.GetOr(DefaultPriority) in PriorityLevels
    ensures o.response.Created? ==>
              var t := o.response.task;
              && o.tasks == tasks + [t]
              && t.id == id && t.title == title.value && !t.completed && t.createdAt == now
              && Key(t.priority) == priority.GetOr(DefaultPriority)
  {
    if !TitleGiven(title) then Outcome(tasks, BadRequest(TitleRequired))
    else match ParsePriority(priority.GetOr(DefaultPriority))
      case None => Outcome(tasks, BadRequest(PriorityMustBeKnown))
      case Some(p) =>
        var t := Task(id, title.value, p, false, now);
        Outcome(tasks + [t], Created(t))
  }

  /** A create that names no priority files the task as medium. */
  lemma CreateDefaultsToMedium(tasks: seq<Task>, title: Option<string>, id: string, now: int)
    requires TitleGiven(title)
    ensures CreateTask(tasks, title, None, id, now).response.Created?
    ensures CreateTask(tasks, title, None, id, now).response.task.priority == Medium
  {
    LevelsMatchTable(Medium);
  }

  /** A successful create under a fresh identifier keeps identifiers unique, and the new task
      is the one a lookup of its identifier finds and is among the listed tasks. */
  lemma CreateKeepsIdsUnique(tasks: seq<Task>, title: Option<string>, priority: Option<string>,
                             id: string, now: int)
    requires UniqueIds(tasks) && !HasId(tasks, id)
    ensures var o := CreateTask(tasks, title, priority, id, now);
      && UniqueIds(o.tasks)
      && (o.response.Created? ==> FindFirst(o.tasks, id) == Some(|tasks|))
      && (o.response.Created? ==> o.response.task in SortTasks(o.tasks))
  {
    var o := CreateTask(tasks, title, priority, id, now);
    if o.response.Created? {
      assert o.tasks[|tasks|].id == id;
      SortTasksPermutes(o.tasks);
      assert multiset(SortTasks(o.tasks))[o.response.task] > 0;
    }
  }

  /** PUT /api/tasks/<id>: title first, then the priority (checked, so a bad one answers 400
      after the title is already written), then the completion flag. */
  function UpdateTask(tasks: seq<Task>, id: string, patch: Patch): (o: Outcome)
    ensures FindFirst(tasks, id).None? ==> o == Outcome(tasks, NotFound(TaskNotFound))
    ensures FindFirst(tasks, id).Some? ==>
              var i := FindFirst(tasks, id).value;
              var badPriority := patch.priority.Some? && patch.priority.value !in PriorityLevels;
              && |o.tasks| == |tasks|
              && (forall j :: 0 <= j < |tasks| && j != i ==> o.tasks[j] == tasks[j])
              && o.tasks[i].id == tasks[i].id
              && o.tasks[i].createdAt == tasks[i].createdAt
              && o.tasks[i].title == patch.title.GetOr(tasks[i].title)
              && (badPriority ==>
                    && o.response == BadRequest(PriorityMustBeKnown)
                    && o.tasks[i].priority == tasks[i].priority
                    && o.tasks[i].completed == tasks[i].completed)
              && (!badPriority ==>
                    && o.response == Ok(o.tasks[i])
                    && Key(o.tasks[i].priority) == patch.priority.GetOr(Key(tasks[i].priority))
                    && o.tasks[i].completed == patch.completed.GetOr(tasks[i].completed))
  {
    match FindFirst(tasks, id)
    case None => Outcome(tasks, NotFound(TaskNotFound))
    case Some(i) =>
      var titled := if patch.title.Some? then tasks[i].(title := patch.title.value) else tasks[i];
      if patch.priority.Some? && ParsePriority(patch.priority.value).None? then
        Outcome(tasks[i := titled], BadRequest(PriorityMustBeKnown))
      else
        var prioritized :=
          if patch.priority.Some? then titled.(priority := ParsePriority(patch.priority.value).value)
          else titled;
        var updated :=
          if patch.completed.Some? then prioritized.(completed := patch.completed.value)
          else prioritized;
        LevelsMatchTable(tasks[i].priority);
        Outcome(tasks[i := updated], Ok(updated))
  }

  /** An update that names an unknown priority still writes the title it carries; the
      response is 400 although the store has changed. */
  lemma UpdateWritesTitleBeforeRejecting(tasks: seq<Task>, id: string, title: string, priority: string)
    requires HasId(tasks, id) && priority !in PriorityLevels && title != tasks[FindFirst(tasks, id).value].title
    ensures var o := UpdateTask(tasks, id, Patch(Some(title), Some(priority), None));
      o.response.BadRequest? && o.tasks != tasks
  {
    var i := FindFirst(tasks, id).value;
    var o := UpdateTask(tasks, id, Patch(Some(title), Some(priority), None));
    assert o.tasks[i].title != tasks[i].title;
  }

  /** An update never changes which tasks are stored under which identifier. */
  lemma UpdateKeepsIds(tasks: seq<Task>, id: string, patch: Patch)
    ensures var o := UpdateTask(tasks, id, patch);
      && |o.tasks| == |tasks|
      && (forall j :: 0 <= j < |tasks| ==> o.tasks[j].id == tasks[j].id)
      && (UniqueIds(tasks) ==> UniqueIds(o.tasks))
  {
    var o := UpdateTask(tasks, id, patch);
    forall j | 0 <= j < |tasks|
      ensures o.tasks[j].id == tasks[j].id
    {
    }
  }

  /** DELETE /api/tasks/<id>: `tasks.remove` of the task the lookup found. */
  function DeleteTask(tasks: seq<Task>, id: string): (o: Outcome)
    ensures FindFirst(tasks, id).None? ==> o == Outcome(tasks, NotFound(TaskNotFound))
    ensures FindFirst(tasks, id).Some? ==>
              var i := FindFirst(tasks, id).value;
              && o.response == Deleted(TaskDeleted)
              && o.tasks == tasks[..i] + tasks[i + 1..]
              && |o.tasks| == |tasks| - 1
  {
    match FindFirst(tasks, id)
    case None => Outcome(tasks, NotFound(TaskNotFound))
    case Some(i) =>
      RemoveFoundTask(tasks, id, i);
      Outcome(RemoveFirst(tasks, tasks[i]), Deleted(TaskDeleted))
  }

  /** After a delete in a store with unique identifiers the identifier is gone and the
      identifiers stay unique. */
  lemma DeleteRemovesId(tasks: seq<Task>, id: string)
    requires UniqueIds(tasks)
    ensures var o := DeleteTask(tasks, id);
      && !HasId(o.tasks, id)
      && UniqueIds(o.tasks)
  {
    if i :| FindFirst(tasks, id) == Some(i) {
      RemoveAtKeepsUnique(tasks, i);
    }
  }

  /** PUT /api/tasks/<id>/toggle: flip the completion flag of the task found. */
  function ToggleTask(tasks: seq<Task>, id: string): (o: Outcome)
    ensures FindFirst(tasks, id).None? ==> o == Outcome(tasks, NotFound(TaskNotFound))
    ensures FindFirst(tasks, id).Some? ==>
              var i := FindFirst(tasks, id).value;
              && |o.tasks| == |tasks|
              && (forall j :: 0 <= j < |tasks| && j != i ==> o.tasks[j] == tasks[j])
              && o.tasks[i] == tasks[i].(completed := !tasks[i].completed)
              && o.response == Ok(o.tasks[i])
  {
    match FindFirst(tasks, id)
    case None => Outcome(tasks, NotFound(TaskNotFound))
    case Some(i) =>
      var toggled := tasks[i].(completed := !tasks[i].completed);
      Outcome(tasks[i := toggled], Ok(toggled))
  }

  /** Toggling the same task twice gives back the store it started from. */
  lemma ToggleTwiceRestores(tasks: seq<Task>, id: string)
    ensures ToggleTask(ToggleTask(tasks, id).tasks, id).tasks == tasks
  {
    if i :| FindFirst(tasks, id) == Some(i) {
      var once := ToggleTask(tasks, id).tasks;
      FindFirstKeepsPosition(tasks, i, once[i], id);
      assert once == tasks[i := once[i]];
    }
  }

  /** A toggle keeps every identifier where it was. */
  lemma ToggleKeepsIds(tasks: seq<Task>, id: string)
    ensures var o := ToggleTask(tasks, id);
      && |o.tasks| == |tasks|
      && (forall j :: 0 <= j < |tasks| ==> o.tasks[j].id == tasks[j].id)
      && (UniqueIds(tasks) ==> UniqueIds(o.tasks))
  {
    var o := ToggleTask(tasks, id);
    forall j | 0 <= j < |tasks|
      ensures o.tasks[j].id == tasks[j].id
    {
    }
  }
}
