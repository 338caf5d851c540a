# To-do task store

A model of the in-memory task store of a small to-do web service. The service keeps one
process-wide list of task records (identifier, title, priority, completion flag, creation
stamp) and a three-entry priority table (low = 1, medium = 2, high = 3). Its handlers list the
tasks in a fixed order, create a task, update some of its fields, delete it, or toggle its
completion flag. Each handler answers with the task, a confirmation, a 400 invalid-input
error or a 404 missing-task error.

The model has five modules:

- `Wrappers` (`wrappers.dfy`): the `Option` type for request fields that may be absent.
- `Tasks` (`tasks.dfy`): the `Priority` levels, the priority table, the `Task` record, the
  linear lookup by identifier, and Python's `list.remove`.
- `Listing` (`listing.dfy`): the sort key (completed, -weight, created_at), the stable sort
  used by the list handler, and its properties. The listing is sorted. It is a permutation
  of the store. Every group of tasks with equal keys keeps insertion order. It is the only
  sequence with those properties.
- `Handlers` (`handlers.dfy`): each handler as a function from the store and the request to
  an `Outcome`, which is the new store plus the response. Lemmas about these functions state
  what the handlers promise.
- `Store` (`store.dfy`): the class `TaskStore`, whose field `tasks` is the module-level
  list. Its methods change that field in place, step by step as the handlers do. Each method
  is proved to produce the store and response that the `Handlers` function gives. Each method
  keeps the invariant that identifiers are unique.

Two behaviours of the code are kept on purpose. First, `update` writes the title before it
checks the priority, so a request with a new title and an unknown priority answers 400 and
still changes the title. Second, `update` does not check the title, so it can store an empty
one. The title is checked only on create (todo.py:54); update stores whatever title it is
sent, including an empty one (todo.py:87-88).

## Model

| member | source | states |
|---|---|---|
| `Tasks.ParsePriority` | todo.py:11-15 | A priority string is accepted exactly when it is a key of the priority table. The level it yields has that key and the table's weight. |
| `Tasks.LevelsMatchTable` | todo.py:11-15 | Every level is a table key with its own weight and parses back to itself. The weights order high above medium above low. |
| `Tasks.FindFirst` | todo.py:17-22 | The lookup yields the position of the first task with the given id. It yields nothing exactly when no task has that id. |
| `Tasks.GetTaskById` | todo.py:17-22 | The early-return loop finds the same position as `FindFirst`: the first match, or none when there is no match. |
| `Tasks.RemoveFirst` | todo.py:111 | `list.remove(x)`, called only with an `x` that is in the list, makes the list exactly one element shorter. |
| `Tasks.RemoveFirstDropsOne` | todo.py:111 | `list.remove(x)` takes exactly one copy of `x` out of the list and keeps every other element. |
| `Tasks.RemoveFoundTask` | todo.py:107-111 | Removing the task the lookup found removes exactly that position, because an earlier equal task would have matched the id first. |
| `Tasks.FindFirstKeepsPosition` | todo.py:88-96 | Writing fields of a task in place, without changing its id, leaves every lookup result unchanged. |
| `Tasks.RemoveAtKeepsUnique` | todo.py:111 | Removing one task from a store with unique ids keeps ids unique, and no remaining task has the removed id. |
| `Listing.KeyLeIsTotalOrder` | todo.py:36-40 | The comparison of sort keys is reflexive, total, antisymmetric and transitive. |
| `Listing.Insert` | todo.py:34-41 | Inserting one task into a sorted listing keeps it sorted and adds exactly that task. |
| `Listing.InsertGroups` | todo.py:34-41 | The inserted task goes in front of the tasks with its own key. Tasks with other keys stay in their order. |
| `Listing.SortTasks` | todo.py:34-41 | The listing is sorted by (completed, -weight, created_at). |
| `Listing.SortTasksPermutes` | todo.py:34-41 | The listing is a permutation of the store. |
| `Listing.SortTasksIsStable` | todo.py:34-41 | Tasks with equal keys appear in the listing in the order the store holds them. |
| `Listing.SortedPairwise` | todo.py:34-41 | In a sorted sequence, every key is at most every later key. |
| `Listing.ListingOrder` | todo.py:33-41 | Of two listed tasks, the earlier is incomplete if the later is. With equal completion, it has at least the later one's weight. With equal completion and priority, it was created no later. |
| `Listing.GroupMembers` | todo.py:36-40 | A key's group is nonempty exactly when some task has that key. |
| `Listing.SortedGroupsDetermine` | todo.py:34-41 | Two sorted sequences with the same tasks in every key group are equal. |
| `Listing.ListingIsTheStableSort` | todo.py:34-41 | A sequence is the listing of the store exactly when it is sorted and every key group is in store order, in both directions. |
| `Listing.ListingExample` | todo.py:33-41 | Tasks A (incomplete, high), B (incomplete, low) and C (completed, high) are listed A, B, C. This holds whether they were created in that order or in reverse. |
| `Listing.ListingKeepsTies` | todo.py:34-41 | Two tasks with equal keys are listed in creation order. |
| `Handlers.CreateTask` | todo.py:51-71 | A missing or empty title answers 400 and changes nothing. This check comes before the priority check. Otherwise a priority that is not a table key answers 400 and changes nothing. Otherwise exactly one task is appended with the given title, the requested priority or medium, completed false, the fresh id and the stamp. |
| `Handlers.CreateDefaultsToMedium` | todo.py:58 | A create with a title and no priority succeeds with priority medium. |
| `Handlers.CreateKeepsIdsUnique` | todo.py:63-70 | A create under a fresh id keeps ids unique. The lookup of the new id finds the appended task, and the task is in the listing. |
| `Handlers.UpdateTask` | todo.py:80-98 | An unknown id answers 404 and changes nothing. Otherwise only the found task changes, and its id and stamp never change. The title is applied if given. A bad priority then answers 400 with priority and completion untouched. Otherwise the priority and completion are applied if given, and the updated task is returned. |
| `Handlers.UpdateWritesTitleBeforeRejecting` | todo.py:87-92 | An update carrying a new title and an unknown priority answers 400 and still changes the store. |
| `Handlers.UpdateKeepsIds` | todo.py:87-96 | An update keeps every task's id at its position and keeps ids unique. |
| `Handlers.DeleteTask` | todo.py:107-112 | An unknown id answers 404 and changes nothing. Otherwise exactly the found task is removed, the others keep their order, and the store shrinks by one. |
| `Handlers.DeleteRemovesId` | todo.py:107-111 | With unique ids, a later lookup of a deleted id finds nothing, and ids stay unique. |
| `Handlers.ToggleTask` | todo.py:121-126 | An unknown id answers 404 and changes nothing. Otherwise only the found task's completion flag flips, and the toggled task is returned. |
| `Handlers.ToggleTwiceRestores` | todo.py:125 | Toggling the same id twice gives back the original store. |
| `Handlers.ToggleKeepsIds` | todo.py:125 | A toggle keeps every id at its position and keeps ids unique. |
| `Store.TaskStore.constructor` | todo.py:8 | The store starts empty. |
| `Store.TaskStore.GetTasks` | todo.py:29-42 | The list handler returns the stable sort of the stored tasks. |
| `Store.TaskStore.CreateTask` | todo.py:47-71 | Appending in place gives the store and response of `Handlers.CreateTask` and keeps ids unique. |
| `Store.TaskStore.UpdateTask` | todo.py:76-98 | The in-place writes of title, then priority, then completion give the store and response of `Handlers.UpdateTask`. This includes the early 400 after the title write. Ids stay unique. |
| `Store.TaskStore.DeleteTask` | todo.py:103-112 | `remove` of the task found gives the store and response of `Handlers.DeleteTask` and keeps ids unique. |
| `Store.TaskStore.ToggleTaskStatus` | todo.py:117-126 | Flipping the flag in place gives the store and response of `Handlers.ToggleTask` and keeps ids unique. |

## Left out

- HTTP plumbing is not modelled: Flask routing, `request.get_json`, `jsonify`, status-code tuples and the page route (todo.py:24-27). Responses are the `Response` datatype. Its constructors carry the error texts of the code.
- The `except Exception` branches that log and answer 500 are not modelled. One such case is a request without a JSON body, where `data` is `None`.
- app.py is not part of this model. It holds only application bootstrap: the Flask app, CORS, the secret key and logging.
- The identifier from `uuid.uuid4()` is a parameter `freshId`. `Store.TaskStore.CreateTask` requires that no stored task already has it.
- The creation timestamp from `datetime.now().isoformat()` is an integer parameter `now`. Ordering by this integer stands for ordering by the ISO-8601 string. The clock is not modelled.
- The colour strings of the priority table are display data and are not modelled.
- Concurrent access to the shared list is not modelled.
- Python truthiness of arbitrary JSON is not modelled. The create title is an `Option<string>`, and "empty" means `""`. A non-string title, such as a number or `null`, is outside the model. The `completed` field of an update is an `Option<bool>`, so `bool(...)` on other JSON values is not modelled.
- Request priorities are `Option<string>`, and `None` means that the request has no `priority` key. A `null` or other non-string priority is outside the model: the code answers 400 for it (for `null` in create because `data.get("priority", "medium")` yields `None`, which is not a table key), and 500 for an unhashable value such as a list. In update that 400 comes after the title has been written.
- Python's `list.remove` raises `ValueError` when the element is absent. The delete handler only removes a task it has just found, so `Tasks.RemoveFirst` requires the element to be present and that case is not modelled.
- Priority is a three-value datatype, so a task can never hold a priority outside the table. The check the code makes before writing a priority is `Tasks.ParsePriority`. The `KeyError` that the sort key would raise on a bad stored priority is unreachable and is not modelled.
- Handlers return the task as a value. In the code they return the same dict that stays in the list. The response is serialised at once, so this aliasing cannot be observed.
