/** The task record, the priority table and the lookup shared by every handler of the store. */
module Tasks {
  import opened Wrappers

  /** The three entries of the priority table. */
  datatype Priority = Low | Medium | High

  /** The key under which a level appears in the table, as requests spell it. */
  function Key(p: Priority): string
  {
    match p
    case Low => "low"
    case Medium => "medium"
    case High => "high"
  }

  /** The ordering weight of a level (its "value" entry in the table). */
  function Weight(p: Priority): nat
  {
    match p
    case Low => 1
    case Medium => 2
    case High => 3
  }

  /** The priority table, key to weight; the display colours are left out. */
  const PriorityLevels: map<string, nat> := map["low" := 1, "medium" := 2, "high" := 3]

  /** The priority a created task gets when the request names none. */
  const DefaultPriority: string := "medium"

  /** The membership test `priority in PRIORITY_LEVELS`, returning the level it names. */
  function ParsePriority(s: string): (r: Option<Priority>)
    ensures r.Some? <==> s in PriorityLevels
    ensures r.Some? ==> Key(r.value) == s && PriorityLevels[s] == Weight(r.value)
  {
    if s == "low" then Some(Low)
    else if s == "medium" then Some(Medium)
    else if s == "high" then Some(High)
    else None
  }

  /** Every level is a key of the table, with its own weight, and parses back to itself;
      the weights order the levels high over medium over low. */
  lemma LevelsMatchTable(p: Priority)
    ensures Key(p) in PriorityLevels && PriorityLevels[Key(p)] == Weight(p)
    ensures ParsePriority(Key(p)) == Some(p)
    ensures Weight(Low) < Weight(Medium) < Weight(High)
  {
    match p
    case Low =>
    case Medium =>
    case High =>
  }

  /** One to-do item. `createdAt` stands for the creation timestamp: an ordered stamp that
      the caller supplies in place of the wall clock. */
  datatype Task = Task(id: string, title: string, priority: Priority, completed: bool, createdAt: int)

  /** Some task in `tasks` has identifier `id`. */
  predicate HasId(tasks: seq<Task>, id: string)
  {
    exists i :: 0 <= i < |tasks| && tasks[i].id == id
  }

  /** No two tasks share an identifier. */
  predicate UniqueIds(tasks: seq<Task>)
  {
    forall i, j :: 0 <= i < j < |tasks| ==> tasks[i].id != tasks[j].id
  }

  /** The position of the first task whose identifier is `id`, if there is one. */
  function FindFirst(tasks: seq<Task>, id: string): (r: Option<nat>)
    ensures r.Some? ==> r.value < |tasks| && tasks[r.value].id == id
    ensures r.Some? ==> forall j :: 0 <= j < r.value ==> tasks[j].id != id
    ensures r.None? <==> !HasId(tasks, id)
  {
    if |tasks| == 0 then None
    else if tasks[0].id == id then Some(0)
    else match FindFirst(tasks[1..], id)
      case None => None
      case Some(k) => Some(k + 1)
  }

  /** The linear search of the store: the first task with identifier `id`, returned as its
      position in `tasks` because the handlers then change that task in place. */
  method GetTaskById(tasks: seq<Task>, id: string) returns (r: Option<nat>)
    ensures r == FindFirst(tasks, id)
  {
    for i := 0 to |tasks|
      invariant forall j :: 0 <= j < i ==> tasks[j].id != id
    {
      if tasks[i].id == id {
        return Some(i);
      }
    }
    return None;
  }

  /** Python's `list.remove(x)`: drop the first element equal to `x`. Python raises
      `ValueError` when `x` is absent; the only caller removes a task it has just found. */
  function RemoveFirst(s: seq<Task>, x: Task): (r: seq<Task>)
    requires x in s
    ensures |r| == |s| - 1
  {
    if s[0] == x then
      s[1..]
    else
      assert s == [s[0]] + s[1..];
      [s[0]] + RemoveFirst(s[1..], x)
  }

  /** `list.remove(x)` takes exactly one copy of `x` out of the list and keeps everything else. */
  lemma {:induction false} RemoveFirstDropsOne(s: seq<Task>, x: Task)
    requires x in s
    ensures multiset(RemoveFirst(s, x)) == multiset(s) - multiset{x}
  {
    assert s == [s[0]] + s[1..];
    if s[0] != x {
      RemoveFirstDropsOne(s[1..], x);
    }
  }

  /** A lookup that does not stop at the first task finds one position earlier in the rest. */
  lemma FindFirstInTail(s: seq<Task>, id: string, i: nat)
    requires FindFirst(s, id) == Some(i) && i > 0
    ensures s[0].id != id && FindFirst(s[1..], id) == Some(i - 1)
  {
  }

  /** Removing the task that the lookup found removes exactly that position: an earlier
      task equal to it would have the same identifier, and the lookup stops at the first. */
  lemma {:induction false} RemoveFoundTask(s: seq<Task>, id: string, i: nat)
    requires FindFirst(s, id) == Some(i)
    ensures RemoveFirst(s, s[i]) == s[..i] + s[i + 1..]
  {
    if i > 0 {
      var t := s[1..];
      FindFirstInTail(s, id, i);
      RemoveFoundTask(t, id, i - 1);
      assert t[i - 1] == s[i];
      calc {
        RemoveFirst(s, s[i]);
        [s[0]] + RemoveFirst(t, s[i]);
        [s[0]] + (t[..i - 1] + t[i..]);
        { assert [s[0]] + t[..i - 1] == s[..i]; assert t[i..] == s[i + 1..]; }
        s[..i] + s[i + 1..];
      }
    }
  }

  /** Replacing a task by one with the same identifier leaves every lookup where it was. */
  lemma {:induction false} FindFirstKeepsPosition(s: seq<Task>, i: nat, t: Task, id: string)
    requires i < |s| && t.id == s[i].id
    ensures FindFirst(s[i := t], id) == FindFirst(s, id)
  {
    if i > 0 {
      FindFirstKeepsPosition(s[1..], i - 1, t, id);
      assert s[i := t][1..] == s[1..][i - 1 := t];
    }
  }

  /** Dropping one position of a store with unique identifiers keeps them unique and leaves
      no task with the dropped task's identifier. */
  lemma RemoveAtKeepsUnique(s: seq<Task>, i: nat)
    requires UniqueIds(s) && i < |s|
    ensures var r := s[..i] + s[i + 1..];
      && UniqueIds(r)
      && forall j :: 0 <= j < |r| ==> r[j].id != s[i].id
  {
    var r := s[..i] + s[i + 1..];
    forall j | 0 <= j < |r|
      ensures r[j] == s[if j < i then j else j + 1]
    {
    }
  }
}
