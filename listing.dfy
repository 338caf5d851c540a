/** The order in which the list endpoint returns the store: Python's stable `sorted` under the
    key (completed, -priority weight, created_at). */
module Listing {
  import opened Tasks

  /** The sort key of one task, field for field the tuple the listing sorts by. */
  datatype SortKey = SortKey(completed: bool, negWeight: int, createdAt: int)

  function KeyOf(t: Task): SortKey
  {
    SortKey(t.completed, -(Weight(t.priority) as int), t.createdAt)
  }

  /** Python's `<=` on the key tuples: lexicographic, with False before True. */
  predicate KeyLe(a: SortKey, b: SortKey)
  {
    if a.completed != b.completed then !a.completed
    else if a.negWeight != b.negWeight then a.negWeight < b.negWeight
    else a.createdAt <= b.createdAt
  }

  /** The key comparison is a total order, so the sorted listing is well defined. */
  lemma KeyLeIsTotalOrder(a: SortKey, b: SortKey, c: SortKey)
    ensures KeyLe(a, a)
    ensures KeyLe(a, b) || KeyLe(b, a)
    ensures KeyLe(a, b) && KeyLe(b, a) ==> a == b
    ensures KeyLe(a, b) && KeyLe(b, c) ==> KeyLe(a, c)
  {
  }

  /** Each task's key is no greater than its successor's. */
  predicate Sorted(s: seq<Task>)
  {
    forall i :: 0 < i < |s| ==> KeyLe(KeyOf(s[i - 1]), KeyOf(s[i]))
  }

  /** The tasks of `s` whose key is `k`, in the order `s` holds them. */
  function Group(s: seq<Task>, k: SortKey): seq<Task>
  {
    if s == [] then []
    else (if KeyOf(s[0]) == k then [s[0]] else []) + Group(s[1..], k)
  }

  /** Put `x` in front of the first task whose key is not below its own. */
  function Insert(x: Task, s: seq<Task>): (r: seq<Task>)
    requires Sorted(s)
    ensures Sorted(r)
    ensures multiset(r) == multiset(s) + multiset{x}
    ensures r[0] == x || (|s| > 0 && r[0] == s[0])
  {
    if s == [] then [x]
    else if KeyLe(KeyOf(x), KeyOf(s[0])) then [x] + s
    else
      assert s == [s[0]] + s[1..];
      KeyLeIsTotalOrder(KeyOf(x), KeyOf(s[0]), KeyOf(x));
      [s[0]] + Insert(x, s[1..])
  }

  /** Inserting `x` adds it at the front of its own group and leaves every other group as it was. */
  lemma {:induction false} InsertGroups(x: Task, s: seq<Task>, k: SortKey)
    requires Sorted(s)
    ensures Group(Insert(x, s), k) == if KeyOf(x) == k then [x] + Group(s, k) else Group(s, k)
  {
    if s == [] {
    } else if KeyLe(KeyOf(x), KeyOf(s[0])) {
      assert ([x] + s)[1..] == s;
    } else {
      var r := Insert(x, s);
      assert r[0] == s[0] && r[1..] == Insert(x, s[1..]);
      KeyLeIsTotalOrder(KeyOf(x), KeyOf(s[0]), KeyOf(x));
      InsertGroups(x, s[1..], k);
    }
  }

  /** The listing: the store sorted by key, ties kept in insertion order. */
  function SortTasks(s: seq<Task>): (r: seq<Task>)
    ensures Sorted(r)
  {
    if s == [] then []
    else
      assert s == [s[0]] + s[1..];
      Insert(s[0], SortTasks(s[1..]))
  }

  /** The listing keeps the tasks of every key in the order the store holds them: the sort
      is stable. */
  lemma {:induction false} SortTasksIsStable(s: seq<Task>, k: SortKey)
    ensures Group(SortTasks(s), k) == Group(s, k)
  {
    if s != [] {
      SortTasksIsStable(s[1..], k);
      InsertGroups(s[0], SortTasks(s[1..]), k);
      assert s == [s[0]] + s[1..];
    }
  }

  /** The listing holds exactly the stored tasks: it is a permutation of the store. */
  lemma {:induction false} SortTasksPermutes(s: seq<Task>)
    ensures multiset(SortTasks(s)) == multiset(s)
  {
    if s != [] {
      SortTasksPermutes(s[1..]);
      assert s == [s[0]] + s[1..];
    }
  }

  /** In a sorted sequence every task's key is no greater than any later one's. */
  lemma {:induction false} SortedPairwise(s: seq<Task>, i: int, j: int)
    requires Sorted(s) && 0 <= i <= j < |s|
    ensures KeyLe(KeyOf(s[i]), KeyOf(s[j]))
  {
    if i == j {
      KeyLeIsTotalOrder(KeyOf(s[i]), KeyOf(s[i]), KeyOf(s[i]));
    } else {
      SortedPairwise(s, i, j - 1);
      KeyLeIsTotalOrder(KeyOf(s[i]), KeyOf(s[j - 1]), KeyOf(s[j]));
    }
  }

  /** What the listing order means for two listed tasks, one before the other: incomplete
      before completed, then high before medium before low, then earlier creation first. */
  lemma ListingOrder(s: seq<Task>, i: int, j: int)
    requires 0 <= i < j < |SortTasks(s)|
    ensures var r := SortTasks(s);
      && (r[i].completed ==> r[j].completed)
      && (r[i].completed == r[j].completed ==> Weight(r[i].priority) >= Weight(r[j].priority))
      && (r[i].completed == r[j].completed && r[i].priority == r[j].priority ==>
            r[i].createdAt <= r[j].createdAt)
  {
    SortedPairwise(SortTasks(s), i, j);
  }

  /** A task with key `k` in `s` puts something in the group of `k`, and a nonempty group
      comes from a task of `s` with that key. */
  lemma {:induction false} GroupMembers(s: seq<Task>, k: SortKey)
    ensures Group(s, k) != [] <==> exists j :: 0 <= j < |s| && KeyOf(s[j]) == k
  {
    if s != [] {
      GroupMembers(s[1..], k);
      if KeyOf(s[0]) != k && exists j :: 0 <= j < |s| && KeyOf(s[j]) == k {
        var j :| 0 <= j < |s| && KeyOf(s[j]) == k;
        assert KeyOf(s[1..][j - 1]) == k;
      }
    }
  }

  /** The first task of a nonempty sequence is the first member of its own group. */
  lemma GroupOfHead(s: seq<Task>)
    ensures s != [] ==> Group(s, KeyOf(s[0])) == [s[0]] + Group(s[1..], KeyOf(s[0]))
  {
  }

  /** Two sorted sequences with the same groups are the same sequence. */
  lemma {:induction false} SortedGroupsDetermine(r1: seq<Task>, r2: seq<Task>)
    requires Sorted(r1) && Sorted(r2)
    requires forall k :: Group(r1, k) == Group(r2, k)
    ensures r1 == r2
  {
    if r1 == [] || r2 == [] {
      GroupOfHead(r1);
      GroupOfHead(r2);
    } else {
      var k1, k2 := KeyOf(r1[0]), KeyOf(r2[0]);
      assert Group(r1, k1) == [r1[0]] + Group(r1[1..], k1);
      assert Group(r2, k2) == [r2[0]] + Group(r2[1..], k2);
      GroupMembers(r2, k1);
      var j2 :| 0 <= j2 < |r2| && KeyOf(r2[j2]) == k1;
      SortedPairwise(r2, 0, j2);
      GroupMembers(r1, k2);
      var j1 :| 0 <= j1 < |r1| && KeyOf(r1[j1]) == k2;
      SortedPairwise(r1, 0, j1);
      KeyLeIsTotalOrder(k1, k2, k1);
      assert r1[0] == Group(r1, k1)[0] == Group(r2, k1)[0] == r2[0];
      forall k
        ensures Group(r1[1..], k) == Group(r2[1..], k)
      {
        var h := if KeyOf(r1[0]) == k then [r1[0]] else [];
        assert Group(r1, k) == h + Group(r1[1..], k);
        assert Group(r2, k) == h + Group(r2[1..], k);
        assert Group(r1[1..], k) == Group(r1, k)[|h|..];
      }
      SortedGroupsDetermine(r1[1..], r2[1..]);
      assert r1 == [r1[0]] + r1[1..];
      assert r2 == [r2[0]] + r2[1..];
    }
  }

  /** The listing is the only sorted arrangement of the store that keeps every group of
      equal keys in insertion order; this is what a stable sort promises. */
  lemma ListingIsTheStableSort(s: seq<Task>, r: seq<Task>)
    ensures r == SortTasks(s) ==> Sorted(r) && forall k :: Group(r, k) == Group(s, k)
    ensures Sorted(r) && (forall k :: Group(r, k) == Group(s, k)) ==> r == SortTasks(s)
  {
    forall k
      ensures Group(SortTasks(s), k) == Group(s, k)
    {
      SortTasksIsStable(s, k);
    }
    if Sorted(r) && forall k :: Group(r, k) == Group(s, k) {
      SortedGroupsDetermine(r, SortTasks(s));
    }
  }

  /** Listing a task in front of others inserts it into the listing of the others. */
  lemma SortCons(x: Task, s: seq<Task>)
    ensures SortTasks([x] + s) == Insert(x, SortTasks(s))
  {
    assert ([x] + s)[1..] == s;
  }

  /** A task whose key is below that of the first listed task goes in front. */
  lemma InsertInFront(x: Task, s: seq<Task>)
    requires Sorted(s) && s != [] && KeyLe(KeyOf(x), KeyOf(s[0]))
    ensures Insert(x, s) == [x] + s
  {
  }

  /** A task whose key is above that of the first listed task goes after it. */
  lemma InsertBehind(x: Task, s: seq<Task>)
    requires Sorted(s) && s != [] && !KeyLe(KeyOf(x), KeyOf(s[0]))
    ensures Insert(x, s) == [s[0]] + Insert(x, s[1..])
  {
  }

  /** Any tasks A (incomplete, high), B (incomplete, low) and C (completed, high) are listed
      A, B, C, whether they were created in that order or the reverse one. */
  lemma ListingExample(a: Task, b: Task, c: Task)
    requires !a.completed && a.priority == High
    requires !b.completed && b.priority == Low
    requires c.completed && c.priority == High
    ensures SortTasks([a, b, c]) == [a, b, c]
    ensures SortTasks([c, b, a]) == [a, b, c]
  {
    SortCons(c, []);
    SortCons(a, []);
    assert [c] + [] == [c] && [a] + [] == [a];
    assert SortTasks([c]) == [c] && SortTasks([a]) == [a];
    SortCons(b, [c]);
    InsertInFront(b, [c]);
    SortCons(a, [b, c]);
    InsertInFront(a, [b, c]);
    assert [a] + [b, c] == [a, b, c];
    SortCons(b, [a]);
    InsertBehind(b, [a]);
    assert SortTasks([b, a]) == [a, b];
    SortCons(c, [b, a]);
    InsertBehind(c, [a, b]);
    InsertBehind(c, [b]);
    assert [a, b][1..] == [b] && [b][1..] == [];
    assert [a] + ([b] + [c]) == [a, b, c];
  }

  /** Two tasks with equal keys are listed in the order they were created. */
  lemma ListingKeepsTies(x: Task, y: Task)
    requires KeyOf(x) == KeyOf(y)
    ensures SortTasks([x, y]) == [x, y]
  {
    assert [x, y][1..] == [y] && [y][1..] == [];
    assert SortTasks([y]) == [y];
    KeyLeIsTotalOrder(KeyOf(x), KeyOf(y), KeyOf(y));
  }
}
