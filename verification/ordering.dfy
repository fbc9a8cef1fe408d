/**
  The orderings the task list can be sorted by, and the store-side sort that
  applies one (the `.sort(sort)` of backend/routes/tasks.js).

  Where a task has no value for the sort key (no due date, a `null` priority),
  `missingLow` says whether a missing value counts as smaller than every
  present one; MongoDB's own order is `missingLow == true`. Ties keep store
  order.
 */
module Ordering {
  import opened Wrappers
  import Text
  import opened TaskSchema

  datatype SortKey = ByCreatedAt | ByPriority | ByDueDate

  /** A single-key sort object: the key and whether it is `-1` (descending). */
  datatype SortSpec = SortSpec(key: SortKey, descending: bool)

  /** A task's value under a sort key. Priorities compare as the stored strings. */
  datatype SortValue = Absent | Num(n: int) | Str(s: string)

  function KeyOf(key: SortKey, t: Task): (v: SortValue)
    ensures key == ByCreatedAt ==> v == Num(t.createdAt)
    ensures key == ByPriority ==> (v.Absent? <==> t.priority.None?)
    ensures key == ByPriority && t.priority.Some? ==> v == Str(t.priority.value)
    ensures key == ByDueDate ==> (v.Absent? <==> t.dueDate.None?)
    ensures key == ByDueDate && t.dueDate.Some? ==> v == Num(t.dueDate.value)
  {
    match key
    case ByCreatedAt => Num(t.createdAt)
    case ByPriority => if t.priority.Some? then Str(t.priority.value) else Absent
    case ByDueDate => if t.dueDate.Some? then Num(t.dueDate.value) else Absent
  }

  /** Ascending comparison of two key values; numbers come before strings. */
  predicate ValueLess(a: SortValue, b: SortValue, missingLow: bool) {
    match (a, b)
    case (Absent, Absent) => false
    case (Absent, _) => missingLow
    case (_, Absent) => !missingLow
    case (Num(x), Num(y)) => x < y
    case (Str(x), Str(y)) => Text.StrLess(x, y)
    case (Num(_), Str(_)) => true
    case (Str(_), Num(_)) => false
  }

  lemma ValueLessIrreflexive(a: SortValue, missingLow: bool)
    ensures !ValueLess(a, a, missingLow)
  {
    if a.Str? {
      Text.StrLessIrreflexive(a.s);
    }
  }

  lemma ValueLessTransitive(a: SortValue, b: SortValue, c: SortValue, missingLow: bool)
    requires ValueLess(a, b, missingLow) && ValueLess(b, c, missingLow)
    ensures ValueLess(a, c, missingLow)
  {
    if a.Str? && b.Str? && c.Str? {
      Text.StrLessTransitive(a.s, b.s, c.s);
    }
  }

  /** Two different key values are ordered one way or the other. */
  lemma ValueLessTotal(a: SortValue, b: SortValue, missingLow: bool)
    requires a != b
    ensures ValueLess(a, b, missingLow) || ValueLess(b, a, missingLow)
  {
    if a.Str? && b.Str? {
      Text.StrLessTotal(a.s, b.s);
    }
  }

  /** `a` must come strictly before `b` under the sort. */
  predicate Precedes(spec: SortSpec, missingLow: bool, a: Task, b: Task) {
    if spec.descending then ValueLess(KeyOf(spec.key, b), KeyOf(spec.key, a), missingLow)
    else ValueLess(KeyOf(spec.key, a), KeyOf(spec.key, b), missingLow)
  }

  lemma PrecedesIrreflexive(spec: SortSpec, missingLow: bool, a: Task)
    ensures !Precedes(spec, missingLow, a, a)
  {
    ValueLessIrreflexive(KeyOf(spec.key, a), missingLow);
  }

  lemma PrecedesTransitive(spec: SortSpec, missingLow: bool, a: Task, b: Task, c: Task)
    requires Precedes(spec, missingLow, a, b) && Precedes(spec, missingLow, b, c)
    ensures Precedes(spec, missingLow, a, c)
  {
    var ka, kb, kc := KeyOf(spec.key, a), KeyOf(spec.key, b), KeyOf(spec.key, c);
    if spec.descending {
      ValueLessTransitive(kc, kb, ka, missingLow);
    } else {
      ValueLessTransitive(ka, kb, kc, missingLow);
    }
  }

  /** No task is placed after one it must precede. */
  predicate Sorted(spec: SortSpec, missingLow: bool, s: seq<Task>) {
    forall i, j :: 0 <= i < j < |s| ==> !Precedes(spec, missingLow, s[j], s[i])
  }

  /** Places `x` after every task it need not precede. */
  function Insert(spec: SortSpec, missingLow: bool, x: Task, s: seq<Task>): (r: seq<Task>)
    requires Sorted(spec, missingLow, s)
    ensures Sorted(spec, missingLow, r)
    ensures multiset(r) == multiset(s) + multiset{x}
    decreases |s|
  {
    if |s| == 0 then [x]
    else if Precedes(spec, missingLow, x, s[0]) then
      InsertFront(spec, missingLow, x, s);
      [x] + s
    else
      var rest := Insert(spec, missingLow, x, s[1..]);
      InsertBehind(spec, missingLow, x, s, rest);
      assert s == [s[0]] + s[1..];
      [s[0]] + rest
  }

  lemma InsertFront(spec: SortSpec, missingLow: bool, x: Task, s: seq<Task>)
    requires Sorted(spec, missingLow, s)
    requires |s| > 0 && Precedes(spec, missingLow, x, s[0])
    ensures Sorted(spec, missingLow, [x] + s)
  {
    var r := [x] + s;
    forall i, j | 0 <= i < j < |r|
      ensures !Precedes(spec, missingLow, r[j], r[i])
    {
      if i == 0 {
        var y := r[j];
        if Precedes(spec, missingLow, y, x) {
          PrecedesTransitive(spec, missingLow, y, x, s[0]);
          if j == 1 {
            PrecedesIrreflexive(spec, missingLow, y);
          }
        }
      }
    }
  }

  lemma InsertBehind(spec: SortSpec, missingLow: bool, x: Task, s: seq<Task>, rest: seq<Task>)
    requires Sorted(spec, missingLow, s)
    requires |s| > 0 && !Precedes(spec, missingLow, x, s[0])
    requires Sorted(spec, missingLow, rest)
    requires multiset(rest) == multiset(s[1..]) + multiset{x}
    ensures Sorted(spec, missingLow, [s[0]] + rest)
  {
    var r := [s[0]] + rest;
    forall j | 1 <= j < |r|
      ensures !Precedes(spec, missingLow, r[j], s[0])
    {
      assert r[j] in multiset(rest);
      assert r[j] == x || r[j] in multiset(s[1..]);
      if r[j] != x {
        var k :| 0 <= k < |s[1..]| && s[1..][k] == r[j];
        assert s[k + 1] == r[j];
      }
    }
  }

  /** The store's sort: a stable insertion sort over the matching tasks. */
  function SortTasks(spec: SortSpec, missingLow: bool, s: seq<Task>): (r: seq<Task>)
    ensures Sorted(spec, missingLow, r)
    ensures multiset(r) == multiset(s)
    decreases |s|
  {
    if |s| == 0 then []
    else
      assert s == s[..|s| - 1] + [s[|s| - 1]];
      Insert(spec, missingLow, s[|s| - 1], SortTasks(spec, missingLow, s[..|s| - 1]))
  }

  /** Among tasks that have the key, a sorted list is in key order (non-strict),
      ascending or descending; only the placement of tasks without the key is
      left to `missingLow`. */
  lemma {:induction false} SortedKeysInOrder(spec: SortSpec, missingLow: bool, s: seq<Task>, i: int, j: int)
    requires Sorted(spec, missingLow, s)
    requires 0 <= i < j < |s|
    requires !KeyOf(spec.key, s[i]).Absent? && !KeyOf(spec.key, s[j]).Absent?
    ensures !spec.descending ==> !ValueLess(KeyOf(spec.key, s[j]), KeyOf(spec.key, s[i]), missingLow)
    ensures spec.descending ==> !ValueLess(KeyOf(spec.key, s[i]), KeyOf(spec.key, s[j]), missingLow)
  {
    assert !Precedes(spec, missingLow, s[j], s[i]);
  }

  /** Position of a priority in binary string order: High, then Low, then Med. */
  function LexicalRank(p: string): nat {
    if p == "High" then 0 else if p == "Low" then 1 else 2
  }

  /** Every selectable sort orders any two tasks whose key values differ; only
      equal keys are left to the store. */
  lemma PrecedesTotal(spec: SortSpec, missingLow: bool, a: Task, b: Task)
    requires KeyOf(spec.key, a) != KeyOf(spec.key, b)
    ensures Precedes(spec, missingLow, a, b) || Precedes(spec, missingLow, b, a)
  {
    ValueLessTotal(KeyOf(spec.key, a), KeyOf(spec.key, b), missingLow);
  }

  /** Sorting by priority compares the stored strings, so ascending order is
      High, Low, Med and descending order is Med, Low, High; it is not the
      order of importance. */
  lemma {:induction false} PrioritySortIsLexical(descending: bool, missingLow: bool, s: seq<Task>, i: int, j: int)
    requires Sorted(SortSpec(ByPriority, descending), missingLow, s)
    requires forall k :: 0 <= k < |s| ==> s[k].priority.Some? && s[k].priority.value in Priorities
    requires 0 <= i < j < |s|
    ensures !descending ==> LexicalRank(s[i].priority.value) <= LexicalRank(s[j].priority.value)
    ensures descending ==> LexicalRank(s[i].priority.value) >= LexicalRank(s[j].priority.value)
  {
    var spec := SortSpec(ByPriority, descending);
    assert !Precedes(spec, missingLow, s[j], s[i]);
    var a, b := s[i].priority.value, s[j].priority.value;
    assert Text.StrLess("High", "Low") && Text.StrLess("Low", "Med") && Text.StrLess("High", "Med");
  }
}
