/**
  The client-side task store (frontend/src/context/TaskContext.jsx) as a reducer
  over the fetched task list and the filter criteria.

  Every server call is an input: the answer the server gave, or its rejection
  with the `message` of the error response ("" when it carried none). The
  store never re-filters or re-sorts locally; it only replaces, prepends,
  replaces by identity or removes by identity.
 */
module TaskStore {
  import opened Wrappers
  import opened TaskSchema
  import Text
  import Ordering
  import TaskRoutes

  /** The filter and sort criteria; "" means "no constraint". */
  datatype Filters = Filters(
    status: string, priority: string, search: string, sortBy: string, sortOrder: string)

  /** The initial criteria, which `clearFilters` restores. */
  const InitialFilters: Filters := Filters("", "", "", "date", "desc")

  /** The argument of `updateFilters`: the keys it carries, with their values. */
  datatype FilterPatch = FilterPatch(
    status: Option<string>, priority: Option<string>, search: Option<string>,
    sortBy: Option<string>, sortOrder: Option<string>)

  const EmptyPatch: FilterPatch := FilterPatch(None, None, None, None, None)

  datatype State = State(tasks: seq<Task>, filters: Filters)

  const InitialState: State := State([], InitialFilters)

  // ---------------------------------------------------------------- filters

  /** The criteria with every key the patch carries overwritten. */
  function Merge(f: Filters, p: FilterPatch): (r: Filters)
    ensures p.status.Some? ==> r.status == p.status.value
    ensures p.status.None? ==> r.status == f.status
    ensures p.priority.Some? ==> r.priority == p.priority.value
    ensures p.priority.None? ==> r.priority == f.priority
    ensures p.search.Some? ==> r.search == p.search.value
    ensures p.search.None? ==> r.search == f.search
    ensures p.sortBy.Some? ==> r.sortBy == p.sortBy.value
    ensures p.sortBy.None? ==> r.sortBy == f.sortBy
    ensures p.sortOrder.Some? ==> r.sortOrder == p.sortOrder.value
    ensures p.sortOrder.None? ==> r.sortOrder == f.sortOrder
  {
    Filters(
      p.status.GetOr(f.status), p.priority.GetOr(f.priority), p.search.GetOr(f.search),
      p.sortBy.GetOr(f.sortBy), p.sortOrder.GetOr(f.sortOrder))
  }

  /** Two patches applied in turn: the later one wins on every key it carries. */
  function Then(p: FilterPatch, q: FilterPatch): FilterPatch {
    FilterPatch(
      if q.status.Some? then q.status else p.status,
      if q.priority.Some? then q.priority else p.priority,
      if q.search.Some? then q.search else p.search,
      if q.sortBy.Some? then q.sortBy else p.sortBy,
      if q.sortOrder.Some? then q.sortOrder else p.sortOrder)
  }

  /** Merging is associative with `Then`, idempotent, and the empty patch
      changes nothing. */
  lemma MergeLaws(f: Filters, p: FilterPatch, q: FilterPatch)
    ensures Merge(Merge(f, p), q) == Merge(f, Then(p, q))
    ensures Merge(Merge(f, p), p) == Merge(f, p)
    ensures Merge(f, EmptyPatch) == f
  {
  }

  function UpdateFilters(s: State, p: FilterPatch): (r: State)
    ensures r.tasks == s.tasks
    ensures r.filters == Merge(s.filters, p)
  {
    s.(filters := Merge(s.filters, p))
  }

  function ClearFilters(s: State): (r: State)
    ensures r.tasks == s.tasks
    ensures r.filters == InitialFilters
  {
    s.(filters := Filters("", "", "", "date", "desc"))
  }

  /** Clearing restores the initial criteria and is idempotent. */
  lemma ClearFiltersIdempotent(s: State)
    ensures ClearFilters(ClearFilters(s)) == ClearFilters(s)
    ensures ClearFilters(InitialState) == InitialState
  {
  }

  // ---------------------------------------------------------------- fetch

  /** The query parameters `fetchTasks` sends: only the non-empty criteria. */
  datatype Params = Params(
    status: Option<string>, priority: Option<string>, search: Option<string>,
    sortBy: Option<string>, sortOrder: Option<string>)

  function RequestParams(f: Filters): Params {
    Params(
      TaskRoutes.OptionalParam(f.status), TaskRoutes.OptionalParam(f.priority),
      TaskRoutes.OptionalParam(f.search), TaskRoutes.OptionalParam(f.sortBy),
      TaskRoutes.OptionalParam(f.sortOrder))
  }

  /** How the list route reads a query string: an absent parameter is "". */
  function ServerReads(p: Params): TaskRoutes.ListParams {
    TaskRoutes.ListParams(
      p.status.GetOr(""), p.priority.GetOr(""), p.search.GetOr(""),
      p.sortBy.GetOr(""), p.sortOrder.GetOr(""))
  }

  /** Leaving out the empty criteria loses nothing: the server reads exactly the
      client's criteria, so it filters on precisely the non-empty ones. */
  lemma RequestCarriesCriteria(f: Filters, owner: ObjectId, t: Task)
    ensures ServerReads(RequestParams(f)) ==
            TaskRoutes.ListParams(f.status, f.priority, f.search, f.sortBy, f.sortOrder)
    ensures RequestParams(f).status.Some? <==> f.status != ""
    ensures RequestParams(f).priority.Some? <==> f.priority != ""
    ensures RequestParams(f).search.Some? <==> f.search != ""
    ensures TaskRoutes.Visible(owner, ServerReads(RequestParams(f)), t) <==>
      && t.userId == owner
      && (f.status != "" ==> t.status == Some(f.status))
      && (f.priority != "" ==> t.priority == Some(f.priority))
      && (f.search != "" ==> Text.MatchesIgnoringCase(t.title, f.search))
  {
  }

  /** The initial criteria ask the server for newest first. */
  lemma InitialCriteriaSortNewestFirst()
    ensures var p := ServerReads(RequestParams(InitialFilters));
      TaskRoutes.SelectSort(p.sortBy, p.sortOrder) == Ordering.SortSpec(Ordering.ByCreatedAt, true)
  {
  }

  /** What `tasksAPI.getAll` produced: the response's `tasks` (possibly absent), or an error. */
  datatype FetchAnswer = Listed(tasks: Option<seq<Task>>) | FetchFailed

  /** `fetchTasks`: a wholesale replace on success, no change on failure. */
  function Fetch(s: State, a: FetchAnswer): (r: State)
    ensures r.filters == s.filters
    ensures a.FetchFailed? ==> r == s
    ensures a.Listed? && a.tasks.Some? ==> r.tasks == a.tasks.value
    ensures a.Listed? && a.tasks.None? ==> r.tasks == []
  {
    match a
    case FetchFailed => s
    case Listed(ts) => s.(tasks := ts.GetOr([]))
  }

  // ---------------------------------------------------------------- mutations

  /** What a mutating API call produced: the server's task, or an error with its message. */
  datatype Answer = Answered(task: Task) | Rejected(message: string)

  /** The `{success, task}` / `{success: false, error}` object a mutation returns. */
  datatype Outcome = Succeeded(task: Option<Task>) | Failed(error: string)

  datatype Step = Step(state: State, outcome: Outcome)

  const CreateFailed: string := "Failed to create task"
  const UpdateFailed: string := "Failed to update task"
  const DeleteFailed: string := "Failed to delete task"

  /** The error response's message when it carried a non-empty one, else the fallback. */
  function ErrorText(message: string, fallback: string): (r: string)
    ensures message != "" ==> r == message
    ensures message == "" ==> r == fallback
  {
    if message != "" then message else fallback
  }

  /** `createTask`: the server's task in front of the old list. */
  function CreateTask(s: State, a: Answer): (r: Step)
    ensures r.state.filters == s.filters
    ensures a.Rejected? ==> r == Step(s, Failed(ErrorText(a.message, CreateFailed)))
    ensures a.Answered? ==>
      && r.outcome == Succeeded(Some(a.task))
      && |r.state.tasks| == |s.tasks| + 1
      && r.state.tasks[0] == a.task
      && r.state.tasks[1..] == s.tasks
  {
    match a
    case Rejected(m) => Step(s, Failed(ErrorText(m, CreateFailed)))
    case Answered(t) => Step(s.(tasks := [t] + s.tasks), Succeeded(Some(t)))
  }

  /** Every element with this identity replaced by `t`, the others kept in place. */
  function ReplaceById(ts: seq<Task>, id: ObjectId, t: Task): (r: seq<Task>)
    ensures |r| == |ts|
    ensures forall k :: 0 <= k < |ts| && ts[k].id != id ==> r[k] == ts[k]
    ensures forall k :: 0 <= k < |ts| && ts[k].id == id ==> r[k] == t
    decreases |ts|
  {
    if |ts| == 0 then []
    else [if ts[0].id == id then t else ts[0]] + ReplaceById(ts[1..], id, t)
  }

  /** The identities of a list are pairwise different. */
  predicate DistinctIds(ts: seq<Task>) {
    forall i, j :: 0 <= i < j < |ts| ==> ts[i].id != ts[j].id
  }

  /** Replacing by identity with a task of that same identity keeps identities
      distinct. */
  lemma ReplaceKeepsDistinctIds(ts: seq<Task>, id: ObjectId, t: Task)
    requires t.id == id && DistinctIds(ts)
    ensures DistinctIds(ReplaceById(ts, id, t))
  {
    var r := ReplaceById(ts, id, t);
    forall i, j | 0 <= i < j < |r| ensures r[i].id != r[j].id {
      assert r[i].id == ts[i].id;
      assert r[j].id == ts[j].id;
    }
  }

  /** Replacing twice is replacing once, and replacing an identity that is not
      in the list changes nothing. */
  lemma ReplaceIdempotent(ts: seq<Task>, id: ObjectId, t: Task)
    requires t.id == id
    ensures ReplaceById(ReplaceById(ts, id, t), id, t) == ReplaceById(ts, id, t)
  {
    var r := ReplaceById(ts, id, t);
    var rr := ReplaceById(r, id, t);
    forall k | 0 <= k < |r| ensures rr[k] == r[k] {
      assert r[k].id == ts[k].id;
    }
  }

  lemma ReplaceAbsentId(ts: seq<Task>, id: ObjectId, t: Task)
    requires forall k :: 0 <= k < |ts| ==> ts[k].id != id
    ensures ReplaceById(ts, id, t) == ts
  {
    var r := ReplaceById(ts, id, t);
    assert forall k :: 0 <= k < |ts| ==> r[k] == ts[k];
  }

  /** `updateTask`: every element with that identity becomes the server's task. */
  function UpdateTask(s: State, id: ObjectId, a: Answer): (r: Step)
    ensures r.state.filters == s.filters
    ensures a.Rejected? ==> r == Step(s, Failed(ErrorText(a.message, UpdateFailed)))
    ensures a.Answered? ==>
      && r.outcome == Succeeded(Some(a.task))
      && |r.state.tasks| == |s.tasks|
      && forall k :: 0 <= k < |s.tasks| ==>
           r.state.tasks[k] == (if s.tasks[k].id == id then a.task else s.tasks[k])
  {
    match a
    case Rejected(m) => Step(s, Failed(ErrorText(m, UpdateFailed)))
    case Answered(t) => Step(s.(tasks := ReplaceById(s.tasks, id, t)), Succeeded(Some(t)))
  }

  /** `r` is `s` with some elements left out, the rest in their order. */
  predicate SubsequenceOf(r: seq<Task>, s: seq<Task>)
    decreases |s|
  {
    if |s| == 0 then |r| == 0
    else
      || (|r| > 0 && r[|r| - 1] == s[|s| - 1] && SubsequenceOf(r[..|r| - 1], s[..|s| - 1]))
      || SubsequenceOf(r, s[..|s| - 1])
  }

  /** The list without the elements of this identity. */
  function RemoveById(ts: seq<Task>, id: ObjectId): (r: seq<Task>)
    ensures forall k :: 0 <= k < |r| ==> r[k].id != id
    ensures |r| <= |ts|
    decreases |ts|
  {
    if |ts| == 0 then []
    else
      var rest := RemoveById(ts[..|ts| - 1], id);
      var last := ts[|ts| - 1];
      if last.id == id then rest else rest + [last]
  }

  /** Filtering keeps every element of another identity as often as it occurred. */
  lemma {:induction false} RemoveByIdCounts(ts: seq<Task>, id: ObjectId)
    ensures forall t :: multiset(RemoveById(ts, id))[t] == if t.id == id then 0 else multiset(ts)[t]
    decreases |ts|
  {
    if |ts| > 0 {
      var init := ts[..|ts| - 1];
      var last := ts[|ts| - 1];
      RemoveByIdCounts(init, id);
      assert ts == init + [last];
      var rest := RemoveById(init, id);
      var r := RemoveById(ts, id);
      assert r == if last.id == id then rest else rest + [last];
      assert multiset(ts) == multiset(init) + multiset{last};
      assert multiset(r) == if last.id == id then multiset(rest) else multiset(rest) + multiset{last};
    }
  }

  /** Filtering keeps the remaining elements in their original order. */
  lemma {:induction false} RemoveByIdKeepsOrder(ts: seq<Task>, id: ObjectId)
    ensures SubsequenceOf(RemoveById(ts, id), ts)
    decreases |ts|
  {
    if |ts| > 0 {
      var init := ts[..|ts| - 1];
      var rest := RemoveById(init, id);
      RemoveByIdKeepsOrder(init, id);
      if ts[|ts| - 1].id != id {
        assert (rest + [ts[|ts| - 1]])[..|rest|] == rest;
      }
    }
  }

  /** `deleteTask`: every element with that identity is dropped, the others keep their order. */
  function DeleteTask(s: State, id: ObjectId, a: Answer): (r: Step)
    ensures r.state.filters == s.filters
    ensures a.Rejected? ==> r == Step(s, Failed(ErrorText(a.message, DeleteFailed)))
    ensures a.Answered? ==>
      && r.outcome == Succeeded(None)
      && (forall k :: 0 <= k < |r.state.tasks| ==> r.state.tasks[k].id != id)
      && (forall t: Task :: t.id != id ==> multiset(r.state.tasks)[t] == multiset(s.tasks)[t])
      && SubsequenceOf(r.state.tasks, s.tasks)
  {
    match a
    case Rejected(m) => Step(s, Failed(ErrorText(m, DeleteFailed)))
    case Answered(_) =>
      RemoveByIdCounts(s.tasks, id);
      RemoveByIdKeepsOrder(s.tasks, id);
      Step(s.(tasks := RemoveById(s.tasks, id)), Succeeded(None))
  }

  /** A task the server created under an identity not yet in the list keeps the
      list's identities distinct. */
  lemma CreateKeepsDistinctIds(s: State, t: Task)
    requires DistinctIds(s.tasks)
    requires forall k :: 0 <= k < |s.tasks| ==> s.tasks[k].id != t.id
    ensures DistinctIds(CreateTask(s, Answered(t)).state.tasks)
  {
    var ts := CreateTask(s, Answered(t)).state.tasks;
    forall i, j | 0 <= i < j < |ts| ensures ts[i].id != ts[j].id {
      assert ts[j] == s.tasks[j - 1];
      if i > 0 {
        assert ts[i] == s.tasks[i - 1];
      }
    }
  }

  /** Removing an identity the list does not hold changes nothing. */
  lemma {:induction false} RemoveByIdAbsent(ts: seq<Task>, id: ObjectId)
    requires forall k :: 0 <= k < |ts| ==> ts[k].id != id
    ensures RemoveById(ts, id) == ts
    decreases |ts|
  {
    if |ts| > 0 {
      var init := ts[..|ts| - 1];
      RemoveByIdAbsent(init, id);
      assert ts == init + [ts[|ts| - 1]];
    }
  }

  /** A front element of the removed identity is dropped like the rest. */
  lemma {:induction false} RemoveByIdDropsFront(t: Task, ts: seq<Task>, id: ObjectId)
    requires t.id == id
    ensures RemoveById([t] + ts, id) == RemoveById(ts, id)
    decreases |ts|
  {
    if |ts| == 0 {
      assert [t][..0] == [];
    } else {
      var init := ts[..|ts| - 1];
      RemoveByIdDropsFront(t, init, id);
      assert ([t] + ts)[..|ts|] == [t] + init;
      assert ([t] + ts)[|ts|] == ts[|ts| - 1];
    }
  }

  /** Deleting the task just created, with nothing in between, restores the store. */
  lemma DeleteUndoesCreate(s: State, t: Task)
    requires forall k :: 0 <= k < |s.tasks| ==> s.tasks[k].id != t.id
    ensures DeleteTask(CreateTask(s, Answered(t)).state, t.id, Answered(t)).state == s
  {
    RemoveByIdDropsFront(t, s.tasks, t.id);
    RemoveByIdAbsent(s.tasks, t.id);
  }

  // ---------------------------------------------------------------- reducer

  /** Everything that changes the store: a filter change, or a server call's answer. */
  datatype Intent =
    | SetFilters(patch: FilterPatch)
    | ClearAll
    | Refresh(fetched: FetchAnswer)
    | CreateIntent(created: Answer)
    | UpdateIntent(updateId: ObjectId, updated: Answer)
    | DeleteIntent(deleteId: ObjectId, deleted: Answer)

  function Reduce(s: State, i: Intent): State {
    match i
    case SetFilters(p) => UpdateFilters(s, p)
    case ClearAll => ClearFilters(s)
    case Refresh(a) => Fetch(s, a)
    case CreateIntent(a) => CreateTask(s, a).state
    case UpdateIntent(id, a) => UpdateTask(s, id, a).state
    case DeleteIntent(id, a) => DeleteTask(s, id, a).state
  }

  predicate IsFailure(i: Intent) {
    || (i.Refresh? && i.fetched.FetchFailed?)
    || (i.CreateIntent? && i.created.Rejected?)
    || (i.UpdateIntent? && i.updated.Rejected?)
    || (i.DeleteIntent? && i.deleted.Rejected?)
  }

  /** A failed call changes nothing; criteria change only through the filter
      intents, and the task list never changes through them. */
  lemma ReduceFrame(s: State, i: Intent)
    ensures IsFailure(i) ==> Reduce(s, i) == s
    ensures !(i.SetFilters? || i.ClearAll?) ==> Reduce(s, i).filters == s.filters
    ensures (i.SetFilters? || i.ClearAll?) ==> Reduce(s, i).tasks == s.tasks
  {
  }

  /** Starting from the last fetched list with distinct identities, successful
      updates keep the identities distinct and never change the list's length. */
  lemma UpdatesKeepDistinctIds(s: State, id: ObjectId, t: Task)
    requires DistinctIds(s.tasks) && t.id == id
    ensures DistinctIds(UpdateTask(s, id, Answered(t)).state.tasks)
    ensures |UpdateTask(s, id, Answered(t)).state.tasks| == |s.tasks|
  {
    ReplaceKeepsDistinctIds(s.tasks, id, t);
  }
}
