/**
  The task routes of the backend (backend/routes/tasks.js): list with filters and
  sort, get by id, create, partial update and delete, every one scoped to the
  authenticated caller `owner`.

  The document store is a sequence of saved tasks. An HTTP answer is a `Reply`:
  `Ok` is 200, `Created` is 201, and the three failures are 400, 404 and 500.
  A path `:id` that does not cast to an ObjectId is `None`; the cast error is
  caught by the route and answered with 500.
 */
module TaskRoutes {
  import opened Wrappers
  import Text
  import opened TaskSchema
  import opened Ordering

  /** A JSON body field: absent (`undefined`), `null`, or a value. */
  datatype Field<T> = Undefined | Null | Given(value: T)

  /** The five fields the create and update routes read from a request body. */
  datatype Body = Body(
    title: Field<string>,
    description: Field<string>,
    priority: Field<string>,
    status: Field<string>,
    dueDate: Field<Instant>)

  /** The list route's query string; an absent parameter reads as "". */
  datatype ListParams = ListParams(
    status: string, priority: string, search: string, sortBy: string, sortOrder: string)

  datatype Reply<T> = Ok(value: T) | Created(value: T) | BadRequest | NotFound | ServerError

  /** The list route's JSON answer `{count, tasks}`. */
  datatype Listing = Listing(count: nat, tasks: seq<Task>)

  /** The store after a route ran, and its answer. */
  datatype Effect<T> = Effect(db: seq<Task>, reply: Reply<T>)

  /** The query document the list route builds: the owner always, the other
      three only when their parameter was given. */
  datatype Query = Query(
    userId: ObjectId, status: Option<string>, priority: Option<string>, titleSearch: Option<string>)

  // ---------------------------------------------------------------- list

  function OptionalParam(v: string): (r: Option<string>)
    ensures r.Some? <==> v != ""
    ensures r.Some? ==> r.value == v
  {
    if v != "" then Some(v) else None
  }

  function BuildQuery(owner: ObjectId, p: ListParams): Query {
    Query(owner, OptionalParam(p.status), OptionalParam(p.priority), OptionalParam(p.search))
  }

  /** The store's reading of a query document: equality on the owner, status and
      priority, a case-insensitive match of the search text on the title. */
  predicate Satisfies(t: Task, q: Query) {
    && t.userId == q.userId
    && (q.status.Some? ==> t.status == q.status)
    && (q.priority.Some? ==> t.priority == q.priority)
    && (q.titleSearch.Some? ==> Text.MatchesIgnoringCase(t.title, q.titleSearch.value))
  }

  /** The tasks a caller is meant to see for the given parameters: their own,
      narrowed by each filter that is non-empty. */
  predicate Visible(owner: ObjectId, p: ListParams, t: Task) {
    && t.userId == owner
    && (p.status == "" || t.status == Some(p.status))
    && (p.priority == "" || t.priority == Some(p.priority))
    && (p.search == "" || Text.MatchesIgnoringCase(t.title, p.search))
  }

  lemma QueryMeansVisible(owner: ObjectId, p: ListParams, t: Task)
    ensures Satisfies(t, BuildQuery(owner, p)) <==> Visible(owner, p, t)
  {
  }

  /** The store's answer to a query: the satisfying tasks, in store order. */
  function Find(db: seq<Task>, q: Query): (r: seq<Task>)
    ensures forall t :: multiset(r)[t] == if Satisfies(t, q) then multiset(db)[t] else 0
    ensures forall t :: t in r <==> t in db && Satisfies(t, q)
    decreases |db|
  {
    if |db| == 0 then []
    else
      var rest := Find(db[..|db| - 1], q);
      var last := db[|db| - 1];
      assert db == db[..|db| - 1] + [last];
      if Satisfies(last, q) then rest + [last] else rest
  }

  const SortNames: seq<string> := ["date", "priority", "dueDate"]

  /** The sort object the list route builds from `sortBy` and `sortOrder`. */
  function SelectSort(sortBy: string, sortOrder: string): (s: SortSpec)
    ensures sortBy !in SortNames ==> s == SortSpec(ByCreatedAt, true)
    ensures sortBy in SortNames ==> (s.descending <==> sortOrder == "desc")
    ensures sortBy == "date" ==> s.key == ByCreatedAt
    ensures sortBy == "priority" ==> s.key == ByPriority
    ensures sortBy == "dueDate" ==> s.key == ByDueDate
  {
    if sortBy != "" then
      var descending := sortOrder == "desc";
      if sortBy == "date" then SortSpec(ByCreatedAt, descending)
      else if sortBy == "priority" then SortSpec(ByPriority, descending)
      else if sortBy == "dueDate" then SortSpec(ByDueDate, descending)
      else SortSpec(ByCreatedAt, true)
    else
      SortSpec(ByCreatedAt, true)
  }

  /** GET /: the caller's matching tasks in the selected order, with their count.
      No match is an empty list, not an error. */
  function List(db: seq<Task>, owner: ObjectId, p: ListParams, missingLow: bool): (r: Listing)
    ensures r.count == |r.tasks|
    ensures Sorted(SelectSort(p.sortBy, p.sortOrder), missingLow, r.tasks)
    ensures forall t :: multiset(r.tasks)[t] == if Visible(owner, p, t) then multiset(db)[t] else 0
    ensures forall t :: t in r.tasks <==> t in db && Visible(owner, p, t)
    ensures forall k :: 0 <= k < |r.tasks| ==> r.tasks[k].userId == owner
  {
    var q := BuildQuery(owner, p);
    var found := Find(db, q);
    var sorted := SortTasks(SelectSort(p.sortBy, p.sortOrder), missingLow, found);
    assert forall t :: t in sorted <==> t in found by {
      forall t ensures t in sorted <==> t in found {
        assert t in sorted <==> t in multiset(sorted);
        assert t in found <==> t in multiset(found);
      }
    }
    forall k | 0 <= k < |sorted| ensures sorted[k].userId == owner {
      assert sorted[k] in sorted;
    }
    Listing(|sorted|, sorted)
  }

  // ---------------------------------------------------------------- by id

  /** The position of the task with this identity and this owner, if any. */
  function FindOwned(db: seq<Task>, owner: ObjectId, id: ObjectId): (r: Option<nat>)
    ensures r.Some? ==> r.value < |db| && db[r.value].id == id && db[r.value].userId == owner
    ensures r.None? <==> forall k :: 0 <= k < |db| ==> !(db[k].id == id && db[k].userId == owner)
    decreases |db|
  {
    if |db| == 0 then None
    else if db[0].id == id && db[0].userId == owner then Some(0)
    else
      match FindOwned(db[1..], owner, id)
      case None => None
      case Some(k) => Some(k + 1)
  }

  /** The caller owns a task with this identity. */
  predicate OwnsId(db: seq<Task>, owner: ObjectId, id: ObjectId) {
    exists k :: 0 <= k < |db| && db[k].id == id && db[k].userId == owner
  }

  /** GET /:id: the caller's task with that id; a task that is missing and one
      that belongs to someone else both answer 404. */
  function Get(db: seq<Task>, owner: ObjectId, id: Option<ObjectId>): (r: Reply<Task>)
    ensures id.None? ==> r.ServerError?
    ensures id.Some? ==> (r.NotFound? <==> !OwnsId(db, owner, id.value))
    ensures id.Some? ==> r.Ok? || r.NotFound?
    ensures r.Ok? ==> r.value in db && r.value.id == id.value && r.value.userId == owner
  {
    if id.None? then ServerError
    else
      match FindOwned(db, owner, id.value)
      case None => NotFound
      case Some(k) => Ok(db[k])
  }

  // ---------------------------------------------------------------- create

  /** JavaScript truthiness of a string field: `undefined`, `null` and `""` are falsy. */
  predicate Falsy(f: Field<string>) {
    f.Undefined? || f.Null? || f == Given("")
  }

  /** A string field, or the fallback when the field is JavaScript-falsy. */
  function OrElse(f: Field<string>, fallback: string): (r: string)
    ensures Falsy(f) ==> r == fallback
    ensures !Falsy(f) ==> r == f.value && r != ""
  {
    if Falsy(f) then fallback else f.value
  }

  /** A given date is kept, anything else is stored as `null`. */
  function DateOrNull(f: Field<Instant>): (r: Option<Instant>)
    ensures r.Some? <==> f.Given?
    ensures r.Some? ==> r.value == f.value
  {
    if f.Given? then Some(f.value) else None
  }

  predicate IdTaken(db: seq<Task>, id: ObjectId) {
    exists k :: 0 <= k < |db| && db[k].id == id
  }

  /** The document the create route builds: defaults for falsy fields, the owner
      from the authenticated caller, both timestamps at `now`. */
  function CreateDraft(owner: ObjectId, body: Body, newId: ObjectId, now: Instant): Draft
    requires !Falsy(body.title)
  {
    Draft(
      newId,
      SetTrimmed(Some(body.title.value)),
      SetTrimmed(Some(OrElse(body.description, DefaultDescription))),
      Some(OrElse(body.priority, DefaultPriority)),
      Some(OrElse(body.status, DefaultStatus)),
      DateOrNull(body.dueDate),
      owner, now, now)
  }

  /** POST /: 400 without a title; otherwise the saved task, or 500 when the
      save fails validation or the new identity is already taken. */
  function Create(db: seq<Task>, owner: ObjectId, body: Body, newId: ObjectId, now: Instant): (r: Effect<Task>)
    ensures Falsy(body.title) ==> r == Effect(db, BadRequest)
    ensures r.reply.Created? || r.reply.BadRequest? || r.reply.ServerError?
    ensures !r.reply.Created? ==> r.db == db
    ensures r.reply.Created? <==>
      && !Falsy(body.title)
      && Text.Trim(body.title.value) != ""
      && OrElse(body.priority, DefaultPriority) in Priorities
      && OrElse(body.status, DefaultStatus) in Statuses
      && !IdTaken(db, newId)
    ensures r.reply.Created? ==>
      var t := r.reply.value;
      && r.db == db + [t]
      && t.id == newId && t.userId == owner
      && t.title == Text.Trim(body.title.value)
      && t.description == Some(Text.Trim(OrElse(body.description, DefaultDescription)))
      && t.priority == Some(OrElse(body.priority, DefaultPriority))
      && t.status == Some(OrElse(body.status, DefaultStatus))
      && t.dueDate == DateOrNull(body.dueDate)
      && t.createdAt == now && t.updatedAt == now
      && Conforms(t)
  {
    if Falsy(body.title) then Effect(db, BadRequest)
    else
      var draft := CreateDraft(owner, body, newId, now);
      match Save(draft)
      case None => Effect(db, ServerError)
      case Some(t) =>
        if IdTaken(db, newId) then Effect(db, ServerError)
        else Effect(db + [t], Created(t))
  }

  // ---------------------------------------------------------------- update

  /** A field assignment guarded by presence: an absent field keeps the current
      value, `null` clears it, a value replaces it. */
  function Assign<T>(f: Field<T>, current: Option<T>): (r: Option<T>)
    ensures f.Undefined? ==> r == current
    ensures f.Null? ==> r.None?
    ensures f.Given? ==> r == Some(f.value)
  {
    match f
    case Undefined => current
    case Null => None
    case Given(v) => Some(v)
  }

  /** Assignment through the trimming setter, which runs only when the field is assigned. */
  function AssignTrimmed(f: Field<string>, current: Option<string>): Option<string> {
    if f.Undefined? then current else SetTrimmed(Assign(f, current))
  }

  function UpdateDraft(t: Task, body: Body): Draft {
    Draft(
      t.id,
      AssignTrimmed(body.title, Some(t.title)),
      AssignTrimmed(body.description, t.description),
      Assign(body.priority, t.priority),
      Assign(body.status, t.status),
      Assign(body.dueDate, t.dueDate),
      t.userId, t.createdAt, t.updatedAt)
  }

  /** The assigned fields pass `save()`'s validators: a title still present and
      non-empty once trimmed, priority and status `null` or in their enumerations. */
  predicate UpdateValidates(prev: Task, body: Body) {
    && RequiredString(AssignTrimmed(body.title, Some(prev.title)))
    && InEnum(Assign(body.priority, prev.priority), Priorities)
    && InEnum(Assign(body.status, prev.status), Statuses)
  }

  /** The task as the update body leaves it: exactly the fields the body gives,
      the timestamp moved to `now` only when something changed. */
  predicate UpdatedFrom(prev: Task, body: Body, now: Instant, t: Task) {
    && t.id == prev.id && t.userId == prev.userId && t.createdAt == prev.createdAt
    && Some(t.title) == AssignTrimmed(body.title, Some(prev.title))
    && t.description == AssignTrimmed(body.description, prev.description)
    && t.priority == Assign(body.priority, prev.priority)
    && t.status == Assign(body.status, prev.status)
    && t.dueDate == Assign(body.dueDate, prev.dueDate)
    && t.updatedAt == (if t.(updatedAt := prev.updatedAt) == prev then prev.updatedAt else now)
  }

  /** PUT /:id: 404 unless the caller owns the task; otherwise the assigned
      fields are validated and saved in place (500 when validation fails), and
      every other task is left as it was. */
  function Update(db: seq<Task>, owner: ObjectId, id: Option<ObjectId>, body: Body, now: Instant): (r: Effect<Task>)
    ensures id.None? ==> r == Effect(db, ServerError)
    ensures id.Some? && !OwnsId(db, owner, id.value) ==> r == Effect(db, NotFound)
    ensures id.Some? && OwnsId(db, owner, id.value) ==> r.reply.Ok? || r.reply.ServerError?
    ensures r.reply.Ok? || r.reply.NotFound? || r.reply.ServerError?
    ensures !r.reply.Ok? ==> r.db == db
    ensures r.reply.Ok? ==>
      && id.Some?
      && |r.db| == |db|
      && exists k :: 0 <= k < |db| && db[k].id == id.value && db[k].userId == owner
           && UpdateValidates(db[k], body)
           && r.db == db[k := r.reply.value]
           && UpdatedFrom(db[k], body, now, r.reply.value)
    ensures r.reply.ServerError? && id.Some? ==>
      exists k :: 0 <= k < |db| && db[k].id == id.value && db[k].userId == owner
        && !UpdateValidates(db[k], body)
  {
    if id.None? then Effect(db, ServerError)
    else
      match FindOwned(db, owner, id.value)
      case None => Effect(db, NotFound)
      case Some(k) =>
        var prev := db[k];
        match Save(UpdateDraft(prev, body))
        case None => Effect(db, ServerError)
        case Some(saved) =>
          var t := if saved == prev then saved else saved.(updatedAt := now);
          assert UpdatedFrom(prev, body, now, t);
          Effect(db[k := t], Ok(t))
  }

  // ---------------------------------------------------------------- delete

  /** DELETE /:id: removes the caller's task with that id and answers with it;
      404 when the caller owns no such task. */
  function Delete(db: seq<Task>, owner: ObjectId, id: Option<ObjectId>): (r: Effect<Task>)
    ensures id.None? ==> r == Effect(db, ServerError)
    ensures id.Some? && !OwnsId(db, owner, id.value) ==> r == Effect(db, NotFound)
    ensures id.Some? && OwnsId(db, owner, id.value) ==> r.reply.Ok?
    ensures r.reply.Ok? || r.reply.NotFound? || r.reply.ServerError?
    ensures !r.reply.Ok? ==> r.db == db
    ensures r.reply.Ok? ==>
      && id.Some?
      && r.reply.value.id == id.value && r.reply.value.userId == owner
      && exists k :: 0 <= k < |db| && db[k] == r.reply.value && r.db == db[..k] + db[k + 1..]
  {
    if id.None? then Effect(db, ServerError)
    else
      match FindOwned(db, owner, id.value)
      case None => Effect(db, NotFound)
      case Some(k) => Effect(db[..k] + db[k + 1..], Ok(db[k]))
  }
}
