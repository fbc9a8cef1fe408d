/**
  The Task document of the backend (backend/models/Task.js): its fields, the two
  enumerations, the trimming setters and the validation a save runs.

  Timestamps are integer instants (milliseconds); record and owner identities are
  ObjectIds, modelled as natural numbers. A field the document holds as `null`
  is `None`.
 */
module TaskSchema {
  import opened Wrappers
  import Text

  type ObjectId = nat
  type Instant = int

  const Priorities: seq<string> := ["Low", "Med", "High"]
  const Statuses: seq<string> := ["Todo", "In Progress", "Completed"]

  const DefaultDescription: string := ""
  const DefaultPriority: string := "Med"
  const DefaultStatus: string := "Todo"
  const Completed: string := "Completed"

  /** A saved task document. */
  datatype Task = Task(
    id: ObjectId,
    title: string,
    description: Option<string>,
    priority: Option<string>,
    status: Option<string>,
    dueDate: Option<Instant>,
    userId: ObjectId,
    createdAt: Instant,
    updatedAt: Instant)

  /** A document after its fields have been assigned and before `save` validates
      it; unlike a saved task, its title may be `null`. */
  datatype Draft = Draft(
    id: ObjectId,
    title: Option<string>,
    description: Option<string>,
    priority: Option<string>,
    status: Option<string>,
    dueDate: Option<Instant>,
    userId: ObjectId,
    createdAt: Instant,
    updatedAt: Instant)

  /** The `trim: true` setter: strings are trimmed, `null` passes through. */
  function SetTrimmed(v: Option<string>): (r: Option<string>)
    ensures r.None? <==> v.None?
    ensures r.Some? ==> Text.IsTrimmed(r.value)
    ensures v.Some? ==> r == Some(Text.Trim(v.value))
  {
    match v
    case None => None
    case Some(s) => Some(Text.Trim(s))
  }

  /** The enum validator: `null` or one of the listed values. */
  predicate InEnum(v: Option<string>, values: seq<string>) {
    v.None? || v.value in values
  }

  /** The `required` validator on a string: present and not empty. */
  predicate RequiredString(v: Option<string>) {
    v.Some? && v.value != ""
  }

  /** What every saved task satisfies: a non-empty trimmed title, a trimmed
      description, and priority and status from their enumerations. */
  predicate Conforms(t: Task) {
    && t.title != ""
    && Text.IsTrimmed(t.title)
    && (t.description.Some? ==> Text.IsTrimmed(t.description.value))
    && InEnum(t.priority, Priorities)
    && InEnum(t.status, Statuses)
  }

  /** The draft as its title and description setters leave it. */
  predicate SettersApplied(d: Draft) {
    && (d.title.Some? ==> Text.IsTrimmed(d.title.value))
    && (d.description.Some? ==> Text.IsTrimmed(d.description.value))
  }

  /** `save()`'s validation: the saved task when the required and enum validators
      all pass, nothing otherwise. */
  function Save(d: Draft): (r: Option<Task>)
    ensures r.Some? <==>
      RequiredString(d.title) && InEnum(d.priority, Priorities) && InEnum(d.status, Statuses)
    ensures r.Some? ==> r.value.title == d.title.value
    ensures r.Some? && SettersApplied(d) ==> Conforms(r.value)
    ensures r.Some? ==>
      && r.value.id == d.id && r.value.userId == d.userId
      && r.value.description == d.description && r.value.priority == d.priority
      && r.value.status == d.status && r.value.dueDate == d.dueDate
      && r.value.createdAt == d.createdAt && r.value.updatedAt == d.updatedAt
  {
    if RequiredString(d.title) && InEnum(d.priority, Priorities) && InEnum(d.status, Statuses) then
      Some(Task(d.id, d.title.value, d.description, d.priority, d.status, d.dueDate,
                d.userId, d.createdAt, d.updatedAt))
    else
      None
  }

  /** A saved task, seen again as a draft before further assignments. */
  function ToDraft(t: Task): (d: Draft)
    ensures Conforms(t) ==> Save(d) == Some(t)
  {
    Draft(t.id, Some(t.title), t.description, t.priority, t.status, t.dueDate,
          t.userId, t.createdAt, t.updatedAt)
  }

  /** An out-of-enum priority or status can never be saved, and neither can a
      title that is empty or only spaces once trimmed. */
  lemma SaveRejects(d: Draft)
    ensures d.priority.Some? && d.priority.value !in Priorities ==> Save(d).None?
    ensures d.status.Some? && d.status.value !in Statuses ==> Save(d).None?
    ensures d.title.Some? && Text.AllSpace(d.title.value) && SettersApplied(d) ==> Save(d).None?
  {
  }

  /** A collection of saved tasks: identities unique, every task conforming. */
  predicate ValidStore(db: seq<Task>) {
    && (forall i, j :: 0 <= i < j < |db| ==> db[i].id != db[j].id)
    && (forall i :: 0 <= i < |db| ==> Conforms(db[i]))
  }
}
