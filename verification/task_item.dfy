/**
  The per-task card's logic (frontend/src/components/TaskItem.jsx): the overdue
  badge, the payload a status change sends, and the border colour chosen by
  priority. The current time is a parameter.
 */
module TaskItem {
  import opened Wrappers
  import opened TaskSchema
  import Text
  import TaskRoutes
  import RouteProperties

  /** The overdue badge: a due date strictly before now on a task that is not
      Completed. */
  predicate IsOverdue(t: Task, now: Instant) {
    t.dueDate.Some? && t.dueDate.value < now && t.status != Some(Completed)
  }

  /** A task without a due date, or a completed one, is never overdue; an overdue
      task stays overdue as time goes on. */
  lemma OverdueProperties(t: Task, now: Instant, later: Instant)
    ensures t.dueDate.None? ==> !IsOverdue(t, now)
    ensures t.status == Some(Completed) ==> !IsOverdue(t, now)
    ensures IsOverdue(t, now) && now <= later ==> IsOverdue(t, later)
    ensures IsOverdue(t, now) <==>
      (exists due :: t.dueDate == Some(due) && due < now) && t.status != Some("Completed")
  {
  }

  /** The card's own copy of the task with only the status replaced. */
  function StatusChangePayload(t: Task, newStatus: string): (p: Task)
    ensures p.status == Some(newStatus)
    ensures p.(status := t.status) == t
  {
    t.(status := Some(newStatus))
  }

  function ToField<T>(v: Option<T>): (f: TaskRoutes.Field<T>)
    ensures v.None? ==> f.Null?
    ensures v.Some? ==> f == TaskRoutes.Given(v.value)
  {
    match v
    case None => TaskRoutes.Null
    case Some(x) => TaskRoutes.Given(x)
  }

  /** The five fields the update route reads from a payload that is a whole task:
      none is `undefined`, a `null` field is sent as `null`. */
  function PayloadBody(p: Task): TaskRoutes.Body {
    TaskRoutes.Body(
      TaskRoutes.Given(p.title), ToField(p.description), ToField(p.priority),
      ToField(p.status), ToField(p.dueDate))
  }

  /** Sending the status-change payload for the server's own copy of a task
      changes that task's status (and its update timestamp) and nothing else:
      re-sending the other fields writes back the values they already had. */
  lemma StatusChangeOnlyChangesStatus(db: seq<Task>, k: nat, newStatus: string, now: Instant)
    requires ValidStore(db) && k < |db|
    requires newStatus in Statuses
    ensures
      var t := db[k];
      var r := TaskRoutes.Update(db, t.userId, Some(t.id), PayloadBody(StatusChangePayload(t, newStatus)), now);
      && r.reply.Ok?
      && r.db == db[k := r.reply.value]
      && r.reply.value.(updatedAt := t.updatedAt) == t.(status := Some(newStatus))
  {
    var t := db[k];
    var body := PayloadBody(StatusChangePayload(t, newStatus));
    assert Conforms(t);
    Text.TrimTrimmed(t.title);
    assert TaskRoutes.AssignTrimmed(body.title, Some(t.title)) == Some(t.title);
    if t.description.Some? {
      Text.TrimTrimmed(t.description.value);
    }
    assert TaskRoutes.AssignTrimmed(body.description, t.description) == t.description;
    assert TaskRoutes.Assign(body.priority, t.priority) == t.priority;
    assert TaskRoutes.Assign(body.status, t.status) == Some(newStatus);
    assert TaskRoutes.Assign(body.dueDate, t.dueDate) == t.dueDate;
    assert TaskRoutes.UpdateValidates(t, body);
    RouteProperties.UpdateSucceedsIffValid(db, t.userId, k, body, now);
  }

  /** After a status change to Completed the task is no longer overdue. */
  lemma CompletingClearsOverdue(t: Task, now: Instant)
    ensures !IsOverdue(StatusChangePayload(t, Completed), now)
  {
  }

  datatype Colour = Red | Yellow | Green

  /** The card's left border: red for High, yellow for Med, green for anything else. */
  function BorderColour(priority: Option<string>): (c: Colour)
    ensures c == Red <==> priority == Some("High")
    ensures c == Yellow <==> priority == Some("Med")
    ensures c == Green <==> priority != Some("High") && priority != Some("Med")
  {
    if priority == Some("High") then Red
    else if priority == Some("Med") then Yellow
    else Green
  }

  /** On conforming tasks the border tells the three priorities apart: High is
      red, Med yellow, and Low or no priority green. */
  lemma BorderColourPartitionsPriorities(t: Task)
    requires Conforms(t)
    ensures BorderColour(t.priority) == Red <==> t.priority == Some("High")
    ensures BorderColour(t.priority) == Yellow <==> t.priority == Some("Med")
    ensures BorderColour(t.priority) == Green <==> t.priority == Some("Low") || t.priority.None?
  {
  }

  /** Distinct priorities of the enumeration get distinct borders. */
  lemma BorderColourInjective(p: string, q: string)
    requires p in Priorities && q in Priorities && p != q
    ensures BorderColour(Some(p)) != BorderColour(Some(q))
  {
  }

  /** A task created from a title alone has the default priority Med, so its
      card shows the yellow border. */
  lemma TitleOnlyTaskIsYellow(db: seq<Task>, owner: ObjectId, title: string, newId: ObjectId, now: Instant)
    requires !Text.AllSpace(title) && !TaskRoutes.IdTaken(db, newId)
    ensures
      var body := TaskRoutes.Body(TaskRoutes.Given(title), TaskRoutes.Undefined, TaskRoutes.Undefined,
                                  TaskRoutes.Undefined, TaskRoutes.Undefined);
      var r := TaskRoutes.Create(db, owner, body, newId, now);
      r.reply.Created? && BorderColour(r.reply.value.priority) == Yellow
  {
    RouteProperties.TitleOnlyCreateHasDefaults(db, owner, title, newId, now);
  }
}
