/**
  Properties of the task routes that relate several calls or hold of a whole
  store: the schema invariants survive every mutation, a foreign task is
  indistinguishable from a missing one, a second delete finds nothing, and a
  created task reads back with its defaults.
 */
module RouteProperties {
  import opened Wrappers
  import Text
  import opened TaskSchema
  import opened TaskRoutes

  /** In a valid store an identity names at most one position. */
  lemma IdentifiesPosition(db: seq<Task>, i: nat, j: nat)
    requires ValidStore(db)
    requires i < |db| && j < |db| && db[i].id == db[j].id
    ensures i == j
  {
  }

  /** Appending a conforming task under a fresh identity keeps a store valid. */
  lemma AppendPreservesValidStore(db: seq<Task>, t: Task)
    requires ValidStore(db) && !IdTaken(db, t.id) && Conforms(t)
    ensures ValidStore(db + [t])
  {
    var db' := db + [t];
    forall i, j | 0 <= i < j < |db'| ensures db'[i].id != db'[j].id {
      assert db'[i] == db[i];
    }
    forall i | 0 <= i < |db'| ensures Conforms(db'[i]) {
      if i < |db| {
        assert db'[i] == db[i];
      }
    }
  }

  /** A successful create keeps identities unique and stores a conforming task. */
  lemma CreatePreservesValidStore(db: seq<Task>, owner: ObjectId, body: Body, newId: ObjectId, now: Instant)
    requires ValidStore(db)
    ensures ValidStore(Create(db, owner, body, newId, now).db)
  {
    var r := Create(db, owner, body, newId, now);
    if r.reply.Created? {
      AppendPreservesValidStore(db, r.reply.value);
    }
  }

  /** An update re-saves a conforming task and never changes an identity. */
  lemma UpdatePreservesValidStore(db: seq<Task>, owner: ObjectId, id: Option<ObjectId>, body: Body, now: Instant)
    requires ValidStore(db)
    ensures ValidStore(Update(db, owner, id, body, now).db)
  {
    var r := Update(db, owner, id, body, now);
    if r.reply.Ok? {
      var k := FindOwned(db, owner, id.value).value;
      var prev := db[k];
      assert Conforms(prev);
      var draft := UpdateDraft(prev, body);
      assert SettersApplied(draft);
      assert r.db == db[k := r.reply.value];
      assert Conforms(r.reply.value);
    }
  }

  lemma DeletePreservesValidStore(db: seq<Task>, owner: ObjectId, id: Option<ObjectId>)
    requires ValidStore(db)
    ensures ValidStore(Delete(db, owner, id).db)
  {
    var r := Delete(db, owner, id);
    if r.reply.Ok? {
      var k := FindOwned(db, owner, id.value).value;
      var db' := r.db;
      assert db' == db[..k] + db[k + 1..];
      forall i, j | 0 <= i < j < |db'| ensures db'[i].id != db'[j].id {
        var i0 := if i < k then i else i + 1;
        var j0 := if j < k then j else j + 1;
        assert db'[i] == db[i0] && db'[j] == db[j0];
      }
      forall i | 0 <= i < |db'| ensures Conforms(db'[i]) {
        assert db'[i] == db[if i < k then i else i + 1];
      }
    }
  }

  /** Deleting the same identity again answers 404 and changes nothing. */
  lemma DeleteTwiceIsNotFound(db: seq<Task>, owner: ObjectId, id: ObjectId)
    requires ValidStore(db)
    requires OwnsId(db, owner, id)
    ensures Delete(Delete(db, owner, Some(id)).db, owner, Some(id)) ==
            Effect(Delete(db, owner, Some(id)).db, NotFound)
  {
    var k := FindOwned(db, owner, id).value;
    var db' := Delete(db, owner, Some(id)).db;
    assert db' == db[..k] + db[k + 1..];
    forall i | 0 <= i < |db'| ensures db'[i].id != id {
      if i < k {
        assert db'[i] == db[i];
      } else {
        assert db'[i] == db[i + 1];
      }
    }
  }

  /** A task owned by someone else answers exactly as a missing one: 404 on get,
      update and delete, with the store unchanged. */
  lemma ForeignTaskIsNotFound(db: seq<Task>, owner: ObjectId, k: nat, body: Body, now: Instant)
    requires ValidStore(db)
    requires k < |db| && db[k].userId != owner
    ensures Get(db, owner, Some(db[k].id)) == NotFound
    ensures Update(db, owner, Some(db[k].id), body, now) == Effect(db, NotFound)
    ensures Delete(db, owner, Some(db[k].id)) == Effect(db, NotFound)
  {
    var id := db[k].id;
    forall j | 0 <= j < |db| ensures !(db[j].id == id && db[j].userId == owner) {
      if j != k {
        assert db[j].id != id by {
          if j < k { assert db[j].id != db[k].id; } else { assert db[k].id != db[j].id; }
        }
      }
    }
  }

  /** A task whose identity is free in a store is not in it. */
  lemma FreeIdNotStored(db: seq<Task>, x: Task)
    requires !IdTaken(db, x.id)
    ensures x !in db
  {
  }

  /** A task appended under a free identity is what `Get` finds for its owner. */
  lemma AppendedTaskIsFound(db: seq<Task>, t: Task)
    requires !IdTaken(db, t.id)
    ensures Get(db + [t], t.userId, Some(t.id)) == Ok(t)
  {
    var db' := db + [t];
    assert db'[|db|] == t;
    assert OwnsId(db', t.userId, t.id);
    var g := Get(db', t.userId, Some(t.id));
    assert g.value in db' && g.value.id == t.id;
    FreeIdNotStored(db, g.value);
  }

  /** A create from a title alone succeeds and fills in the defaults: empty
      description, priority Med, status Todo, no due date. */
  lemma TitleOnlyCreateHasDefaults(db: seq<Task>, owner: ObjectId, title: string, newId: ObjectId, now: Instant)
    requires !Text.AllSpace(title) && !IdTaken(db, newId)
    ensures
      var r := Create(db, owner, Body(Given(title), Undefined, Undefined, Undefined, Undefined), newId, now);
      && r.reply.Created?
      && r.db == db + [r.reply.value]
      && r.reply.value.id == newId && r.reply.value.userId == owner
      && r.reply.value.title == Text.Trim(title)
      && r.reply.value.description == Some("")
      && r.reply.value.priority == Some("Med")
      && r.reply.value.status == Some("Todo")
      && r.reply.value.dueDate == None
  {
    var body := Body(Given(title), Undefined, Undefined, Undefined, Undefined);
    assert Text.AllSpace("");
    assert Text.Trim("") == "";
    assert !Falsy(body.title);
    assert OrElse(body.description, DefaultDescription) == "";
    assert OrElse(body.priority, DefaultPriority) == "Med" && "Med" in Priorities;
    assert OrElse(body.status, DefaultStatus) == "Todo" && "Todo" in Statuses;
    var r := Create(db, owner, body, newId, now);
    assert r.reply.Created?;
    var t := r.reply.value;
    assert t.description == Some(Text.Trim(OrElse(body.description, DefaultDescription)));
  }

  /** Creating a task from a title alone, then reading it back by its identity,
      gives the task with its defaults. */
  lemma CreateThenGetHasDefaults(db: seq<Task>, owner: ObjectId, title: string, newId: ObjectId, now: Instant)
    requires !Text.AllSpace(title) && !IdTaken(db, newId)
    ensures
      var r := Create(db, owner, Body(Given(title), Undefined, Undefined, Undefined, Undefined), newId, now);
      && r.reply.Created?
      && Get(r.db, owner, Some(newId)) == Ok(r.reply.value)
      && r.reply.value.description == Some("")
      && r.reply.value.priority == Some("Med")
      && r.reply.value.status == Some("Todo")
  {
    TitleOnlyCreateHasDefaults(db, owner, title, newId, now);
    var r := Create(db, owner, Body(Given(title), Undefined, Undefined, Undefined, Undefined), newId, now);
    AppendedTaskIsFound(db, r.reply.value);
  }

  /** A create whose title is only spaces passes the route's own check (the raw
      string is truthy) but fails the schema's required validator: 500, not 400. */
  lemma BlankTitleIsServerError(db: seq<Task>, owner: ObjectId, newId: ObjectId, now: Instant)
    ensures Create(db, owner, Body(Given("   "), Undefined, Undefined, Undefined, Undefined), newId, now)
            == Effect(db, ServerError)
  {
    var body := Body(Given("   "), Undefined, Undefined, Undefined, Undefined);
    assert !Falsy(body.title);
    assert Text.AllSpace("   ");
    assert Text.Trim(body.title.value) == "";
    assert !Create(db, owner, body, newId, now).reply.Created?;
  }

  /** An out-of-enum priority given to create is not defaulted: the save fails with 500. */
  lemma UnknownPriorityIsServerError(db: seq<Task>, owner: ObjectId, newId: ObjectId, now: Instant)
    ensures Create(db, owner, Body(Given("Buy milk"), Undefined, Given("Urgent"), Undefined, Undefined), newId, now)
            == Effect(db, ServerError)
  {
    var body := Body(Given("Buy milk"), Undefined, Given("Urgent"), Undefined, Undefined);
    assert !Falsy(body.title);
    assert OrElse(body.priority, DefaultPriority) == "Urgent";
    assert "Urgent" !in Priorities;
    assert !Create(db, owner, body, newId, now).reply.Created?;
  }

  /** On the caller's own task an update succeeds exactly when the assigned
      fields pass validation; otherwise it answers 500 and the store is left as
      it was. */
  lemma UpdateSucceedsIffValid(db: seq<Task>, owner: ObjectId, k: nat, body: Body, now: Instant)
    requires ValidStore(db)
    requires k < |db| && db[k].userId == owner
    ensures
      var r := Update(db, owner, Some(db[k].id), body, now);
      && (r.reply.Ok? <==> UpdateValidates(db[k], body))
      && (!UpdateValidates(db[k], body) ==> r == Effect(db, ServerError))
      && (r.reply.Ok? ==> r.db == db[k := r.reply.value] && UpdatedFrom(db[k], body, now, r.reply.value))
  {
    var id := db[k].id;
    assert OwnsId(db, owner, id);
    var r := Update(db, owner, Some(id), body, now);
    if r.reply.Ok? {
      var j :| 0 <= j < |db| && db[j].id == id && db[j].userId == owner
        && UpdateValidates(db[j], body)
        && r.db == db[j := r.reply.value]
        && UpdatedFrom(db[j], body, now, r.reply.value);
      IdentifiesPosition(db, j, k);
    } else {
      var j :| 0 <= j < |db| && db[j].id == id && db[j].userId == owner
        && !UpdateValidates(db[j], body);
      IdentifiesPosition(db, j, k);
    }
  }

  /** An update that blanks the title to spaces is not applied: the trimmed
      title fails the required validator and the save answers 500. */
  lemma UpdateBlankTitleIsServerError(db: seq<Task>, owner: ObjectId, k: nat, now: Instant)
    requires ValidStore(db)
    requires k < |db| && db[k].userId == owner
    ensures Update(db, owner, Some(db[k].id), Body(Given("   "), Undefined, Undefined, Undefined, Undefined), now)
            == Effect(db, ServerError)
  {
    var body := Body(Given("   "), Undefined, Undefined, Undefined, Undefined);
    assert Text.AllSpace("   ");
    assert AssignTrimmed(body.title, Some(db[k].title)) == Some("");
    assert !UpdateValidates(db[k], body);
    UpdateSucceedsIffValid(db, owner, k, body, now);
  }

  /** An update that sets the title to `null` is not applied: 500. */
  lemma UpdateNullTitleIsServerError(db: seq<Task>, owner: ObjectId, k: nat, now: Instant)
    requires ValidStore(db)
    requires k < |db| && db[k].userId == owner
    ensures Update(db, owner, Some(db[k].id), Body(Null, Undefined, Undefined, Undefined, Undefined), now)
            == Effect(db, ServerError)
  {
    var body := Body(Null, Undefined, Undefined, Undefined, Undefined);
    assert !UpdateValidates(db[k], body);
    UpdateSucceedsIffValid(db, owner, k, body, now);
  }

  /** An update naming a priority outside the enumeration is not applied: 500. */
  lemma UpdateUnknownPriorityIsServerError(db: seq<Task>, owner: ObjectId, k: nat, now: Instant)
    requires ValidStore(db)
    requires k < |db| && db[k].userId == owner
    ensures Update(db, owner, Some(db[k].id), Body(Undefined, Undefined, Given("Urgent"), Undefined, Undefined), now)
            == Effect(db, ServerError)
  {
    var body := Body(Undefined, Undefined, Given("Urgent"), Undefined, Undefined);
    assert "Urgent" !in Priorities;
    assert !UpdateValidates(db[k], body);
    UpdateSucceedsIffValid(db, owner, k, body, now);
  }

  /** An update whose body gives only a valid status changes the status (and the
      update timestamp) of the caller's task and nothing else, anywhere. */
  lemma StatusOnlyUpdate(db: seq<Task>, owner: ObjectId, k: nat, status: string, now: Instant)
    requires ValidStore(db)
    requires k < |db| && db[k].userId == owner
    requires status in Statuses
    ensures
      var r := Update(db, owner, Some(db[k].id), Body(Undefined, Undefined, Undefined, Given(status), Undefined), now);
      && r.reply.Ok?
      && r.db == db[k := r.reply.value]
      && r.reply.value.(updatedAt := db[k].updatedAt) == db[k].(status := Some(status))
  {
    var id := db[k].id;
    var body := Body(Undefined, Undefined, Undefined, Given(status), Undefined);
    assert OwnsId(db, owner, id);
    var j := FindOwned(db, owner, id).value;
    IdentifiesPosition(db, j, k);
    assert Conforms(db[k]);
  }

  /** An update with an empty body saves the task unchanged, timestamp included. */
  lemma EmptyUpdateChangesNothing(db: seq<Task>, owner: ObjectId, k: nat, now: Instant)
    requires ValidStore(db)
    requires k < |db| && db[k].userId == owner
    ensures Update(db, owner, Some(db[k].id), Body(Undefined, Undefined, Undefined, Undefined, Undefined), now)
            == Effect(db, Ok(db[k]))
  {
    var id := db[k].id;
    assert OwnsId(db, owner, id);
    var j := FindOwned(db, owner, id).value;
    IdentifiesPosition(db, j, k);
    assert Conforms(db[k]);
    assert db[k := db[k]] == db;
  }
}
