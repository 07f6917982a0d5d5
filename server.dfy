/** The route handlers as methods on the store they read and write: the two
    collections of the `TODO-DB` database. Each method takes the steps its
    handler takes and is proved to leave the status and collection its
    specification function describes. Identifiers the driver generates
    arrive as parameters. */
module Server {
  import opened Documents
  import Registry
  import Board
  import Listing

  class Store {
    /** The Users collection, in natural order. */
    var users: seq<Registry.User>
    /** The Tasks collection, in natural order. */
    var tasks: seq<Board.Task>

    /** One user per email (kept by POST /add-users) and one task per `_id`
        (kept by the collection's unique `_id` index). */
    ghost predicate Valid()
      reads this
    {
      Registry.UniqueEmails(users) && Board.UniqueIds(tasks)
    }

    constructor ()
      ensures Valid() && users == [] && tasks == []
    {
      users := [];
      tasks := [];
    }

    /** POST /add-users */
    method Register(data: Registry.UserData, newId: ObjectId) returns (status: Status, insertedId: Option<ObjectId>)
      requires Valid()
      modifies this`users
      ensures Valid()
      ensures Outcome(status, users) == Registry.Register(old(users), data, newId)
      ensures insertedId == (if status == Ok then Some(newId) else None)
    {
      var existing := Registry.Lookup(users, data.email);
      if existing.Some? {
        return Conflict, None;
      }
      Registry.RegisterKeepsUnique(users, data, newId);
      users := users + [Registry.User(newId, data.email, data.profile)];
      status, insertedId := Ok, Some(newId);
    }

    /** GET /user/:email: the one user with that email, or nothing. */
    method GetByEmail(email: string) returns (user: Option<Registry.User>)
      requires Valid()
      ensures user.None? <==> forall u | u in users :: u.email != Some(email)
      ensures forall u | u in users && u.email == Some(email) :: user == Some(u)
    {
      user := Registry.Lookup(users, Some(email));
      forall u | u in users && u.email == Some(email) ensures user == Some(u) {
        Registry.LookupUnique(users, Some(email), u);
      }
    }

    /** POST /add-tasks: the record is stored as it is, without validation. */
    method CreateTask(data: Board.TaskData, newId: ObjectId) returns (status: Status, insertedId: ObjectId)
      requires Valid()
      requires Board.IndexOf(tasks, newId).None?
      modifies this`tasks
      ensures Valid()
      ensures tasks == old(tasks) + [Board.Stored(data, newId)]
      ensures status == Ok && insertedId == newId
    {
      Board.AppendKeepsUniqueIds(tasks, Board.Stored(data, newId));
      tasks := tasks + [Board.Stored(data, newId)];
      status, insertedId := Ok, newId;
    }

    /** GET /tasks/:email: runs the pipeline, then the three-category
        post-pass; the store is not changed. */
    method ListTasks(email: string) returns (status: Status, groups: seq<Listing.Group>)
      ensures status == Ok
      ensures groups == Listing.ListByUser(tasks, email)
      ensures |groups| == 3
      ensures groups[0].category == "todo" && groups[1].category == "inprogress" && groups[2].category == "done"
      ensures forall i, t | 0 <= i < 3 ::
        t in groups[i].tasks <==> t in tasks && t.email == Some(email) && t.category == Some(Listing.Categories[i])
    {
      var buckets := Listing.Aggregate(tasks, email);
      groups := Listing.Backfill(buckets);
      status := Ok;
      forall i, t | 0 <= i < 3
        ensures t in groups[i].tasks <==> t in tasks && t.email == Some(email) && t.category == Some(Listing.Categories[i])
      {
        Listing.Listed(tasks, email, i, t);
      }
    }

    /** PUT /task-update/:id: builds the `$set` document field by field, then
        `updateOne` on the `_id`. */
    method UpdateFields(id: string, title: Option<string>, description: Option<string>) returns (status: Status)
      requires Valid()
      modifies this`tasks
      ensures Valid()
      ensures Outcome(status, tasks) == Board.UpdateFields(old(tasks), id, title, description)
    {
      var fields := Board.FieldSet(None, None);
      if Board.Truthy(title) {
        fields := fields.(title := title);
      }
      if Board.Truthy(description) {
        fields := fields.(description := description);
      }
      var oid := ToObjectId(id);
      if oid.None? {
        return ServerError;
      }
      Board.UpdateFieldsEffect(tasks, id, oid.value, title, description);
      var found := Board.IndexOf(tasks, oid.value);
      if found.None? {
        return NotFound;
      }
      tasks := tasks[found.value := Board.SetFields(tasks[found.value], fields)];
      status := Ok;
    }

    /** PUT /tasks/dnd/:_id: `findOneAndUpdate` with upsert, answering the
        document as it is afterwards. */
    method MoveCategory(id: string, body: Option<Board.MoveBody>) returns (status: Status, doc: Option<Board.Task>)
      requires Valid()
      modifies this`tasks
      ensures Valid()
      ensures Outcome(status, tasks) == Board.MoveCategory(old(tasks), id, body)
      ensures doc.Some? <==> status == Created
      ensures doc.Some? ==> && doc.value in tasks
                            && ToObjectId(id) == Some(doc.value.id)
                            && doc.value.category == body.value.category
                            && doc.value.modified == Some(body.value.modified)
    {
      if body.None? || id == "" {
        return NotFound, None;
      }
      var oid := ToObjectId(id);
      if oid.None? {
        return NoResponse, None;
      }
      var found := Board.IndexOf(tasks, oid.value);
      if found.Some? {
        var i := found.value;
        Board.MoveExisting(tasks, id, oid.value, body.value, i);
        tasks := tasks[i := tasks[i].(category := body.value.category, modified := Some(body.value.modified))];
        doc := Some(tasks[i]);
      } else {
        Board.MoveAbsent(tasks, id, oid.value, body.value);
        tasks := tasks + [Board.Upserted(oid.value, body.value)];
        doc := Some(tasks[|tasks| - 1]);
      }
      status := Created;
    }

    /** DELETE /task-del/:id: checks the id, then `deleteOne`. */
    method DeleteTask(id: string) returns (status: Status)
      requires Valid()
      modifies this`tasks
      ensures Valid()
      ensures Outcome(status, tasks) == Board.DeleteTask(old(tasks), id)
    {
      if !ValidId(id) {
        return BadRequest;
      }
      var oid := ToObjectId(id).value;
      Board.DeleteEffect(tasks, id, oid);
      var found := Board.IndexOf(tasks, oid);
      if found.None? {
        return NotFound;
      }
      tasks := tasks[..found.value] + tasks[found.value + 1..];
      status := Ok;
    }
  }
}
