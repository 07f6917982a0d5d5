/** The Tasks collection and the effect of its mutating handlers:
    POST /add-tasks, PUT /task-update/:id, PUT /tasks/dnd/:_id and
    DELETE /task-del/:id, each as a status plus the collection it leaves. */
module Board {
  import opened Documents

  /** The body of POST /add-tasks, stored as it is. `others` holds every
      further field of the record (for instance `taskTime`), passed through unread. */
  datatype TaskData = TaskData(email: Option<string>, category: Option<string>,
                               title: Option<string>, description: Option<string>,
                               modified: Option<Stamp>, others: map<string, string>)

  /** A document of the Tasks collection. */
  datatype Task = Task(id: ObjectId, email: Option<string>, category: Option<string>,
                       title: Option<string>, description: Option<string>,
                       modified: Option<Stamp>, others: map<string, string>)

  /** The document `insertOne` stores for a posted record. */
  function Stored(data: TaskData, id: ObjectId): (r: Task)
    ensures r.id == id
    ensures TaskData(r.email, r.category, r.title, r.description, r.modified, r.others) == data
  {
    Task(id, data.email, data.category, data.title, data.description, data.modified, data.others)
  }

  /** The position of the document a `{ _id: oid }` filter selects: the first
      one, in natural order, with that identifier. */
  function IndexOf(tasks: seq<Task>, oid: ObjectId): (r: Option<nat>)
    ensures r.Some? ==> r.value < |tasks| && tasks[r.value].id == oid
    ensures r.Some? ==> forall j | 0 <= j < r.value :: tasks[j].id != oid
    ensures r.None? <==> forall j | 0 <= j < |tasks| :: tasks[j].id != oid
  {
    if tasks == [] then None
    else if tasks[0].id == oid then Some(0)
    else match IndexOf(tasks[1..], oid)
      case None => None
      case Some(i) => Some(i + 1)
  }

  /** The collection invariant MongoDB keeps through its unique `_id` index. */
  predicate UniqueIds(tasks: seq<Task>)
  {
    forall i, j | 0 <= i < j < |tasks| :: tasks[i].id != tasks[j].id
  }

  /** Appending a document whose `_id` is not yet used keeps the ids unique. */
  lemma AppendKeepsUniqueIds(tasks: seq<Task>, t: Task)
    requires UniqueIds(tasks) && IndexOf(tasks, t.id).None?
    ensures UniqueIds(tasks + [t])
  {
  }

  // ---------------------------------------------------------------------
  // PUT /task-update/:id

  /** JavaScript truthiness of an optional string field: `null`,
      `undefined` and the empty string are the falsy ones. */
  predicate Truthy(s: Option<string>): (b: bool)
    ensures b <==> s != None && s != Some("")
  {
    s.Some? && s.value != ""
  }

  /** The `$set` document the handler builds; `None` leaves that key out. */
  datatype FieldSet = FieldSet(title: Option<string>, description: Option<string>)

  /** `$set` applied to one document: a key that is present overwrites its
      field, a key left out keeps it, and no other field changes. */
  function SetFields(t: Task, fields: FieldSet): (r: Task)
    ensures r.title == (if fields.title.None? then t.title else fields.title)
    ensures r.description == (if fields.description.None? then t.description else fields.description)
    ensures r.(title := t.title, description := t.description) == t
  {
    t.(title := if fields.title.Some? then fields.title else t.title,
       description := if fields.description.Some? then fields.description else t.description)
  }

  /** PUT /task-update/:id: a malformed id makes `new ObjectId` throw inside
      the `try` (500); an id no task holds gives 404; otherwise the matched
      task gets the truthy ones of `title` and `description` (200). */
  function UpdateFields(tasks: seq<Task>, id: string, title: Option<string>, description: Option<string>): (r: Outcome<seq<Task>>)
    ensures r.status == ServerError <==> !ValidId(id)
    ensures r.status == NotFound <==> ValidId(id) && forall k | 0 <= k < |tasks| :: tasks[k].id != ToObjectId(id).value
    ensures r.status in {Ok, NotFound, ServerError}
    ensures r.status != Ok ==> r.state == tasks
  {
    var fields := FieldSet(if Truthy(title) then title else None,
                           if Truthy(description) then description else None);
    match ToObjectId(id)
    case None => Outcome(ServerError, tasks)
    case Some(oid) =>
      match IndexOf(tasks, oid)
      case None => Outcome(NotFound, tasks)
      case Some(i) => Outcome(Ok, tasks[i := SetFields(tasks[i], fields)])
  }

  /** What a successful update changes: on the task with that id, `title`
      and `description` take the supplied values that are truthy and keep
      their old values otherwise; its other fields and every other task stay. */
  lemma UpdateFieldsEffect(tasks: seq<Task>, id: string, oid: ObjectId, title: Option<string>, description: Option<string>)
    requires UniqueIds(tasks) && ToObjectId(id) == Some(oid)
    ensures var r := UpdateFields(tasks, id, title, description);
      && |r.state| == |tasks|
      && UniqueIds(r.state)
      && (forall k | 0 <= k < |tasks| && tasks[k].id != oid :: r.state[k] == tasks[k])
      && (forall k | 0 <= k < |tasks| && tasks[k].id == oid ::
            && r.state[k].title == (if Truthy(title) then title else tasks[k].title)
            && r.state[k].description == (if Truthy(description) then description else tasks[k].description)
            && r.state[k].(title := tasks[k].title, description := tasks[k].description) == tasks[k])
  {
  }

  // ---------------------------------------------------------------------
  // PUT /tasks/dnd/:_id

  /** The body of the drag-and-drop request. */
  datatype MoveBody = MoveBody(category: Option<string>, modified: Stamp)

  /** The document an upsert inserts: only the filter's `_id` and the `$set` fields. */
  function Upserted(oid: ObjectId, body: MoveBody): (r: Task)
    ensures r.id == oid && r.category == body.category && r.modified == Some(body.modified)
    ensures r.email == None && r.title == None && r.description == None && r.others == map[]
  {
    Task(oid, None, body.category, None, None, Some(body.modified), map[])
  }

  /** PUT /tasks/dnd/:_id: 404 without body or id; a malformed id throws
      outside the `try`, so nothing is answered; otherwise `findOneAndUpdate`
      with upsert sets `category` and `modified` on the task, or inserts a
      new one, and answers 201. */
  function MoveCategory(tasks: seq<Task>, id: string, body: Option<MoveBody>): (r: Outcome<seq<Task>>)
    ensures r.status == NotFound <==> body.None? || id == ""
    ensures r.status == NoResponse <==> body.Some? && id != "" && !ValidId(id)
    ensures r.status == Created <==> body.Some? && ValidId(id)
    ensures r.status != Created ==> r.state == tasks
  {
    if body.None? || id == "" then Outcome(NotFound, tasks)
    else match ToObjectId(id)
      case None => Outcome(NoResponse, tasks)
      case Some(oid) =>
        match IndexOf(tasks, oid)
        case Some(i) => Outcome(Created, tasks[i := tasks[i].(category := body.value.category, modified := Some(body.value.modified))])
        case None => Outcome(Created, tasks + [Upserted(oid, body.value)])
  }

  /** Moving an existing task changes its `category` and `modified` and
      nothing else, in it or in any other task. */
  lemma MoveExisting(tasks: seq<Task>, id: string, oid: ObjectId, body: MoveBody, k: nat)
    requires UniqueIds(tasks) && ToObjectId(id) == Some(oid)
    requires k < |tasks| && tasks[k].id == oid
    ensures var r := MoveCategory(tasks, id, Some(body));
      && r.status == Created
      && |r.state| == |tasks|
      && UniqueIds(r.state)
      && r.state[k].category == body.category && r.state[k].modified == Some(body.modified)
      && r.state[k].(category := tasks[k].category, modified := tasks[k].modified) == tasks[k]
      && (forall j | 0 <= j < |tasks| && j != k :: r.state[j] == tasks[j])
  {
  }

  /** Moving an id no task holds inserts a task with only that id, the
      category and the timestamp: it has no owner email. */
  lemma MoveAbsent(tasks: seq<Task>, id: string, oid: ObjectId, body: MoveBody)
    requires UniqueIds(tasks) && ToObjectId(id) == Some(oid)
    requires forall k | 0 <= k < |tasks| :: tasks[k].id != oid
    ensures var r := MoveCategory(tasks, id, Some(body));
      && r == Outcome(Created, tasks + [Upserted(oid, body)])
      && r.state[|tasks|].email == None
      && UniqueIds(r.state)
  {
  }

  // ---------------------------------------------------------------------
  // DELETE /task-del/:id

  /** DELETE /task-del/:id: 400 for a malformed id, before the store is
      touched; otherwise `deleteOne` removes the first task with that id
      (200) or finds none (404). */
  function DeleteTask(tasks: seq<Task>, id: string): (r: Outcome<seq<Task>>)
    ensures r.status == BadRequest <==> !ValidId(id)
    ensures r.status == NotFound <==> ValidId(id) && forall k | 0 <= k < |tasks| :: tasks[k].id != ToObjectId(id).value
    ensures r.status in {Ok, NotFound, BadRequest}
    ensures r.status == Ok ==> |r.state| == |tasks| - 1
    ensures r.status != Ok ==> r.state == tasks
  {
    match ToObjectId(id)
    case None => Outcome(BadRequest, tasks)
    case Some(oid) =>
      match IndexOf(tasks, oid)
      case None => Outcome(NotFound, tasks)
      case Some(i) => Outcome(Ok, tasks[..i] + tasks[i + 1..])
  }

  /** A successful delete removes exactly the task with that id: every other
      task remains, the removed one is gone, and the ids stay unique. */
  lemma DeleteEffect(tasks: seq<Task>, id: string, oid: ObjectId)
    requires UniqueIds(tasks) && ToObjectId(id) == Some(oid)
    ensures var r := DeleteTask(tasks, id);
      && UniqueIds(r.state)
      && (forall k | 0 <= k < |tasks| && tasks[k].id != oid :: tasks[k] in r.state)
      && (forall t | t in r.state :: t in tasks && t.id != oid)
  {
  }

  /** Deleting the same id twice: the second call never succeeds, and after
      a first success it reports 404; it changes nothing. */
  lemma DeleteTwice(tasks: seq<Task>, id: string)
    requires UniqueIds(tasks)
    ensures var r1 := DeleteTask(tasks, id);
            var r2 := DeleteTask(r1.state, id);
      && r2.status != Ok
      && r2.state == r1.state
      && (r1.status == Ok ==> r2.status == NotFound)
  {
  }
}
